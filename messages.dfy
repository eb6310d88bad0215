/**
 * Conversation messages and `extract_text_content`, which flattens a
 * message's content into one trimmed string.
 */
module Messages {
  import opened Wrappers
  import opened PyStrings

  /** The message classes the router tells apart: `HumanMessage`,
      `AIMessage`, and any other kind (system, tool, ...). */
  datatype Role = Human | AI | OtherRole

  /** One entry of a list-valued content: a string, a dict (whose `"text"`
      entry, when it has one, is a string), or anything else. */
  datatype Fragment = FStr(str: string) | FDict(text: Option<string>) | FOther

  /** A message's content: a string, a list of fragments, or anything else. */
  datatype Content = CStr(str: string) | CList(items: seq<Fragment>) | COther

  datatype Message = Message(role: Role, content: Content)

  /** An `AIMessage(content=text)`. */
  function AiMessage(text: string): Message {
    Message(AI, CStr(text))
  }

  /** The conversation's most recent message, `state["messages"][-1]`. */
  function Last(messages: seq<Message>): Message
    requires messages != []
  {
    messages[|messages| - 1]
  }

  /** The text a fragment contributes: a string item itself, or a dict's
      `"text"` entry; other items contribute nothing. */
  function FragmentText(f: Fragment): Option<string> {
    match f
    case FDict(Some(t)) => Some(t)
    case FStr(s) => Some(s)
    case _ => None
  }

  /** The loop's accumulator after the given items: every contributed text
      followed by one space. */
  function Accumulated(items: seq<Fragment>): (r: string)
    ensures r == "" <==> forall k :: 0 <= k < |items| ==> FragmentText(items[k]).None?
    ensures r != "" ==> r[|r| - 1] == ' '
  {
    if items == [] then ""
    else
      var init := Accumulated(items[..|items| - 1]);
      assert forall k :: 0 <= k < |items| - 1 ==> items[..|items| - 1][k] == items[k];
      match FragmentText(items[|items| - 1])
      case Some(t) => init + t + " "
      case None => init
  }

  /** The texts that the fragments contribute, in order. */
  function KeptTexts(items: seq<Fragment>): (r: seq<string>)
    ensures |r| <= |items|
    ensures |r| == |items| <==> forall k :: 0 <= k < |items| ==> FragmentText(items[k]).Some?
  {
    if items == [] then []
    else
      var init := KeptTexts(items[..|items| - 1]);
      assert forall k :: 0 <= k < |items| - 1 ==> items[..|items| - 1][k] == items[k];
      match FragmentText(items[|items| - 1])
      case Some(t) => init + [t]
      case None => init
  }

  /** What `extract_text_content(content)` returns. The result never starts
      or ends with whitespace. */
  function ExtractText(content: Content): (r: string)
    ensures Stripped(r)
  {
    match content
    case CList(items) => Strip(Accumulated(items))
    case CStr(s) => Strip(s)
    case COther => ""
  }

  /** `extract_text_content`: the loop over the list appends each kept text
      and a space to a local accumulator, which is stripped at the end. */
  method ExtractTextContent(content: Content) returns (r: string)
    ensures r == ExtractText(content)
  {
    match content {
      case CList(items) =>
        var text := "";
        var i := 0;
        while i < |items|
          invariant 0 <= i <= |items|
          invariant text == Accumulated(items[..i])
        {
          assert items[..i + 1][..i] == items[..i];
          match items[i] {
            case FDict(Some(t)) => text := text + t + " ";
            case FStr(s) => text := text + s + " ";
            case _ =>
          }
          i := i + 1;
        }
        assert items[..|items|] == items;
        r := Strip(text);
      case CStr(s) =>
        r := Strip(s);
      case COther =>
        r := "";
    }
  }

  /** Plain string content yields that string stripped. */
  lemma ExtractString(s: string)
    ensures ExtractText(CStr(s)) == Strip(s)
    ensures ExtractText(CStr(s)) == s <==> Stripped(s)
  {
    if Stripped(s) {
      StripUnique([], s, []);
      assert [] + s + [] == s;
    }
  }

  /** Content that is neither a string nor a list yields the empty string. */
  lemma ExtractOther()
    ensures ExtractText(COther) == ""
  {
  }

  /** Extracting from an already extracted string changes nothing. */
  lemma ExtractIdempotent(content: Content)
    ensures ExtractText(CStr(ExtractText(content))) == ExtractText(content)
  {
    var r := ExtractText(content);
    StripUnique([], r, []);
    assert [] + r + [] == r;
  }

  lemma {:induction false} AccumulatedIsJoin(items: seq<Fragment>)
    ensures KeptTexts(items) == [] ==> Accumulated(items) == ""
    ensures KeptTexts(items) != [] ==> Accumulated(items) == Join(KeptTexts(items), " ") + " "
    decreases |items|
  {
    if items != [] {
      var init := items[..|items| - 1];
      AccumulatedIsJoin(init);
      match FragmentText(items[|items| - 1])
      case Some(t) =>
        if KeptTexts(init) != [] {
          JoinSnoc(KeptTexts(init), t, " ");
        } else {
          assert KeptTexts(items) == [t];
        }
      case None =>
    }
  }

  /** List content yields the kept texts joined by single spaces, stripped:
      the trailing space the loop adds after the last item never survives. */
  lemma ExtractListIsSpaceJoin(items: seq<Fragment>)
    ensures ExtractText(CList(items)) == Strip(Join(KeptTexts(items), " "))
  {
    AccumulatedIsJoin(items);
    if KeptTexts(items) != [] {
      StripIgnoresTrailingSpace(Join(KeptTexts(items), " "), " ");
    }
  }

  lemma {:induction false} KeptTextsAppend(a: seq<Fragment>, b: seq<Fragment>)
    ensures KeptTexts(a + b) == KeptTexts(a) + KeptTexts(b)
    decreases |b|
  {
    if b == [] {
      assert a + b == a;
    } else {
      var initB := b[..|b| - 1];
      assert (a + b)[..|a + b| - 1] == a + initB;
      assert (a + b)[|a + b| - 1] == b[|b| - 1];
      KeptTextsAppend(a, initB);
    }
  }

  /** A fragment that is neither a string nor a dict with `"text"` is
      skipped: removing it anywhere in the list does not change the result. */
  lemma ExtractSkipsFragment(a: seq<Fragment>, f: Fragment, b: seq<Fragment>)
    requires FragmentText(f).None?
    ensures ExtractText(CList(a + [f] + b)) == ExtractText(CList(a + b))
  {
    KeptTextsAppend(a + [f], b);
    KeptTextsAppend(a, [f]);
    KeptTextsAppend(a, b);
    assert KeptTexts([f]) == [] by {
      assert [f][..0] == [];
    }
    ExtractListIsSpaceJoin(a + [f] + b);
    ExtractListIsSpaceJoin(a + b);
  }
}
