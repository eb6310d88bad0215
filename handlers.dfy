/**
 * The two handler nodes: `chatbot_agent`, which answers health questions
 * through the language-model service, and `wiki_search_agent`, which answers
 * general questions through the Wikipedia lookup. Both services are
 * parameters: a function from request to reply.
 */
module Handlers {
  import opened Wrappers
  import opened PyStrings
  import opened Messages
  import opened Configuration

  /** One message of a rendered chat prompt: its role name and its text. */
  datatype ChatTurn = ChatTurn(role: string, text: string)

  /** What the healthcare handler sends to the language-model service: the
      client settings and the chat messages of the rendered prompt. */
  datatype LlmRequest = LlmRequest(settings: LlmSettings, prompt: seq<ChatTurn>)

  /** The service's answer: the reply's text, or a failed call. */
  datatype LlmReply = Reply(text: string) | ServiceFailure

  /** What the Wikipedia lookup yields: its text, or an exception. */
  datatype LookupResult = Found(text: string) | LookupFailed

  /** The persona instruction sent as the system message, verbatim. */
  const SystemPrompt: string :=
    "Your name is JARVIS and you are a professional healthcare expert with extensive experience in clinical medicine, \n"
    + "diagnostics, and patient education. Your role is to provide clear, accurate, and responsible health \n"
    + "information based on the latest medical guidelines and evidence-based practices. You are also a certified nutritionist \n"
    + "who provides personalized diet recommendations when users ask about food, nutrition, or diet plans.\n"
    + "\n"
    + "Always clarify that your advice does not replace a consultation with a licensed physician or dietitian. \n"
    + "Respond with empathy, professionalism, and clarity, suitable for people of all ages and backgrounds. \n"
    + "When needed, ask follow-up questions to ensure the best possible guidance.\n"
    + "\n"
    + "You are made by AVINASH."

  /** The prompt template `[("system", SystemPrompt), ("human", "{input}")]`
      filled with `input`. The persona holds no braces, so the template
      leaves it unchanged. */
  function RenderPrompt(input: string): seq<ChatTurn> {
    [ChatTurn("system", SystemPrompt), ChatTurn("human", input)]
  }

  const Greeting := "Hello! I'm JARVIS, your healthcare assistant. How can I help you today?"

  const NeedQuery := "I need a query to search Wikipedia."

  // ---------------------------------------------------------------------------
  // chatbot_agent
  // ---------------------------------------------------------------------------

  /** What the handler makes of the service's answer: the reply's text as
      the one new AI message, or the service error, which is not caught. */
  function ReplyMessages(reply: LlmReply): (r: Result<seq<Message>, AgentError>)
    ensures r.Ok? <==> reply.Reply?
    ensures r.Ok? ==> r.value == [AiMessage(reply.text)]
    ensures r.Err? ==> r.error == LlmServiceError
  {
    match reply
    case Reply(text) => Ok([AiMessage(text)])
    case ServiceFailure => Err(LlmServiceError)
  }

  /** `chatbot_agent`. An empty conversation gets the greeting; a
      conversation whose last message is not from the user gets nothing;
      otherwise the configuration is resolved (a missing key is fatal) and
      the service is sent the rendered prompt: the persona as system message
      and the user's extracted text as human message. Its reply becomes one
      AI message; a failed call leaves the handler as an error. */
  function ChatbotAgent(messages: seq<Message>, cfg: Configurable, envKey: Option<string>,
                        llm: LlmRequest -> LlmReply): (r: Result<seq<Message>, AgentError>)
    ensures messages == [] ==> r == Ok([AiMessage(Greeting)])
    ensures messages != [] && Last(messages).role != Human ==> r == Ok([])
    ensures r.Ok? ==> |r.value| <= 1 && forall m :: m in r.value ==> m.role == AI
    ensures r.Err? ==> messages != [] && Last(messages).role == Human
    ensures messages != [] && Last(messages).role == Human ==>
      match SetupLlm(cfg, envKey)
      case Err(e) => r == Err(e)
      case Ok(settings) =>
        r == ReplyMessages(llm(LlmRequest(settings, [ChatTurn("system", SystemPrompt),
                                                     ChatTurn("human", ExtractText(Last(messages).content))])))
  {
    if messages == [] then Ok([AiMessage(Greeting)])
    else
      var last := Last(messages);
      if last.role != Human then Ok([])
      else
        match SetupLlm(cfg, envKey)
        case Err(e) => Err(e)
        case Ok(settings) => ReplyMessages(llm(LlmRequest(settings, RenderPrompt(ExtractText(last.content)))))
  }

  /** The greeting needs no configuration and no service: it is the same
      whatever the key, the environment and the service would do. */
  lemma GreetingNeedsNoService(cfg: Configurable, envKey: Option<string>, llm1: LlmRequest -> LlmReply,
                               llm2: LlmRequest -> LlmReply)
    ensures ChatbotAgent([], cfg, envKey, llm1) == ChatbotAgent([], NoConfiguration, None, llm2)
    ensures ChatbotAgent([], cfg, envKey, llm1) == Ok([AiMessage(Greeting)])
  {
  }

  /** A missing key fails before the service is called: the outcome is the
      configuration error whatever the service would have answered. */
  lemma MissingKeyFailsBeforeCall(messages: seq<Message>, cfg: Configurable, envKey: Option<string>,
                                  llm: LlmRequest -> LlmReply)
    requires messages != [] && Last(messages).role == Human
    requires !Truthy(cfg.groqApiKey) && !Truthy(envKey)
    ensures ChatbotAgent(messages, cfg, envKey, llm) == Err(ConfigurationError(MissingKeyMessage))
  {
  }

  // ---------------------------------------------------------------------------
  // wiki_search_agent: cleaning, truncation and the reply templates
  // ---------------------------------------------------------------------------

  const SummaryMarker := "\nSummary:"

  const MaxSummaryLength := 1000

  const Ellipsis := "..."

  /** The summary extraction, as the source writes it:
      `result.split("\nSummary:")[1].split("\n")[0].strip()` when the marker
      occurs, `result.strip()` otherwise. */
  function CleanWikiText(raw: string): (r: string)
    ensures Stripped(r)
    ensures !Contains(raw, SummaryMarker) ==> r == Strip(raw)
  {
    if Contains(raw, SummaryMarker) then
      var afterMarker := Split(raw, SummaryMarker)[1];
      Strip(Split(afterMarker, "\n")[0])
    else
      Strip(raw)
  }

  /** Cuts the cleaned text to its first 1000 characters and marks the cut
      with "...". */
  function Truncate(cleaned: string): (r: string)
    ensures |r| <= MaxSummaryLength + |Ellipsis|
    ensures |cleaned| <= MaxSummaryLength ==> r == cleaned
    ensures |cleaned| > MaxSummaryLength ==>
      |r| == MaxSummaryLength + |Ellipsis| && r[..MaxSummaryLength] == cleaned[..MaxSummaryLength]
      && r[MaxSummaryLength..] == Ellipsis
  {
    if |cleaned| > MaxSummaryLength then cleaned[..MaxSummaryLength] + Ellipsis else cleaned
  }

  const FoundPrefix := "Here's what I found about "
  const FoundMiddle := ":\n\n"
  const FoundSuffix := "\n\nIf you have any health-related questions about this topic, I'm here to help!"

  /** The reply template for a successful lookup. */
  function FoundReply(query: string, summary: string): string {
    FoundPrefix + Quoted(query) + FoundMiddle + summary + FoundSuffix
  }

  const ApologyPrefix := "I apologize, but I couldn't retrieve information about "
  const ApologySuffix := " at the moment. Please try rephrasing your question or ask me about health and nutrition topics directly."

  /** A query as both templates show it, between single quotes. */
  function Quoted(query: string): string {
    "'" + query + "'"
  }

  /** The reply template for a failed lookup. */
  function ApologyReply(query: string): string {
    ApologyPrefix + Quoted(query) + ApologySuffix
  }

  /** `wiki_search_agent`. An empty conversation gets the "need a query"
      message; a conversation whose last message is not from the user gets
      nothing; otherwise the user's extracted text is looked up and the
      handler answers with exactly one AI message: the found-template around
      the cleaned, truncated summary, or, when the lookup fails, the apology
      naming the query. A lookup failure never leaves the handler. */
  function WikiSearchAgent(messages: seq<Message>, lookup: string -> LookupResult): (r: seq<Message>)
    ensures messages == [] ==> r == [AiMessage(NeedQuery)]
    ensures messages != [] && Last(messages).role != Human ==> r == []
    ensures messages != [] && Last(messages).role == Human ==>
      var query := ExtractText(Last(messages).content);
      |r| == 1 &&
      match lookup(query)
      case Found(raw) => r[0] == AiMessage(FoundReply(query, Truncate(CleanWikiText(raw))))
      case LookupFailed => r[0] == AiMessage(ApologyReply(query))
  {
    if messages == [] then [AiMessage(NeedQuery)]
    else
      var last := Last(messages);
      if last.role != Human then []
      else
        var query := ExtractText(last.content);
        match lookup(query)
        case Found(raw) =>
          [AiMessage(FoundReply(query, Truncate(CleanWikiText(raw))))]
        case LookupFailed =>
          [AiMessage(ApologyReply(ExtractText(last.content)))]
  }

  // ---------------------------------------------------------------------------
  // Properties of the cleaning and the templates
  // ---------------------------------------------------------------------------

  /** The marker starts with a line break, so it can only occur where the
      text has one. */
  lemma MarkerStartsWithLineBreak(s: string, j: nat)
    requires OccursAt(s, SummaryMarker, j)
    ensures s[j] == '\n'
  {
    assert s[j] == s[j..j + |SummaryMarker|][0];
  }

  /** Splitting on "\n" a line without line breaks, followed by nothing or by
      a line break, gives that line first. */
  lemma FirstLine(line: string, rest: string)
    requires '\n' !in line
    requires rest == [] || rest[0] == '\n'
    ensures Split(line + rest, "\n")[0] == line
  {
    var s := line + rest;
    forall j: nat | j < |line| ensures !OccursAt(s, "\n", j) {
      assert s[j] == line[j];
      OccursAtChar(s, '\n', j);
    }
    if rest == [] {
      assert s == line;
      forall j: nat ensures !OccursAt(s, "\n", j) {
        OccursAtChar(s, '\n', j);
      }
      assert Find(s, "\n") == None;
    } else {
      OccursAtChar(s, '\n', |line|);
      FindFirst(s, "\n", |line|);
    }
  }

  /** The piece after the first marker is what follows that marker, up to
      the next one. */
  lemma AfterFirstMarker(pre: string, rest: string)
    requires forall j: nat :: j < |pre| ==> !OccursAt(pre + SummaryMarker + rest, SummaryMarker, j)
    ensures Contains(pre + SummaryMarker + rest, SummaryMarker)
    ensures Split(pre + SummaryMarker + rest, SummaryMarker)[1] == Split(rest, SummaryMarker)[0]
  {
    var raw := pre + SummaryMarker + rest;
    OccursInContext(pre, SummaryMarker, rest);
    FindFirst(raw, SummaryMarker, |pre|);
    assert raw[|pre| + |SummaryMarker|..] == rest;
  }

  /** The first line of the text before the next marker is the first line
      of the text itself. */
  lemma FirstLineBeforeMarker(line: string, post: string)
    requires '\n' !in line
    requires post == [] || post[0] == '\n'
    ensures Split(Split(line + post, SummaryMarker)[0], "\n")[0] == line
  {
    var rest := line + post;
    var piece := Split(rest, SummaryMarker)[0];
    var cut: nat := match Find(rest, SummaryMarker) case None => |rest| case Some(p) => p;
    assert piece == rest[..cut];
    assert cut >= |line| by {
      if cut < |line| {
        MarkerStartsWithLineBreak(rest, cut);
      }
    }
    var tail := post[..cut - |line|];
    assert piece == line + tail;
    FirstLine(line, tail);
  }

  /** Cleaning takes the rest of the line after the first "\nSummary:"
      marker, trimmed: `pre` holds no earlier marker, `line` no line break,
      and `post` is empty or starts the next line. */
  lemma CleanTakesSummaryLine(pre: string, line: string, post: string)
    requires forall j: nat :: j < |pre| ==> !OccursAt(pre + SummaryMarker + line + post, SummaryMarker, j)
    requires '\n' !in line
    requires post == [] || post[0] == '\n'
    ensures CleanWikiText(pre + SummaryMarker + line + post) == Strip(line)
  {
    var raw := pre + SummaryMarker + line + post;
    assert raw == pre + SummaryMarker + (line + post);
    AfterFirstMarker(pre, line + post);
    OccursInContext(pre, SummaryMarker, line + post);
    FirstLineBeforeMarker(line, post);
  }

  /** When the marker occurs, the cleaned summary is a single line. */
  lemma SummaryIsOneLine(raw: string)
    requires Contains(raw, SummaryMarker)
    ensures '\n' !in CleanWikiText(raw)
  {
    var afterMarker := Split(raw, SummaryMarker)[1];
    var firstLine := Split(afterMarker, "\n")[0];
    SplitPiecesFree(afterMarker, "\n", 0);
    AbsentChar(firstLine, '\n');
    StripKeepsChars(firstLine, '\n');
  }

  /** The failure reply names the query, quoted. */
  lemma ApologyNamesQuery(query: string)
    ensures Contains(ApologyReply(query), Quoted(query))
    ensures Contains(ApologyReply(query), query)
  {
    QuotedOccurs(ApologyPrefix, query, ApologySuffix);
  }

  /** A quoted query occurs in any text built around it, and so does the
      query itself. */
  lemma QuotedOccurs(head: string, query: string, tail: string)
    ensures Contains(head + Quoted(query) + tail, Quoted(query))
    ensures Contains(head + Quoted(query) + tail, query)
  {
    OccursInContext(head, Quoted(query), tail);
    var before, after := head + "'", "'" + tail;
    assert head + Quoted(query) + tail == before + query + after;
    OccursInContext(before, query, after);
  }

  /** The success reply is at most the fixed template text, the quoted
      query and 1003 characters of summary long. */
  lemma FoundReplyBounded(query: string, raw: string)
    ensures |FoundReply(query, Truncate(CleanWikiText(raw)))|
            <= |FoundPrefix| + |FoundMiddle| + |FoundSuffix| + 2 + |query| + MaxSummaryLength + |Ellipsis|
  {
    FoundReplyParts(query, Truncate(CleanWikiText(raw)));
  }

  /** Where the quoted query and the summary stand in a reply built as
      `head + Quoted(query) + middle + summary + tail`. */
  lemma TemplateParts(head: string, query: string, middle: string, summary: string, tail: string)
    ensures var reply := head + Quoted(query) + middle + summary + tail;
      var start := |head| + |query| + 2 + |middle|;
      |reply| == |head| + |middle| + |tail| + 2 + |query| + |summary|
      && reply[|head| + 1..|head| + 1 + |query|] == query
      && reply[start..start + |summary|] == summary
  {
    var reply := head + Quoted(query) + middle + summary + tail;
    var before := head + "'";
    var after := "'" + middle + summary + tail;
    assert reply == before + query + after;
    OccursInContext(before, query, after);
    var front := head + Quoted(query) + middle;
    assert reply == front + summary + tail;
    OccursInContext(front, summary, tail);
  }

  /** The success reply gives back the query and the summary it was built
      from, and is longer than the fixed template text by exactly their
      lengths. */
  lemma FoundReplyParts(query: string, summary: string)
    ensures var reply := FoundReply(query, summary);
      var start := |FoundPrefix| + |query| + 2 + |FoundMiddle|;
      |reply| == |FoundPrefix| + |FoundMiddle| + |FoundSuffix| + 2 + |query| + |summary|
      && reply[|FoundPrefix| + 1..|FoundPrefix| + 1 + |query|] == query
      && reply[start..start + |summary|] == summary
  {
    TemplateParts(FoundPrefix, query, FoundMiddle, summary, FoundSuffix);
  }
}
