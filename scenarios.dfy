/**
 * End-to-end runs of the graph on concrete conversations: the router's
 * choice and the handler's output for a few representative inputs.
 */
module Scenarios {
  import opened Wrappers
  import opened PyStrings
  import opened Messages
  import opened Configuration
  import opened Routing
  import opened Handlers
  import opened Graph

  function UserSays(text: string): seq<Message> {
    [Message(Human, CStr(text))]
  }

  lemma {:induction false} LowerCharsFrom(s: string, c: char)
    requires c in Lower(s)
    ensures exists x :: x in s && c in LowerChar(x)
  {
    if c !in LowerChar(s[0]) {
      LowerCharsFrom(s[1..], c);
      var x :| x in s[1..] && c in LowerChar(x);
      assert x in s;
    }
  }

  /** A key with a character the text lacks does not occur in the text. */
  lemma MissingCharExcludesKey(s: string, key: string, c: char)
    requires c in key && c !in s
    ensures !Contains(s, key)
  {
  }

  /** A text none of whose characters lower-cases to `c` has no `c` once
      lower-cased. */
  lemma AbsentAfterLower(s: string, c: char)
    requires forall x :: x in s ==> c !in LowerChar(x)
    ensures c !in Lower(s)
  {
    if c in Lower(s) {
      LowerCharsFrom(s, c);
    }
  }

  /** A user message with stripped string content routes on that string. */
  lemma LastUserText(text: string)
    requires Stripped(text)
    ensures Last(UserSays(text)).role == Human
    ensures ExtractText(Last(UserSays(text)).content) == text
  {
    ExtractString(text);
  }

  /** The keywords are already lower case. */
  lemma KeywordIsLowerCase(key: string)
    requires key in WikiKeywords
    ensures Lower(key) == key
  {
    forall k | 0 <= k < |key| ensures LowerChar(key[k]) == [key[k]] {
      assert key[k] in key;
    }
    LowerOfLowerCase(key);
  }

  /** A user message whose text starts with a keyword is a knowledge question. */
  lemma KeywordFirstRoutesToWiki(text: string, key: string)
    requires Stripped(text) && key in WikiKeywords
    requires |key| <= |text| && text[..|key|] == key
    ensures RouteUserInput(UserSays(text)) == Wiki
  {
    LastUserText(text);
    KeywordIsLowerCase(key);
    assert OccursAt(text, key, 0);
    RouteIgnoresCase(UserSays(text), key);
  }

  /** A stripped user question that the router sends to the knowledge
      handler is looked up verbatim, and the reply is built from the lookup's
      outcome. */
  lemma KnowledgeQuestionStep(text: string, cfg: Configurable, envKey: Option<string>,
                              llm: LlmRequest -> LlmReply, lookup: string -> LookupResult)
    requires Stripped(text) && RouteUserInput(UserSays(text)) == Wiki
    ensures Step(UserSays(text), cfg, envKey, llm, lookup) == Ok(WikiSearchAgent(UserSays(text), lookup))
    ensures match lookup(text)
      case Found(raw) => WikiSearchAgent(UserSays(text), lookup)
                         == [AiMessage(FoundReply(text, Truncate(CleanWikiText(raw))))]
      case LookupFailed => WikiSearchAgent(UserSays(text), lookup) == [AiMessage(ApologyReply(text))]
  {
    var messages := UserSays(text);
    LastUserText(text);
    assert Next(Start, messages) == WikiNode;
  }

  /** A stripped user question that the router sends to the healthcare
      handler reaches the service verbatim as the template's input, after
      the persona instruction; the outcome is what the service answers. */
  lemma HealthQuestionStep(text: string, cfg: Configurable, envKey: Option<string>,
                           llm: LlmRequest -> LlmReply, lookup: string -> LookupResult)
    requires Stripped(text) && RouteUserInput(UserSays(text)) == Chatbot
    requires SetupLlm(cfg, envKey).Ok?
    ensures Step(UserSays(text), cfg, envKey, llm, lookup)
            == ReplyMessages(llm(LlmRequest(SetupLlm(cfg, envKey).value,
                                          [ChatTurn("system", SystemPrompt), ChatTurn("human", text)])))
  {
    var messages := UserSays(text);
    LastUserText(text);
    assert Next(Start, messages) == ChatbotNode;
  }

  // Kept apart from its caller so that the solver reasons about the literal
  // in a small context; inlined, the caller's proof becomes unstable.
  lemma HistoryQuestionFacts(text: string)
    requires text == "tell me about the history of penicillin"
    ensures Stripped(text) && |"tell me about"| <= |text| && text[..|"tell me about"|] == "tell me about"
  {
  }

  /** "tell me about the history of penicillin" is a knowledge question, and
      the lookup is asked with exactly that text. */
  lemma HistoryQuestionGoesToLookup(text: string, cfg: Configurable, envKey: Option<string>,
                                    llm: LlmRequest -> LlmReply, lookup: string -> LookupResult)
    requires text == "tell me about the history of penicillin"
    ensures RouteUserInput(UserSays(text)) == Wiki
    ensures Step(UserSays(text), cfg, envKey, llm, lookup) == Ok(WikiSearchAgent(UserSays(text), lookup))
    ensures match lookup(text)
      case Found(raw) => WikiSearchAgent(UserSays(text), lookup)
                         == [AiMessage(FoundReply(text, Truncate(CleanWikiText(raw))))]
      case LookupFailed => WikiSearchAgent(UserSays(text), lookup) == [AiMessage(ApologyReply(text))]
  {
    HistoryQuestionFacts(text);
    KeywordFirstRoutesToWiki(text, "tell me about");
    KnowledgeQuestionStep(text, cfg, envKey, llm, lookup);
  }

  /** A character whose lower-case form has none of the letters y, k, x,
      f, b: each keyword holds one of them. */
  predicate NoKeywordLetter(c: char) {
    'y' !in LowerChar(c) && 'k' !in LowerChar(c) && 'x' !in LowerChar(c)
    && 'f' !in LowerChar(c) && 'b' !in LowerChar(c)
  }

  /** A text none of whose characters lower-cases to y, k, x, f or b. */
  predicate LetterFree(text: string) {
    forall x :: x in text ==> NoKeywordLetter(x)
  }

  /** The letters are kept out by keeping out the characters that lower-case
      to them. */
  lemma NoKeywordLetterOutside(c: char)
    requires c !in "yYkK\U{212A}xXfFbB"
    ensures NoKeywordLetter(c)
  {
    assert c != 'Y' && c != 'K' && c != 'X' && c != 'F' && c != 'B' && c != '\U{212A}';
  }

  /** A text none of whose characters lower-cases to y, k, x, f or b contains
      no keyword once lower-cased. */
  lemma NoKeywordWithoutLetters(text: string)
    requires LetterFree(text)
    ensures forall key :: key in WikiKeywords ==> !Contains(Lower(text), key)
  {
    var lowered := Lower(text);
    AbsentAfterLower(text, 'y');
    AbsentAfterLower(text, 'k');
    AbsentAfterLower(text, 'x');
    AbsentAfterLower(text, 'f');
    AbsentAfterLower(text, 'b');
    MissingCharExcludesKey(lowered, "history", 'y');
    MissingCharExcludesKey(lowered, "wiki", 'k');
    MissingCharExcludesKey(lowered, "explain", 'x');
    MissingCharExcludesKey(lowered, "information about", 'f');
    MissingCharExcludesKey(lowered, "tell me about", 'b');
  }

  lemma LetterFreeAppend(a: string, b: string)
    requires LetterFree(a) && LetterFree(b)
    ensures LetterFree(a + b)
  {
    forall x | x in a + b ensures NoKeywordLetter(x) {
      assert x in a || x in b;
    }
  }

  // Kept apart from its caller so that the solver reasons about the literal
  // in a small context; inlined, the caller's proof becomes unstable.
  lemma LetterFreeChunk(chunk: string)
    requires chunk in ["I have a ", "headache, ", "what should ", "I do?"]
    ensures LetterFree(chunk)
  {
    forall x | x in chunk ensures NoKeywordLetter(x) {
      NoKeywordLetterOutside(x);
    }
  }

  // Kept apart from its caller so that the solver reasons about the literal
  // in a small context; inlined, the caller's proof becomes unstable.
  lemma HeadacheQuestionFacts(text: string)
    requires text == "I have a headache, what should I do?"
    ensures Stripped(text)
    ensures LetterFree(text)
  {
    assert text == "I have a " + "headache, " + "what should " + "I do?";
    LetterFreeChunk("I have a ");
    LetterFreeChunk("headache, ");
    LetterFreeChunk("what should ");
    LetterFreeChunk("I do?");
    LetterFreeAppend("I have a ", "headache, ");
    LetterFreeAppend("I have a " + "headache, ", "what should ");
    LetterFreeAppend("I have a " + "headache, " + "what should ", "I do?");
  }

  /** A user message with no character lower-casing to y, k, x, f or b is
      not a knowledge question. */
  lemma LetterFreeRoutesToChatbot(text: string)
    requires Stripped(text) && LetterFree(text)
    ensures RouteUserInput(UserSays(text)) == Chatbot
  {
    var messages := UserSays(text);
    LastUserText(text);
    assert RoutingText(Last(messages)) == Lower(text);
    NoKeywordWithoutLetters(text);
  }

  /** A stripped user question with no character lower-casing to y, k, x,
      f or b goes to the healthcare handler. */
  lemma LetterFreeQuestionStep(text: string, cfg: Configurable, envKey: Option<string>,
                               llm: LlmRequest -> LlmReply, lookup: string -> LookupResult)
    requires Stripped(text) && LetterFree(text)
    requires SetupLlm(cfg, envKey).Ok?
    ensures RouteUserInput(UserSays(text)) == Chatbot
    ensures Step(UserSays(text), cfg, envKey, llm, lookup)
            == ReplyMessages(llm(LlmRequest(SetupLlm(cfg, envKey).value,
                                          [ChatTurn("system", SystemPrompt), ChatTurn("human", text)])))
  {
    LetterFreeRoutesToChatbot(text);
    HealthQuestionStep(text, cfg, envKey, llm, lookup);
  }

  /** "I have a headache, what should I do?" is a health question: the
      language-model service is asked with the persona and that text, and its
      reply is the one new message. */
  lemma HeadacheQuestionGoesToModel(text: string, cfg: Configurable, envKey: Option<string>,
                                    llm: LlmRequest -> LlmReply, lookup: string -> LookupResult)
    requires text == "I have a headache, what should I do?"
    requires SetupLlm(cfg, envKey).Ok?
    ensures RouteUserInput(UserSays(text)) == Chatbot
    ensures Step(UserSays(text), cfg, envKey, llm, lookup)
            == ReplyMessages(llm(LlmRequest(SetupLlm(cfg, envKey).value,
                                          [ChatTurn("system", SystemPrompt), ChatTurn("human", text)])))
  {
    HeadacheQuestionFacts(text);
    LetterFreeQuestionStep(text, cfg, envKey, llm, lookup);
  }

  /** An empty conversation gets the greeting, with no configuration and no
      service involved. */
  lemma EmptyConversationIsGreeted(cfg: Configurable, envKey: Option<string>,
                                   llm: LlmRequest -> LlmReply, lookup: string -> LookupResult)
    ensures Step([], cfg, envKey, llm, lookup) == Ok([AiMessage(Greeting)])
  {
    EmptyRoutesToChatbot();
  }

  // Kept apart from its caller so that the solver reasons about the literal
  // in a small context; inlined, the caller's proof becomes unstable.
  lemma WikiDiabetesFacts(text: string)
    requires text == "wiki diabetes"
    ensures Stripped(text) && |"wiki"| <= |text| && text[..|"wiki"|] == "wiki"
  {
  }

  /** A stripped user question that starts with a keyword and whose lookup
      fails is answered with the apology, which names the question. */
  lemma FailedKeywordLookup(text: string, key: string, cfg: Configurable, envKey: Option<string>,
                            llm: LlmRequest -> LlmReply, lookup: string -> LookupResult)
    requires Stripped(text) && key in WikiKeywords
    requires |key| <= |text| && text[..|key|] == key
    requires lookup(text) == LookupFailed
    ensures Step(UserSays(text), cfg, envKey, llm, lookup) == Ok([AiMessage(ApologyReply(text))])
    ensures Contains(ApologyReply(text), text)
  {
    KeywordFirstRoutesToWiki(text, key);
    KnowledgeQuestionStep(text, cfg, envKey, llm, lookup);
    ApologyNamesQuery(text);
  }

  /** A failing lookup for "wiki diabetes" is answered with the apology that
      names the query. */
  lemma FailedLookupIsApologised(text: string, cfg: Configurable, envKey: Option<string>,
                                 llm: LlmRequest -> LlmReply, lookup: string -> LookupResult)
    requires text == "wiki diabetes"
    requires lookup(text) == LookupFailed
    ensures Step(UserSays(text), cfg, envKey, llm, lookup) == Ok([AiMessage(ApologyReply(text))])
    ensures Contains(ApologyReply(text), text)
  {
    WikiDiabetesFacts(text);
    FailedKeywordLookup(text, "wiki", cfg, envKey, llm, lookup);
  }

  lemma NoMarkerInDots(raw: string)
    requires raw == "..." + SummaryMarker + " Short bio." + "\nMore text"
    ensures forall j: nat :: j < 3 ==> !OccursAt(raw, SummaryMarker, j)
  {
    forall j: nat | j < 3 ensures !OccursAt(raw, SummaryMarker, j) {
      if OccursAt(raw, SummaryMarker, j) {
        MarkerStartsWithLineBreak(raw, j);
      }
    }
  }

  // Kept apart from its caller so that the solver reasons about the literal
  // in a small context; inlined, the caller's proof becomes unstable.
  lemma ShortBioRaw(raw: string)
    requires raw == "...\nSummary: Short bio.\nMore text"
    ensures raw == "..." + SummaryMarker + " Short bio." + "\nMore text"
  {
  }

  // Kept apart from its caller so that the solver reasons about the literal
  // in a small context; inlined, the caller's proof becomes unstable.
  lemma ShortBioLine()
    ensures " Short bio." == " " + "Short bio."
    ensures '\n' !in " Short bio."
  {
  }

  // Kept apart from its caller so that the solver reasons about the literal
  // in a small context; inlined, the caller's proof becomes unstable.
  lemma ShortBioStripped()
    ensures AllSpace(" ") && Stripped("Short bio.")
  {
  }

  /** Strip removes leading whitespace from a string that does not end
      with any. */
  lemma StripLeadingSpace(front: string, core: string)
    requires AllSpace(front) && Stripped(core)
    ensures Strip(front + core) == core
  {
    StripUnique(front, core, []);
    assert front + core + [] == front + core;
  }

  /** The summary line is cut out of a lookup result. */
  lemma SummaryLineIsExtracted(raw: string)
    requires raw == "...\nSummary: Short bio.\nMore text"
    ensures CleanWikiText(raw) == "Short bio."
  {
    ShortBioRaw(raw);
    ShortBioLine();
    ShortBioStripped();
    NoMarkerInDots(raw);
    CleanTakesSummaryLine("...", " Short bio.", "\nMore text");
    StripLeadingSpace(" ", "Short bio.");
  }
}
