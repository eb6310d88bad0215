# Healthcare JARVIS agent: router and handlers

This project models the decision logic of the "Healthcare JARVIS Agent", a
single-turn conversational graph. One invocation takes the conversation so
far, lets `route_user_input` choose one of two nodes, runs that node and
appends what it returns to the conversation:

- `chatbot_agent` answers health and nutrition questions through a
  language-model service, behind a fixed persona prompt. Its configuration
  (API key, model name) is resolved by `setup_llm`.
- `wiki_search_agent` answers general questions through a Wikipedia lookup.
  It cuts the "Summary:" line out of the lookup's text, truncates it to 1000
  characters, and wraps it in a reply template. A failed lookup becomes an
  apology message.

Both handlers answer an empty conversation with a fixed message: the
healthcare handler with a greeting, the knowledge handler with "I need a
query to search Wikipedia.". Through the graph only the greeting can be
reached, because the router sends an empty conversation to the healthcare
handler. Both handlers return nothing when the last message is not from the
user. `extract_text_content`
flattens a message's content into one trimmed string.

Modules, leaf first:

- `Wrappers` (wrappers.dfy): `Option` and `Result`.
- `PyStrings` (pystrings.dfy): the Python `str` operations the code relies
  on:
  - `strip()`, characterised completely by its lemmas.
  - `lower()`, whose exact mapping is its body (see the `PyStrings.Lower`
    line under Left out).
  - the `in` operator.
  - `split(sep)`, Python's left-to-right split. Its lemmas fix its pieces
    only for a separator that cannot overlap itself, which holds for the two
    separators the code uses, `"\n"` and `"\nSummary:"`.

  `Find` and `Join` are the model's own helpers. `Find` is the
  first-occurrence search behind `in` and `split`. `Join` states what the
  pieces of a split and the accumulator of `extract_text_content`'s loop
  hold.
- `Messages` (messages.dfy): message roles and content shapes, and
  `extract_text_content`. The content shapes are a string, a list of
  fragments, or anything else. The loop is an imperative method, proved
  against a specification function.
- `Routing` (routing.dfy): `route_user_input`.
- `Configuration` (configuration.dfy): `setup_llm`'s resolution of key and
  model name.
- `Handlers` (handlers.dfy): `chatbot_agent`, `wiki_search_agent`, the
  summary cleaning, the truncation and the reply templates.
- `Graph` (graph.dfy): the graph's edges, one invocation as a function
  `Step`, and a `Conversation` class whose `Invoke` appends the handler's
  output to its message list.
- `Scenarios` (scenarios.dfy): the router's and handlers' behaviour on
  concrete conversations.

Both external services are parameters:

- The language-model call is a function from `LlmRequest` (client settings
  plus the rendered chat prompt) to `LlmReply` (a reply text or a failed
  call).
- The Wikipedia lookup is a function from the query to `LookupResult` (a
  text or a failure).
- The `GROQ_API_KEY` environment variable is an `Option<string>` argument.

Because the services are parameters, the contracts can state which request
or query is sent. The lemmas that hold for every service function show where
no service is called.

## Model

| member | source | states |
|---|---|---|
| PyStrings.Strip | src/agent/graph.py:54 | `str.strip()`: the result neither starts nor ends with whitespace and is no longer than the input |
| PyStrings.StripUnique | src/agent/graph.py:54 | stripping a text surrounded by whitespace gives exactly that text: strip removes the surrounding whitespace and nothing else |
| PyStrings.StripIdempotent | src/agent/graph.py:54 | stripping twice is stripping once |
| PyStrings.StripIgnoresTrailingSpace | src/agent/graph.py:49-52 | appending whitespace before stripping does not change the result |
| PyStrings.Contains | src/agent/graph.py:82 | the `in` operator holds exactly when the key occurs at some index |
| PyStrings.Find | src/agent/graph.py:125-126 | the index found is an occurrence, and no occurrence comes before it; with no index, there is no occurrence |
| PyStrings.Split | src/agent/graph.py:126 | `split(sep)` gives at least one piece, and at least two exactly when `sep` occurs |
| PyStrings.JoinSplit | src/agent/graph.py:126 | joining the pieces of a split with the separator gives back the original text |
| PyStrings.SplitPiecesFree | src/agent/graph.py:126 | no piece of a split contains the separator |
| PyStrings.LowerAppend | src/agent/graph.py:79 | lower-casing distributes over concatenation |
| PyStrings.Lower | src/agent/graph.py:79 | `str.lower()` character by character: the result is at least as long as the input and holds no upper-case ASCII letter; its exact mapping is its body (see the `PyStrings.Lower` line under Left out) |
| Messages.ExtractText | src/agent/graph.py:43-56 | the extracted text never starts or ends with whitespace |
| Messages.FragmentText | src/agent/graph.py:48-51 | the text a list item contributes: a dict's "text" entry, a string item itself, nothing otherwise; its meaning is its body |
| Messages.Accumulated | src/agent/graph.py:46-51 | the loop's accumulator: empty exactly when no item contributes text, and otherwise ending in a space |
| Messages.KeptTexts | src/agent/graph.py:47-51 | the contributed texts in order: never more than the items, and as many exactly when every item contributes |
| Messages.ExtractTextContent | src/agent/graph.py:43-56 | the loop that appends each kept fragment and a space, then strips, computes `ExtractText` |
| Messages.ExtractString | src/agent/graph.py:53-54 | string content yields the string stripped; it is returned unchanged exactly when it is already stripped |
| Messages.ExtractOther | src/agent/graph.py:55-56 | content that is neither a string nor a list yields "" |
| Messages.ExtractIdempotent | src/agent/graph.py:53-56 | extracting from an extracted text gives the same text |
| Messages.AccumulatedIsJoin | src/agent/graph.py:46-51 | the loop's accumulator is the kept texts joined by single spaces, plus one trailing space, or "" when nothing is kept |
| Messages.ExtractListIsSpaceJoin | src/agent/graph.py:45-52 | list content yields the kept fragment texts joined by single spaces, stripped |
| Messages.ExtractSkipsFragment | src/agent/graph.py:47-51 | a fragment that is neither a string nor a dict with "text" is skipped: removing it anywhere does not change the result |
| Routing.AnyKeyword | src/agent/graph.py:82 | `any(k in text for k in keywords)` holds exactly when some keyword occurs in the text |
| Routing.RoutingText | src/agent/graph.py:79 | the text the router inspects: the extracted content, lower-cased; its meaning is its body |
| Routing.RouteUserInput | src/agent/graph.py:72-85 | the route is Wiki exactly when the conversation is non-empty, its last message is human, and its lower-cased extracted text contains one of the five keywords; otherwise it is Chatbot |
| Routing.EmptyRoutesToChatbot | src/agent/graph.py:74-75 | an empty conversation is routed to the healthcare handler |
| Routing.RouteDependsOnlyOnLast | src/agent/graph.py:77 | earlier messages never change the route |
| Routing.NonHumanRoutesToChatbot | src/agent/graph.py:78-85 | a last message that is not human is routed to the healthcare handler whatever it says |
| Routing.RouteIgnoresCase | src/agent/graph.py:79-83 | a human message containing any casing of a keyword is routed to the knowledge handler |
| Configuration.SetupLlm | src/agent/graph.py:58-65 | fails with the ValueError message exactly when neither the configured nor the environment key is non-empty. Otherwise the key is the non-empty configured one, or else the environment's. The model name is the configured one if present, or else "llama3-8b-8192" |
| Configuration.ConfiguredKeyShadowsEnvironment | src/agent/graph.py:61 | with a non-empty configured key the environment does not matter and resolution succeeds |
| Configuration.EmptyKeyFallsBack | src/agent/graph.py:61-64 | an empty configured key behaves as an absent one |
| Handlers.ReplyMessages | src/agent/graph.py:106-108 | a service reply becomes exactly one AI message with its text; a failed call is the service error |
| Handlers.RenderPrompt | src/agent/graph.py:99-102 | the prompt template filled with the user's text: the persona as system turn, the text as human turn; its meaning is its body, and `Handlers.ChatbotAgent` states the turns sent |
| Handlers.ChatbotAgent | src/agent/graph.py:90-110 | empty conversation: the greeting. Last message not human: no messages. Otherwise: the configuration error, or the service's outcome on the resolved settings and the prompt whose system turn is the persona and whose human turn is the extracted user text. Never more than one message, always AI, and it fails only on a human last message |
| Handlers.GreetingNeedsNoService | src/agent/graph.py:92-93 | the greeting is the same whatever the configuration, environment and service |
| Handlers.MissingKeyFailsBeforeCall | src/agent/graph.py:64-65 | with no usable key, the handler fails with the configuration error whatever the service would answer |
| Handlers.CleanWikiText | src/agent/graph.py:125-128 | the cleaned text is stripped; without the "\nSummary:" marker it is the whole result stripped |
| Handlers.CleanTakesSummaryLine | src/agent/graph.py:125-126 | with the marker, the cleaned text is the rest of the line after the first marker, stripped |
| Handlers.SummaryIsOneLine | src/agent/graph.py:126 | with the marker, the cleaned text holds no line break |
| Handlers.Truncate | src/agent/graph.py:130-131 | at most 1003 characters. A text of at most 1000 characters is kept as is. A longer one becomes its first 1000 characters followed by "...", 1003 in all |
| Handlers.WikiSearchAgent | src/agent/graph.py:112-141 | empty conversation: "I need a query to search Wikipedia.". Last message not human: no messages. Otherwise exactly one AI message: the found template around the cleaned, truncated summary, or the apology when the lookup fails |
| Handlers.FoundReply | src/agent/graph.py:133 | the success template; `Handlers.FoundReplyParts` states where the query and summary stand in it |
| Handlers.ApologyReply | src/agent/graph.py:138 | the failure template; `Handlers.ApologyNamesQuery` states that it names the query |
| Handlers.ApologyNamesQuery | src/agent/graph.py:137-139 | the apology contains the query, quoted and as it is |
| Handlers.FoundReplyParts | src/agent/graph.py:133 | the found reply gives back the query and the summary at fixed positions. Its length is the template's plus theirs |
| Handlers.FoundReplyBounded | src/agent/graph.py:130-133 | the found reply is never longer than the template, the quoted query and 1003 characters |
| Graph.Next | src/agent/graph.py:295-306 | START goes to one of the two handler nodes; each handler node goes to END |
| Graph.NodeFor | src/agent/graph.py:298-301 | the path map of START's conditional edge: always a handler node, the Wiki node exactly for the Wiki route |
| Graph.OneHandlerPerRun | src/agent/graph.py:295-306 | a run is START, exactly one handler, END; the Wiki node is chosen exactly when the router says Wiki |
| Graph.Step | src/agent/graph.py:143-145 | one invocation's outcome is that of the handler the router selects |
| Graph.StepOutputShape | src/agent/graph.py:90-141 | an invocation adds at most one message, always AI. It adds one exactly when the conversation is empty or ends with a human message. It fails only through the healthcare handler on a human message |
| Graph.WikiRouteNeverFails | src/agent/graph.py:119-139 | when the router picks the knowledge handler, the invocation succeeds with exactly one message, whatever the lookup does |
| Graph.Conversation.constructor | src/agent/graph.py:23-25 | the conversation starts with the given messages |
| Graph.Conversation.Invoke | src/agent/graph.py:295-306 | on success the selected handler's messages are appended to the conversation; on error it is unchanged |
| Scenarios.HistoryQuestionGoesToLookup | src/agent/graph.py:79-83 | "tell me about the history of penicillin" is routed to the knowledge handler, and the lookup is queried with that text |
| Scenarios.HeadacheQuestionGoesToModel | src/agent/graph.py:96-106 | "I have a headache, what should I do?" is routed to the healthcare handler. The service is sent the persona as system message and that text as human message, and its answer is the outcome |
| Scenarios.EmptyConversationIsGreeted | src/agent/graph.py:92-93 | an empty conversation gets exactly the greeting |
| Scenarios.FailedLookupIsApologised | src/agent/graph.py:137-139 | a failed lookup for "wiki diabetes" is answered with the apology, which contains "wiki diabetes" |
| Scenarios.SummaryLineIsExtracted | src/agent/graph.py:125-126 | "...\nSummary: Short bio.\nMore text" is cleaned to "Short bio." |

## Left out

- The ChatGroq client and the `ChatPromptTemplate | llm` chain invocation (graph.py:67-70, 99-106) are a foreign client. The model sends the rendered prompt (`RenderPrompt`) and the resolved settings to the service, which is a function parameter. A failed call is an error that leaves the handler, as in the code.
- The Wikipedia lookup (`WikipediaQueryRun`, `WikipediaAPIWrapper`, graph.py:120-123) is network I/O, so it is a function parameter. Any exception in that `try` block, including a failure to build the wrapper, is the lookup's `LookupFailed`.
- `load_dotenv()` and `os.getenv("GROQ_API_KEY")` are environment I/O. The variable's value is passed in as an optional string.
- LangGraph's `StateGraph` compilation and the `add_messages` reducer are library code. The reducer merges messages by id; the model appends, which is what happens for the fresh AI messages the handlers create.
- PyStrings.Lower: Unicode case mapping is partial. It maps `A`-`Z`, the Kelvin sign and capital I with dot above, the only characters whose lower-case form holds an ASCII letter. Every other character is kept unchanged. This cannot change whether an ASCII keyword occurs, but lower-cased text with other upper-case letters differs from Python's.
- A dict fragment whose `"text"` value is not a string makes `item["text"] + " "` raise TypeError, in the router too. The model only has string-valued `"text"` entries.
- A `model_name` entry present with the value `None` is passed on as `None`. The model only has a present string or an absent entry.
- The reply object's `content` is taken to be a string; list-shaped model replies are not modelled.
- agent-chat-app/apps/web/src/components/icons/langgraph.tsx is a static SVG icon with no logic. It is not part of this model.
- The persona prompt (graph.py:31-40) is kept verbatim as `Handlers.SystemPrompt`. No property of its wording is proved.
