/**
 * `route_user_input`: the intent router that picks the node the graph runs
 * after START.
 */
module Routing {
  import opened PyStrings
  import opened Messages

  /** The two handler nodes, `"chatbot_agent"` and `"wiki_search_agent"`. */
  datatype Route = Chatbot | Wiki

  /** The keywords that send a message to the knowledge handler. */
  const WikiKeywords: seq<string> := ["history", "wiki", "explain", "information about", "tell me about"]

  /** Python's `any(keyword in text for keyword in keywords)`. */
  function AnyKeyword(text: string, keywords: seq<string>): (r: bool)
    ensures r <==> exists j :: 0 <= j < |keywords| && Contains(text, keywords[j])
  {
    if keywords == [] then false
    else Contains(text, keywords[0]) || AnyKeyword(text, keywords[1..])
  }

  /** The routing text of a message: its extracted text, lower-cased. */
  function RoutingText(m: Message): string {
    Lower(ExtractText(m.content))
  }

  /** `route_user_input`. The route is Wiki exactly when the conversation is
      not empty, its last message is from the user, and the lower-cased text
      of that message contains one of the keywords; in every other case it is
      Chatbot. */
  function RouteUserInput(messages: seq<Message>): (r: Route)
    ensures r == Wiki <==>
      messages != [] && Last(messages).role == Human &&
      exists k :: k in WikiKeywords && Contains(RoutingText(Last(messages)), k)
  {
    if messages == [] then Chatbot
    else
      var last := Last(messages);
      if last.role == Human && AnyKeyword(RoutingText(last), WikiKeywords) then Wiki
      else Chatbot
  }

  /** An empty conversation goes to the healthcare handler. */
  lemma EmptyRoutesToChatbot()
    ensures RouteUserInput([]) == Chatbot
  {
  }

  /** Only the last message matters: earlier turns never change the route. */
  lemma RouteDependsOnlyOnLast(earlier: seq<Message>, other: seq<Message>, m: Message)
    ensures RouteUserInput(earlier + [m]) == RouteUserInput(other + [m])
    ensures RouteUserInput(earlier + [m]) == RouteUserInput([m])
  {
    assert Last(earlier + [m]) == m;
    assert Last(other + [m]) == m;
    assert Last([m]) == m;
  }

  /** A message whose last sender is not the user goes to the healthcare
      handler, whatever it says. */
  lemma NonHumanRoutesToChatbot(messages: seq<Message>)
    requires messages != [] && Last(messages).role != Human
    ensures RouteUserInput(messages) == Chatbot
  {
  }

  lemma {:induction false} ContainsLowered(s: string, key: string)
    requires Contains(s, key)
    ensures Contains(Lower(s), Lower(key))
  {
    var i: nat :| OccursAt(s, key, i);
    var before, after := s[..i], s[i + |key|..];
    assert s == before + key + after;
    LowerAppend(before + key, after);
    LowerAppend(before, key);
    OccursInContext(Lower(before), Lower(key), Lower(after));
  }

  /** Matching ignores case: a user message whose text contains any casing
      of a keyword (for example "Tell Me About") goes to the knowledge
      handler. */
  lemma RouteIgnoresCase(messages: seq<Message>, written: string)
    requires messages != [] && Last(messages).role == Human
    requires Lower(written) in WikiKeywords
    requires Contains(ExtractText(Last(messages).content), written)
    ensures RouteUserInput(messages) == Wiki
  {
    ContainsLowered(ExtractText(Last(messages).content), written);
  }
}
