/**
 * The graph: START goes to the node the router names, each handler node goes
 * to END. One invocation routes once, runs one handler and appends what it
 * returns to the conversation.
 */
module Graph {
  import opened Wrappers
  import opened Messages
  import opened Configuration
  import opened Routing
  import opened Handlers

  datatype Node = Start | ChatbotNode | WikiNode | End

  /** The path map of the conditional edge out of START. */
  function NodeFor(route: Route): (r: Node)
    ensures r == ChatbotNode || r == WikiNode
    ensures r == WikiNode <==> route == Wiki
  {
    match route
    case Chatbot => ChatbotNode
    case Wiki => WikiNode
  }

  /** The graph's edges: the conditional edge out of START, and the fixed
      edges from both handlers to END. */
  function Next(n: Node, messages: seq<Message>): (r: Node)
    requires n != End
    ensures n == Start ==> r == ChatbotNode || r == WikiNode
    ensures n != Start ==> r == End
  {
    match n
    case Start => NodeFor(RouteUserInput(messages))
    case _ => End
  }

  /** Every run is START, one handler, END: exactly one handler runs and the
      run then stops, whatever that handler appended. */
  lemma OneHandlerPerRun(messages: seq<Message>, afterHandler: seq<Message>)
    ensures Next(Start, messages) != End && Next(Start, messages) != Start
    ensures Next(Next(Start, messages), afterHandler) == End
    ensures Next(Start, messages) == WikiNode <==> RouteUserInput(messages) == Wiki
  {
  }

  /** The messages one invocation adds to `messages`, or the error that ends
      it: the output of the handler the router selects. The knowledge
      handler never fails. */
  function Step(messages: seq<Message>, cfg: Configurable, envKey: Option<string>,
                llm: LlmRequest -> LlmReply, lookup: string -> LookupResult): (r: Result<seq<Message>, AgentError>)
    ensures Next(Start, messages) == WikiNode ==> r == Ok(WikiSearchAgent(messages, lookup))
    ensures Next(Start, messages) == ChatbotNode ==> r == ChatbotAgent(messages, cfg, envKey, llm)
  {
    match Next(Start, messages)
    case WikiNode => Ok(WikiSearchAgent(messages, lookup))
    case _ => ChatbotAgent(messages, cfg, envKey, llm)
  }

  /** An invocation adds at most one message, always an AI message, and adds
      one exactly when the conversation is empty or its last message is from
      the user. Only the healthcare handler can fail, and only on a user
      message. */
  lemma StepOutputShape(messages: seq<Message>, cfg: Configurable, envKey: Option<string>,
                        llm: LlmRequest -> LlmReply, lookup: string -> LookupResult)
    ensures var r := Step(messages, cfg, envKey, llm, lookup);
      (r.Ok? ==> |r.value| <= 1 && forall m :: m in r.value ==> m.role == AI)
      && (r.Ok? ==> (|r.value| == 1 <==> messages == [] || Last(messages).role == Human))
      && (r.Err? ==> RouteUserInput(messages) == Chatbot && messages != [] && Last(messages).role == Human)
  {
    if RouteUserInput(messages) == Wiki {
      WikiOutputShape(messages, lookup);
    } else {
      ChatbotOutputShape(messages, cfg, envKey, llm);
    }
  }

  lemma WikiOutputShape(messages: seq<Message>, lookup: string -> LookupResult)
    ensures var r := WikiSearchAgent(messages, lookup);
      |r| <= 1 && (forall m :: m in r ==> m.role == AI)
      && (|r| == 1 <==> messages == [] || Last(messages).role == Human)
  {
    var r := WikiSearchAgent(messages, lookup);
    if messages != [] && Last(messages).role == Human {
      assert |r| == 1 && r[0].role == AI;
    }
  }

  lemma ChatbotOutputShape(messages: seq<Message>, cfg: Configurable, envKey: Option<string>,
                           llm: LlmRequest -> LlmReply)
    ensures var r := ChatbotAgent(messages, cfg, envKey, llm);
      (r.Ok? ==> |r.value| <= 1 && forall m :: m in r.value ==> m.role == AI)
      && (r.Ok? ==> (|r.value| == 1 <==> messages == [] || Last(messages).role == Human))
      && (r.Err? ==> messages != [] && Last(messages).role == Human)
  {
  }

  /** A knowledge question always completes: whatever the lookup does, the
      knowledge handler answers with one message. */
  lemma WikiRouteNeverFails(messages: seq<Message>, cfg: Configurable, envKey: Option<string>,
                            llm: LlmRequest -> LlmReply, lookup: string -> LookupResult)
    requires RouteUserInput(messages) == Wiki
    ensures Step(messages, cfg, envKey, llm, lookup).Ok?
    ensures |Step(messages, cfg, envKey, llm, lookup).value| == 1
  {
  }

  /** The conversation state of one session: the ordered messages, to which
      each invocation appends the selected handler's output. */
  class Conversation {
    var messages: seq<Message>

    constructor (initial: seq<Message>)
      ensures messages == initial
    {
      messages := initial;
    }

    /** One invocation of the compiled graph. On success the handler's
        messages are appended; an error leaves the conversation as it was
        and is returned to the caller. */
    method Invoke(cfg: Configurable, envKey: Option<string>,
                  llm: LlmRequest -> LlmReply, lookup: string -> LookupResult)
      returns (r: Result<seq<Message>, AgentError>)
      modifies this
      ensures r == Step(old(messages), cfg, envKey, llm, lookup)
      ensures r.Ok? ==> messages == old(messages) + r.value
      ensures r.Err? ==> messages == old(messages)
    {
      r := Step(messages, cfg, envKey, llm, lookup);
      if r.Ok? {
        messages := messages + r.value;
      }
    }
  }
}
