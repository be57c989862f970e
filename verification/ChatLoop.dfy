/**
 * `run_agentic_loop` driven by the chat delegate: signals, the pre-call hook, the model call
 * with its compacted retry, nudges, truncation handling and tool batches.
 */
module ChatLoop {
  import opened Wrappers
  import opened Transcript
  import opened Compaction
  import opened ToolBatch
  import opened ChatWorld
  import opened RunTrace
  import opened RunSteps

  class ReasoningContext {
    var messages: seq<Message>
    var availableTools: seq<string>
    var forceText: bool
    ghost var trace: seq<Event>
    ghost var progress: Progress

    constructor (initial: seq<Message>)
      ensures messages == initial && !forceText && trace == [] && progress == ProgressOf(initial, [])
    {
      messages, availableTools, forceText, trace, progress := initial, [], false, [], ProgressOf(initial, []);
    }

    /** The run so far is legal, and `progress` is what it amounts to. */
    ghost predicate Lawful(world: World, config: LoopConfig, initial: seq<Message>)
      reads this
    {
      Legal(world, config, initial, trace) && progress == ProgressOf(initial, trace)
    }

    /** Appends a message that opens no tool-call group. */
    method Push(m: Message)
      requires WellFormed(messages)
      requires m.System? || m.User? || (m.Assistant? && m.calls == [])
      modifies this`messages
      ensures WellFormed(messages) && messages == old(messages) + [m]
    {
      PushKeepsWellFormed(messages, m);
      messages := messages + [m];
    }

    /** Records an event, which must follow from the run so far. */
    ghost method Log(e: Event, world: World, config: LoopConfig, initial: seq<Message>)
      requires Lawful(world, config, initial) && Follows(world, config, progress, e)
      modifies this`trace, this`progress
      ensures Lawful(world, config, initial)
      ensures progress == Next(old(progress), e)
    {
      trace, progress := LegalNext(world, config, initial, trace, progress, e);
    }
  }

  /** `ChatDelegate::before_llm_call`. Text-only mode is entered at the limit and never left. */
  method BeforeLlmCall(world: World, ctx: ReasoningContext, iteration: nat)
    requires WellFormed(ctx.messages)
    modifies ctx`messages, ctx`availableTools, ctx`forceText
    ensures WellFormed(ctx.messages) && ctx.messages == old(ctx.messages) + Notice(world, iteration)
    ensures ctx.forceText <==> old(ctx.forceText) || iteration >= world.maxToolIterations
    ensures ctx.availableTools == world.toolDefinitions(iteration)
  {
    if iteration == NudgeAt(world) { ctx.Push(System(NEARING_LIMIT)); }
    ctx.availableTools := world.toolDefinitions(iteration);
    ctx.forceText := iteration >= world.maxToolIterations || ctx.forceText;
  }

  /** The request for the current context. */
  function RequestFor(world: World, iteration: nat, messages: seq<Message>, tools: seq<string>, forceText: bool): Event {
    Request(messages, [System(world.systemPrompt(iteration))] + OtherMessages(messages),
            if forceText then [] else tools, forceText)
  }

  /** `Reasoning::respond_with_tools`: tools are offered only outside text-only mode. */
  method RespondWithTools(world: World, ghost config: LoopConfig, ghost initial: seq<Message>,
                          ctx: ReasoningContext, iteration: nat, attempt: nat)
    returns (r: Result<Reply, LlmError>)
    requires ctx.Lawful(world, config, initial) && iteration == ctx.progress.replies + 1 && attempt == ctx.progress.attempt
    requires Follows(world, config, ctx.progress, RequestFor(world, iteration, ctx.messages, ctx.availableTools, ctx.forceText))
    modifies ctx`trace, ctx`progress
    ensures ctx.Lawful(world, config, initial)
    ensures r == Answer(world, !ctx.forceText && ctx.availableTools != [], iteration, attempt)
    ensures var request := RequestFor(world, iteration, ctx.messages, ctx.availableTools, ctx.forceText);
      ctx.progress == Next(Next(old(ctx.progress), request), Replied(r))
  {
    var request := RequestFor(world, iteration, ctx.messages, ctx.availableTools, ctx.forceText);
    if request.tools != [] {
      r := world.completeWithTools(iteration, attempt);
    } else {
      match world.complete(iteration, attempt)
      case Ok(text) => r := Ok(Text(text));
      case Err(e) => r := Err(e);
    }
    ctx.trace, ctx.progress := LegalCall(world, config, initial, ctx.trace, ctx.progress, request, r);
  }

  /** The context is ready for the first request of an iteration, apart from the cost check. */
  ghost predicate Open(world: World, config: LoopConfig, p: Progress, messages: seq<Message>, iteration: nat) {
    && GoesOn(world, config, p) && iteration == p.replies + 1 <= config.maxIterations && p.attempt == 0
    && !world.signal(iteration).Stop?
    && messages == Opening(world, p) && WellFormed(messages)
  }

  /** What the run amounts to after a successful call on the given context. */
  function Answered(p: Progress, messages: seq<Message>, tools: seq<string>, reply: Reply): Progress {
    Next(p.(context := messages, tools := tools), Replied(Ok(reply)))
  }

  function CallResult(world: World, offered: bool, iteration: nat): Result<Reply, LlmError> {
    var first := Answer(world, offered, iteration, 0);
    if !world.costAllowed(iteration) then Err(CostLimit)
    else if first == Err(ContextLengthExceeded) then Answer(world, offered, iteration, 1)
    else first
  }

  /** `ChatDelegate::call_llm`: the cost check, the call, and one retry on a compacted history. */
  method CallLlm(world: World, ghost config: LoopConfig, ghost initial: seq<Message>, ctx: ReasoningContext, iteration: nat)
    returns (r: Result<Reply, LlmError>)
    requires ctx.Lawful(world, config, initial) && Open(world, config, ctx.progress, ctx.messages, iteration)
    requires ctx.forceText == TextOnly(world, ctx.progress) && ctx.availableTools == world.toolDefinitions(iteration)
    modifies ctx`messages, ctx`availableTools, ctx`trace, ctx`progress
    ensures ctx.Lawful(world, config, initial) && WellFormed(ctx.messages)
    ensures r.Err? ==> FailsWith(world, config, ctx.progress, r.error, iteration)
    ensures r.Ok? ==>
      ctx.progress == Answered(old(ctx.progress), ctx.messages, if ctx.forceText then [] else ctx.availableTools, r.value)
    ensures r == CallResult(world, !ctx.forceText && old(ctx.availableTools) != [], iteration)
    ensures !world.costAllowed(iteration) ==> ctx.trace == old(ctx.trace)
  {
    if !world.costAllowed(iteration) { return Err(CostLimit); }
    r := CallModel(world, config, initial, ctx, iteration);
  }

  /** The model call proper: a first try, and a retry if the context was too long. */
  method CallModel(world: World, ghost config: LoopConfig, ghost initial: seq<Message>, ctx: ReasoningContext, iteration: nat)
    returns (r: Result<Reply, LlmError>)
    requires ctx.Lawful(world, config, initial) && Open(world, config, ctx.progress, ctx.messages, iteration)
    requires world.costAllowed(iteration)
    requires ctx.forceText == TextOnly(world, ctx.progress) && ctx.availableTools == world.toolDefinitions(iteration)
    modifies ctx`messages, ctx`availableTools, ctx`trace, ctx`progress
    ensures ctx.Lawful(world, config, initial) && WellFormed(ctx.messages)
    ensures r.Err? ==> LastAnswerFails(ctx.progress, r.error) && ctx.progress.replies + 1 == iteration
    ensures r.Ok? ==>
      ctx.progress == Answered(old(ctx.progress), ctx.messages, if ctx.forceText then [] else ctx.availableTools, r.value)
    ensures r == CallResult(world, !ctx.forceText && old(ctx.availableTools) != [], iteration)
  {
    ghost var p, messages := ctx.progress, ctx.messages;
    ghost var tools := if ctx.forceText then [] else ctx.availableTools;
    r := FirstTry(world, config, initial, ctx, iteration);
    if r.Ok? || !r.error.ContextLengthExceeded? { return; }
    AnsweredAgain(p, messages, tools);
    r := RetryCompacted(world, config, initial, ctx, iteration);
  }

  /** A failed first call leaves no mark on what a later answer amounts to. */
  lemma AnsweredAgain(p: Progress, messages: seq<Message>, tools: seq<string>)
    ensures forall m, t, reply :: Answered(Failed(p, messages, tools), m, t, reply) == Answered(p, m, t, reply)
  {
  }

  /** The first call of an iteration, once the cost check has passed. */
  method FirstTry(world: World, ghost config: LoopConfig, ghost initial: seq<Message>, ctx: ReasoningContext, iteration: nat)
    returns (r: Result<Reply, LlmError>)
    requires ctx.Lawful(world, config, initial) && Open(world, config, ctx.progress, ctx.messages, iteration)
    requires world.costAllowed(iteration)
    requires ctx.forceText == TextOnly(world, ctx.progress) && ctx.availableTools == world.toolDefinitions(iteration)
    modifies ctx`trace, ctx`progress
    ensures ctx.Lawful(world, config, initial)
    ensures r == Answer(world, !ctx.forceText && ctx.availableTools != [], iteration, 0)
    ensures var tools := if ctx.forceText then [] else ctx.availableTools;
      if r.Ok? then ctx.progress == Answered(old(ctx.progress), ctx.messages, tools, r.value)
      else if r.error.ContextLengthExceeded? then ctx.progress == Failed(old(ctx.progress), ctx.messages, tools)
      else LastAnswerFails(ctx.progress, r.error) && ctx.progress.replies + 1 == iteration
  {
    ghost var p, request := ctx.progress, RequestFor(world, iteration, ctx.messages, ctx.availableTools, ctx.forceText);
    OpeningRequest(world, config, p, ctx.messages, iteration);
    r := RespondWithTools(world, config, initial, ctx, iteration, 0);
    if r != Err(ContextLengthExceeded) { AnswerCounts(p, request, r); }
  }

  /** What the run amounts to after a first call that exceeded the context length. */
  function Failed(p: Progress, messages: seq<Message>, tools: seq<string>): Progress {
    p.(context := messages, tools := tools, attempt := 1, last := Some(Replied(Err(ContextLengthExceeded))))
  }

  /** The retry after a context-length error; text-only mode also drops the tools. */
  method RetryCompacted(world: World, ghost config: LoopConfig, ghost initial: seq<Message>, ctx: ReasoningContext,
                        iteration: nat)
    returns (r: Result<Reply, LlmError>)
    requires ctx.Lawful(world, config, initial) && WellFormed(ctx.messages) && ctx.messages == ctx.progress.context
    requires ctx.progress.last == Some(Replied(Err(ContextLengthExceeded))) && ctx.progress.attempt == 1
    requires iteration == ctx.progress.replies + 1
    requires ctx.forceText == TextOnly(world, ctx.progress) && ctx.availableTools == world.toolDefinitions(iteration)
    modifies ctx`messages, ctx`availableTools, ctx`trace, ctx`progress
    ensures ctx.Lawful(world, config, initial) && WellFormed(ctx.messages)
    ensures r == Answer(world, !ctx.forceText && old(ctx.availableTools) != [], iteration, 1)
    ensures r.Err? ==> LastAnswerFails(ctx.progress, r.error) && ctx.progress.replies + 1 == iteration
    ensures r.Ok? ==>
      ctx.progress == Answered(old(ctx.progress), ctx.messages, if ctx.forceText then [] else ctx.availableTools, r.value)
  {
    ghost var p := ctx.progress;
    var compacted := CompactMessagesForRetry(ctx.messages);
    ctx.messages := compacted;
    if ctx.forceText { ctx.availableTools := []; }
    ghost var request := RequestFor(world, iteration, ctx.messages, ctx.availableTools, ctx.forceText);
    RetryRequest(world, config, p, ctx.messages, ctx.availableTools, ctx.forceText);
    r := RespondWithTools(world, config, initial, ctx, iteration, 1);
    AnswerCounts(p, request, r);
  }

  lemma OpeningRequest(world: World, config: LoopConfig, p: Progress, messages: seq<Message>, iteration: nat)
    requires Open(world, config, p, messages, iteration) && world.costAllowed(iteration)
    ensures Follows(world, config, p,
                    RequestFor(world, iteration, messages, world.toolDefinitions(iteration), TextOnly(world, p)))
  {
  }

  lemma RetryRequest(world: World, config: LoopConfig, p: Progress, messages: seq<Message>, tools: seq<string>, forceText: bool)
    requires p.last == Some(Replied(Err(ContextLengthExceeded))) && p.attempt == 1
    requires IsCompaction(p.context, messages) && WellFormed(messages) && forceText == TextOnly(world, p)
    requires forceText || tools == world.toolDefinitions(p.replies + 1)
    ensures Follows(world, config, p, RequestFor(world, p.replies + 1, messages, tools, forceText))
  {
  }

  lemma AnswerCounts(p: Progress, request: Event, r: Result<Reply, LlmError>)
    requires request.Request? && (r == Err(ContextLengthExceeded) ==> p.attempt == 1)
    ensures var q := Next(Next(p, request), Replied(r));
      && (r.Err? ==> LastAnswerFails(q, r.error) && q.replies == p.replies)
      && (r.Ok? ==> q == Answered(p, request.context, request.tools, r.value))
  {
  }

  /** The most iterations a chat run can take. */
  function IterationBound(world: World): nat {
    if world.maxToolIterations == 0 then 1 else world.maxToolIterations
  }

  /** A text reply: one more nudge, or the final answer. */
  method HandleText(world: World, config: LoopConfig, ctx: ReasoningContext, text: string, nudges: nat)
    returns (nudges': nat, outcome: Option<LoopOutcome>)
    requires WellFormed(ctx.messages) && ctx.messages == ctx.progress.context
    requires ctx.progress.last == Some(Replied(Ok(Text(text)))) && ctx.progress.texts == nudges + 1
    requires ctx.progress.tools == if ctx.forceText then [] else ctx.availableTools
    modifies ctx`messages
    ensures WellFormed(ctx.messages)
    ensures outcome.None? <==> GoesOn(world, config, ctx.progress)
    ensures outcome.None? ==> ctx.messages == Reacted(world, ctx.progress) && nudges' == ctx.progress.texts
    ensures outcome.Some? ==> outcome.value == Response(world.stripToolCallText(text)) && ctx.messages == old(ctx.messages)
  {
    nudges' := nudges;
    if config.enableNudge && ctx.availableTools != [] && !ctx.forceText && nudges < config.maxNudges
       && world.signalsToolIntent(text)
    {
      ctx.Push(Assistant(text, []));
      ctx.Push(User(TOOL_INTENT_NUDGE));
      return nudges + 1, None;
    }
    if !world.signalsToolIntent(text) { nudges' := 0; }
    return nudges', Some(Response(world.stripToolCallText(text)));
  }

  /** Truncated calls are dropped with a notice; the third such reply forces text-only mode. */
  method DiscardTruncated(ghost world: World, ctx: ReasoningContext, ghost calls: seq<ToolCall>,
                          content: Option<string>, truncations: nat)
    returns (truncations': nat)
    requires WellFormed(ctx.messages) && ctx.messages == ctx.progress.context
    requires ctx.progress.last == Some(Replied(Ok(Calls(calls, content, true))))
    requires ctx.progress.truncations == truncations + 1
    requires ctx.progress.escalated <==> ctx.forceText || truncations + 1 >= 3
    modifies ctx`messages, ctx`forceText
    ensures WellFormed(ctx.messages) && ctx.messages == Reacted(world, ctx.progress)
    ensures truncations' == ctx.progress.truncations && ctx.forceText == ctx.progress.escalated
  {
    truncations' := truncations + 1;
    if content.Some? { ctx.Push(Assistant(content.value, [])); }
    ctx.Push(User(TRUNCATED_NOTICE));
    if truncations' >= 3 { ctx.forceText := true; }
  }

  /** A complete batch is executed as it came. */
  method RunBatch(world: World, ghost config: LoopConfig, ghost initial: seq<Message>, ctx: ReasoningContext,
                  iteration: nat, calls: seq<ToolCall>, content: Option<string>)
    returns (outcome: Option<LoopOutcome>)
    requires ctx.Lawful(world, config, initial) && WellFormed(ctx.messages) && ctx.messages == ctx.progress.context
    requires ctx.progress.last == Some(Replied(Ok(Calls(calls, content, false)))) && iteration == ctx.progress.replies
    modifies ctx`messages, ctx`trace, ctx`progress
    ensures ctx.Lawful(world, config, initial)
    ensures ctx.progress == old(ctx.progress).(last := Some(Executed(calls, content)))
    ensures ctx.messages == Reacted(world, ctx.progress)
    ensures outcome.None? <==> GoesOn(world, config, ctx.progress)
    ensures outcome.None? ==> WellFormed(ctx.messages)
    ensures outcome.Some? ==> Finished(world, config, ctx.progress, Ok(outcome.value), iteration)
  {
    ctx.Log(Executed(calls, content), world, config, initial);
    var after, batch := ExecuteToolCalls(world.batch(iteration), ctx.messages, calls, content);
    ctx.messages := after;
    outcome := match batch
      case Respond(text) => Some(Response(text))
      case NeedApproval(pending) => Some(AwaitApproval(pending))
      case Continue => None;
  }

  /** The loop between two iterations: it goes on, and its variables are what the run amounts to. */
  ghost predicate Between(world: World, config: LoopConfig, p: Progress, messages: seq<Message>, forceText: bool,
                          nudges: nat, truncations: nat, iterations: nat)
  {
    && GoesOn(world, config, p) && messages == Reacted(world, p) && WellFormed(messages)
    && nudges == p.texts && truncations == p.truncations && forceText == p.escalated
    && iterations == p.replies && p.attempt == 0
  }

  /** One iteration after the signal check: the outcome, if it is the last. */
  method Iterate(world: World, config: LoopConfig, ghost initial: seq<Message>, ctx: ReasoningContext,
                 iteration: nat, nudges: nat, truncations: nat)
    returns (result: Option<Result<LoopOutcome, LlmError>>, nudges': nat, truncations': nat)
    requires ctx.Lawful(world, config, initial) && 0 < iteration <= config.maxIterations && !world.signal(iteration).Stop?
    requires Between(world, config, ctx.progress, Reacted(world, ctx.progress), ctx.forceText, nudges, truncations, iteration - 1)
    requires WellFormed(ctx.messages) && ctx.messages == Reacted(world, ctx.progress) + Injected(world, iteration)
    modifies ctx
    ensures ctx.Lawful(world, config, initial)
    ensures result.Some? ==>
      result.value != Ok(MaxIterations) && Finished(world, config, ctx.progress, result.value, iteration)
    ensures result.None? ==>
      && iteration < world.maxToolIterations
      && Between(world, config, ctx.progress, ctx.messages, ctx.forceText, nudges', truncations', iteration)
  {
    nudges', truncations' := nudges, truncations;
    BeforeLlmCall(world, ctx, iteration);
    var reply := CallLlm(world, config, initial, ctx, iteration);
    if reply.Err? { return Some(Err(reply.error)), nudges', truncations'; }
    var outcome: Option<LoopOutcome> := None;
    match reply.value {
      case Text(text) =>
        nudges', outcome := HandleText(world, config, ctx, text, nudges);
      case Calls(calls, content, truncated) =>
        if truncated {
          truncations' := DiscardTruncated(world, ctx, calls, content, truncations);
        } else {
          nudges', truncations' := 0, 0;
          outcome := RunBatch(world, config, initial, ctx, iteration, calls, content);
        }
    }
    result := if outcome.Some? then Some(Ok(outcome.value)) else None;
  }

  /**
   * `run_agentic_loop` with the chat delegate. The run is legal from first to last event, keeps
   * all rules, ends as its last event calls for, and takes no more iterations than the limit.
   */
  method RunAgenticLoop(world: World, config: LoopConfig, ctx: ReasoningContext)
    returns (result: Result<LoopOutcome, LlmError>, iterations: nat)
    requires WellFormed(ctx.messages) && !ctx.forceText && ctx.trace == [] && ctx.progress == ProgressOf(ctx.messages, [])
    modifies ctx
    ensures ctx.Lawful(world, config, old(ctx.messages))
    ensures KeepsRules(world, config, old(ctx.messages), ctx.trace)
    ensures StepsInOrder(world, config, old(ctx.messages), ctx.trace, result)
    ensures Finished(world, config, ctx.progress, result, iterations)
    ensures iterations <= IterationBound(world) && iterations <= config.maxIterations
    ensures result == Ok(MaxIterations) ==> config.maxIterations < IterationBound(world)
  {
    ghost var initial := ctx.messages;
    var nudges, truncations := 0, 0;
    iterations := 0;
    result := Ok(MaxIterations);
    while iterations < config.maxIterations
      invariant iterations <= config.maxIterations && ctx.Lawful(world, config, initial)
      invariant result == Ok(MaxIterations)
      invariant iterations < IterationBound(world)
      invariant Between(world, config, ctx.progress, ctx.messages, ctx.forceText, nudges, truncations, iterations)
      decreases config.maxIterations - iterations
    {
      iterations := iterations + 1;
      var last: Option<Result<LoopOutcome, LlmError>> := None;
      match world.signal(iterations) {
        case Proceed =>
        case Stop => last := Some(Ok(Stopped));
        case InjectMessage(text) => ctx.Push(User(text));
      }
      if last.None? {
        last, nudges, truncations := Iterate(world, config, initial, ctx, iterations, nudges, truncations);
      }
      if last.Some? {
        result := last.value;
        break;
      }
    }
    LegalRunsKeepRules(world, config, initial, ctx.trace, result, iterations);
    LegalRunsGoInOrder(world, config, initial, ctx.trace, result, iterations);
  }

  function ChatConfig(world: World): LoopConfig {
    LoopConfig(world.maxToolIterations + 1, true, 2)
  }

  /** A finished chat run from the given transcript. */
  ghost predicate IsChatRun(world: World, initial: seq<Message>, result: Result<LoopOutcome, LlmError>,
                            iterations: nat, trace: seq<Event>)
  {
    && Legal(world, ChatConfig(world), initial, trace) && KeepsRules(world, ChatConfig(world), initial, trace)
    && StepsInOrder(world, ChatConfig(world), initial, trace, result)
    && Finished(world, ChatConfig(world), ProgressOf(initial, trace), result, iterations)
    && iterations <= IterationBound(world) && result != Ok(MaxIterations)
  }

  /** The chat entry point: a fresh context and the chat limits. It never ends in MaxIterations. */
  method RunChat(world: World, initial: seq<Message>)
    returns (result: Result<LoopOutcome, LlmError>, iterations: nat, ghost trace: seq<Event>)
    requires WellFormed(initial)
    ensures IsChatRun(world, initial, result, iterations, trace)
    ensures result.Ok? && result.value.AwaitApproval? ==> AwaitingApproval(result.value.pending)
  {
    var ctx := new ReasoningContext(initial);
    result, iterations := RunAgenticLoop(world, ChatConfig(world), ctx);
    trace := ctx.trace;
  }
}
