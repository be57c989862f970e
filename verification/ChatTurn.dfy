/** A whole chat turn: agentic-loop runs separated by approvals of single tool calls. */
module ChatTurn {
  import opened Wrappers
  import opened Transcript
  import opened ToolBatch
  import opened ChatWorld
  import opened RunTrace
  import opened ChatLoop
  import opened ApprovalResume

  /** What happens to a thread next: the loop runs in some world, or the user answers an approval. */
  datatype Step =
    | RunLoop(world: World)
    | Approve(env: Env, result: ExecResult)
    | Refuse

  datatype ThreadState =
    | Ready(context: seq<Message>)
    | AwaitingUser(pending: PendingApproval)
    | Ended

  ghost predicate Sound(t: ThreadState) {
    match t
    case Ready(context) => WellFormed(context)
    case AwaitingUser(pending) => AwaitingApproval(pending)
    case Ended => true
  }

  /** One agentic-loop run of the turn. */
  datatype LoopRun = LoopRun(result: Result<LoopOutcome, LlmError>, iterations: nat, trace: seq<Event>)

  /**
   * How a step changes the thread. A run starts only on a ready thread and is the chat run of its
   * world; an approval or refusal counts only while one is pending, and stale answers are ignored.
   */
  ghost predicate Moves(t: ThreadState, step: Step, run: Option<LoopRun>, t': ThreadState) {
    match (t, step)
    case (Ready(context), RunLoop(world)) =>
      && run.Some? && IsChatRun(world, context, run.value.result, run.value.iterations, run.value.trace)
      && t' == (if run.value.result.Ok? && run.value.result.value.AwaitApproval?
                then AwaitingUser(run.value.result.value.pending) else Ended)
    case (AwaitingUser(pending), Approve(env, result)) =>
      run.None? && exists context, outcome ::
        IsResumed(env, pending, result, context, outcome) && GoesTo(context, outcome, t')
    case (AwaitingUser(_), Refuse) => run.None? && t' == Ended
    case _ => run.None? && t' == t
  }

  /** A replay that went through leaves the thread ready, a new approval keeps it waiting, a response ends it. */
  ghost predicate GoesTo(context: seq<Message>, outcome: BatchOutcome, t': ThreadState) {
    && (t' == Ready(context) <==> outcome.Continue?)
    && (t'.AwaitingUser? <==> outcome.NeedApproval?) && (t'.AwaitingUser? ==> t'.pending == outcome.pending)
    && (t'.Ended? <==> outcome.Respond?)
  }

  /** An approval leaves the thread ready exactly if no token is asked for and all deferred calls run. */
  lemma ApprovalReadiesIff(pending: PendingApproval, env: Env, result: ExecResult, t': ThreadState)
    requires Moves(AwaitingUser(pending), Approve(env, result), None, t')
    ensures t'.Ready? <==>
      && AuthRequired(env, ToolCall(pending.callId, pending.toolName, pending.parameters), result).None?
      && Replayed(env, pending.deferred).auth.None?
      && forall k :: 0 <= k < |pending.deferred| ==> !Asks(env, k, pending.deferred[k])
  {
  }

  method TakeStep(t: ThreadState, step: Step) returns (t': ThreadState, ghost run: Option<LoopRun>)
    requires Sound(t)
    ensures Sound(t') && Moves(t, step, run, t')
  {
    t', run := t, None;
    match (t, step) {
      case (Ready(context), RunLoop(world)) =>
        var result, iterations, trace := RunChat(world, context);
        run := Some(LoopRun(result, iterations, trace));
        t' := if result.Ok? && result.value.AwaitApproval? then AwaitingUser(result.value.pending) else Ended;
      case (AwaitingUser(pending), Approve(env, result)) =>
        var context, outcome := ResumeApproved(env, pending, result);
        match outcome {
          case Continue => t' := Ready(context);
          case NeedApproval(p) => t' := AwaitingUser(p);
          case Respond(_) => t' := Ended;
        }
      case (AwaitingUser(_), Refuse) =>
        t' := Ended;
      case _ =>
    }
  }

  /**
   * Any sequence of steps, from any well-formed start. However often the turn is suspended and
   * resumed, the thread moves as its steps say and stays sound, so every run starts from a
   * well-formed transcript and keeps the rules.
   */
  method RunTurn(initial: seq<Message>, script: seq<Step>)
    returns (thread: ThreadState, states: seq<ThreadState>, ghost runs: seq<Option<LoopRun>>)
    requires WellFormed(initial)
    ensures Sound(thread)
    ensures |states| == |script| + 1 && |runs| == |script| && states[0] == Ready(initial) && states[|script|] == thread
    ensures forall k :: 0 <= k < |script| ==> Moves(states[k], script[k], runs[k], states[k + 1])
    ensures forall k :: 0 <= k <= |script| ==> Sound(states[k])
  {
    thread, states, runs := Ready(initial), [Ready(initial)], [];
    for k := 0 to |script|
      invariant |states| == k + 1 && |runs| == k && states[0] == Ready(initial) && states[k] == thread
      invariant forall j :: 0 <= j < k ==> Moves(states[j], script[j], runs[j], states[j + 1])
      invariant forall j :: 0 <= j <= k ==> Sound(states[j])
    {
      ghost var run;
      thread, run := TakeStep(thread, script[k]);
      states, runs := states + [thread], runs + [run];
    }
  }
}
