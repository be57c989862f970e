/** Resuming a turn after the user approved the pending tool call. */
module ApprovalResume {
  import opened Wrappers
  import opened Transcript
  import opened ToolBatch

  /** A deferred call is asked about on its original arguments; it never meets the BeforeToolCall hook. */
  predicate Asks(env: Env, k: nat, call: ToolCall) {
    && env.tool(k).Some? && !env.autoApproveTools
    && NeedsApproval(env.tool(k).value, call.arguments, env.autoApproved(k))
  }

  /** How many deferred calls come before the first that needs its own approval. */
  function FirstStop(env: Env, deferred: seq<ToolCall>): (n: nat)
    ensures n <= |deferred| && (n < |deferred| ==> Asks(env, n, deferred[n]))
    ensures forall k :: 0 <= k < n ==> !Asks(env, k, deferred[k])
  {
    if deferred == [] then 0 else
      var last := |deferred| - 1;
      var n := FirstStop(env, deferred[..last]);
      if n < last || Asks(env, last, deferred[last]) then n else last + 1
  }

  method DeferredPreflight(env: Env, deferred: seq<ToolCall>) returns (runnable: seq<ToolCall>, cut: Option<Cut>)
    ensures runnable == deferred[..FirstStop(env, deferred)]
    ensures cut.None? <==> FirstStop(env, deferred) == |deferred|
    ensures cut.Some? ==>
      && cut.value.index == |runnable| && cut.value.call == deferred[|runnable|]
      && (cut.value.allowAlways <==> !env.tool(|runnable|).value.requirement(cut.value.call.arguments).Always?)
  {
    runnable, cut := [], None;
    for idx := 0 to |deferred|
      invariant runnable == deferred[..idx]
      invariant forall k :: 0 <= k < idx ==> !Asks(env, k, deferred[k])
    {
      var tc := deferred[idx];
      if Asks(env, idx, tc) {
        var allowAlways := !env.tool(idx).value.requirement(tc.arguments).Always?;
        return runnable, Some(Cut(idx, tc, allowAlways));
      }
      runnable := runnable + [tc];
    }
  }

  function AsSlots(calls: seq<ToolCall>): seq<Slot> {
    seq(|calls|, k requires 0 <= k < |calls| => Slot(calls[k], None))
  }

  lemma {:induction false} AllSlotsRunnable(calls: seq<ToolCall>)
    ensures RunnableSlots(AsSlots(calls)) == seq(|calls|, k requires 0 <= k < |calls| => (k, calls[k]))
  {
    if calls == [] {
    } else {
      var rest := calls[..|calls| - 1];
      assert AsSlots(calls)[..|calls| - 1] == AsSlots(rest);
      AllSlotsRunnable(rest);
    }
  }

  /** The deferred calls before the next stop, run one by one on their original arguments. */
  function Replayed(env: Env, deferred: seq<ToolCall>): Sequential {
    var n := FirstStop(env, deferred);
    OneByOne(env, n > 1, AsSlots(deferred[..n]))
  }

  /** The saved approval `p` stops at the first deferred call that asks, with all before it answered. */
  ghost predicate StopsAt(env: Env, deferred: seq<ToolCall>, context: seq<Message>, p: PendingApproval) {
    var n := FirstStop(env, deferred);
    && n < |deferred| && PendingCall(p) == deferred[n] && p.deferred == deferred[n + 1..]
    && p.context == context && AwaitingApproval(p)
  }

  lemma ReplayDischarges(env: Env, context: seq<Message>, deferred: seq<ToolCall>)
    requires Outstanding(context) == Some(Ids(deferred))
    ensures |Replayed(env, deferred).messages| == FirstStop(env, deferred)
    ensures Outstanding(context + Replayed(env, deferred).messages) == Some(Ids(deferred[FirstStop(env, deferred)..]))
  {
    var n := FirstStop(env, deferred);
    OneByOneAnswersEverySlot(env, n > 1, AsSlots(deferred[..n]));
    HandledSlotsDischarge(env, n > 1, context, deferred, AsSlots(deferred[..n]));
  }

  /** Replays the deferred calls of an approved message, in parallel; the result is that of replaying them in turn. */
  method ReplayDeferred(env: Env, context: seq<Message>, deferred: seq<ToolCall>)
    returns (after: seq<Message>, outcome: BatchOutcome)
    requires Outstanding(context) == Some(Ids(deferred))
    ensures after == context + Replayed(env, deferred).messages
    ensures outcome.Respond? <==> Replayed(env, deferred).auth.Some?
    ensures outcome.Respond? ==> outcome.text == Replayed(env, deferred).auth.value
    ensures Outstanding(after) == Some(Ids(deferred[FirstStop(env, deferred)..]))
    ensures outcome.Continue? ==> FirstStop(env, deferred) == |deferred|
    ensures outcome.NeedApproval? ==> StopsAt(env, deferred, after, outcome.pending)
  {
    var runnable, cut := DeferredPreflight(env, deferred);
    AllSlotsRunnable(runnable);
    var slots := AsSlots(runnable);
    var results := Execute(env, slots, seq(|runnable|, k requires 0 <= k < |runnable| => (k, runnable[k])));
    var auth;
    after, auth := Postflight(env, Spawns(slots), context, slots, results);
    ReplayDischarges(env, context, deferred);
    outcome := Conclude(auth, cut, deferred, after);
    if cut.Some? { IdsFrom(deferred, |runnable|); }
  }

  /** Deferred calls ask as preflight does on calls that no hook touches and no relay forbids. */
  lemma AsksAsPreflight(env: Env, k: nat, call: ToolCall)
    requires env.hook(k).Keep? && !env.sharedRelay
    ensures Asks(env, k, call) <==> Judge(env, k, call) == Ask(call, env.tool(k).Some? && env.tool(k).value.requirement(call.arguments) != Always)
    ensures Asks(env, k, call) <==> MustAsk(env, k, call.arguments)
  {
  }

  /** What the replay tells the model of deferred call k. */
  lemma ReplayedAt(env: Env, deferred: seq<ToolCall>, k: nat)
    requires k < FirstStop(env, deferred)
    ensures var n, call := FirstStop(env, deferred), deferred[k];
      && |Replayed(env, deferred).messages| == n
      && Replayed(env, deferred).messages[k] ==
         ToolResult(call.id, call.name, env.wrap(call.name, if n > 1 && env.lost(k) then Err(TaskFailed) else env.run(k, call)))
  {
    var n := FirstStop(env, deferred);
    OneByOneAnswersEverySlot(env, n > 1, AsSlots(deferred[..n]));
  }

  // ---- the hook and deferred calls ----

  /** The hook lets the call through as it is. */
  predicate HookAgrees(env: Env, k: nat, call: ToolCall) {
    && !env.hook(k).Deny? && !env.hook(k).Fail?
    && HookedArguments(env.hook(k), call.arguments, SensitiveKeys(env.tool(k))) == call.arguments
  }

  /**
   * A deferred call is treated as preflight would have treated it exactly when the hook lets it
   * through as it is and, for a call that asks, the channel is one where asking is possible.
   */
  lemma DeferredAsJudgedIff(env: Env, k: nat, call: ToolCall)
    ensures !Asks(env, k, call) ==> (Judge(env, k, call) == Run(call) <==> HookAgrees(env, k, call))
    ensures Asks(env, k, call) ==>
      (Judge(env, k, call).Ask? && Judge(env, k, call).call == call <==> HookAgrees(env, k, call) && !env.sharedRelay)
  {
  }

  /** Whatever the hooks say, replaying deferred calls gives the same messages. */
  lemma ReplayIgnoresHooks(env: Env, hook: nat -> HookVerdict, deferred: seq<ToolCall>)
    ensures Replayed(env.(hook := hook), deferred) == Replayed(env, deferred)
  {
    var n := FirstStop(env, deferred);
    StopIgnoresHooks(env, hook, deferred);
    OneByOneIgnoresHooks(env, hook, n > 1, AsSlots(deferred[..n]));
  }

  lemma {:induction false} StopIgnoresHooks(env: Env, hook: nat -> HookVerdict, deferred: seq<ToolCall>)
    ensures FirstStop(env.(hook := hook), deferred) == FirstStop(env, deferred)
  {
    if deferred == [] {
    } else {
      StopIgnoresHooks(env, hook, deferred[..|deferred| - 1]);
    }
  }

  lemma {:induction false} OneByOneIgnoresHooks(env: Env, hook: nat -> HookVerdict, spawned: bool, slots: seq<Slot>)
    ensures OneByOne(env.(hook := hook), spawned, slots) == OneByOne(env, spawned, slots)
  {
    if slots == [] {
    } else {
      OneByOneIgnoresHooks(env, hook, spawned, slots[..|slots| - 1]);
    }
  }

  /** A call that the hook denies is rejected in its own batch, and runs once it was deferred. */
  lemma DeniedCallRunsOnceDeferred(env: Env, deferred: seq<ToolCall>, k: nat)
    requires k < FirstStop(env, deferred) && env.hook(k).Deny?
    ensures Judge(env, k, deferred[k]) == Reject(deferred[k], RejectedByHook(env.hook(k).reason))
    ensures var n := FirstStop(env, deferred);
      |Replayed(env, deferred).messages| == n && Replayed(env, deferred).messages[k] ==
        ResultMessage(env, deferred[k], OwnResult(env, n > 1, k, deferred[k]))
  {
    var n := FirstStop(env, deferred);
    OneByOneAnswersEverySlot(env, n > 1, AsSlots(deferred[..n]));
  }

  // ---- the approved branch ----

  /**
   * The approved branch of `process_approval`: run the pending call, then replay the deferred
   * calls, which may stop at a call that needs an approval of its own. The context either waits
   * again, for strictly fewer calls of the same message, or is well formed and ready for the
   * next model call.
   */
  method ResumeApproved(env: Env, pending: PendingApproval, result: ExecResult)
    returns (context: seq<Message>, outcome: BatchOutcome)
    requires AwaitingApproval(pending)
    ensures IsResumed(env, pending, result, context, outcome)
    ensures outcome.Continue? ==> WellFormed(context) && |context| == |pending.context| + 1 + |pending.deferred|
    ensures outcome.NeedApproval? ==>
      AwaitingApproval(outcome.pending) && |outcome.pending.deferred| < |pending.deferred|
  {
    var call := PendingCall(pending);
    context := pending.context;
    var auth := AuthRequired(env, call, result);
    if auth.Some? { return context, Respond(auth.value); }
    context := context + [ResultMessage(env, call, result)];
    AppendResults(pending.context, [ResultMessage(env, call, result)], [call.id], Ids(pending.deferred));
    ReplayDischarges(env, context, pending.deferred);
    context, outcome := ReplayDeferred(env, context, pending.deferred);
    WellFormedIffNothingOutstanding(context);
  }

  /** What an approval must lead to, by the pending call's result and the replay of the deferred calls. */
  ghost predicate IsResumed(env: Env, pending: PendingApproval, result: ExecResult,
                            context: seq<Message>, outcome: BatchOutcome)
  {
    var name, replayed := pending.toolName, Replayed(env, pending.deferred);
    var auth := AuthRequired(env, ToolCall(pending.callId, name, pending.parameters), result);
    if auth.Some? then outcome == Respond(auth.value) && context == pending.context
    else
      && context == pending.context + [ToolResult(pending.callId, name, env.wrap(name, result))] + replayed.messages
      && match outcome
         case Respond(text) => replayed.auth == Some(text)
         case NeedApproval(p) => replayed.auth.None? && StopsAt(env, pending.deferred, context, p)
         case Continue => replayed.auth.None? && FirstStop(env, pending.deferred) == |pending.deferred|
  }

  function PendingCall(p: PendingApproval): ToolCall {
    ToolCall(p.callId, p.toolName, p.parameters)
  }
}
