/**
 * One batch of tool calls: sequential preflight with an approval cut, parallel execution
 * joined in any order, and post-flight in the original order.
 */
module ToolBatch {
  import opened Wrappers
  import opened JsonTree
  import opened Transcript

  /** Why a call has no output of its own; the wording of each is left to `Env.wrap`. */
  datatype Failure =
    | RejectedByHook(reason: string)
    | BlockedByPolicy(error: string)
    | NotInSharedChannels
    | TaskFailed
    | NoResult
    | ToolError(message: string)

  type ExecResult = Result<string, Failure>

  datatype Requirement = Never | UnlessAutoApproved | Always

  datatype Tool = Tool(sensitive: seq<string>, requirement: Json -> Requirement)

  /** What the BeforeToolCall hook said. A modification that is not JSON parses to None. */
  datatype HookVerdict = Deny(reason: string) | Fail(error: string) | Keep | Modify(parsed: Option<Json>)

  /**
   * Everything a batch asks of its surroundings. Answers that belong to one call are given by
   * the call's position, so two calls with the same name may get different answers. `run` is
   * what a tool answers to the call it is given; `lost` names the tasks that panic or are
   * cancelled if they are spawned.
   */
  datatype Env = Env(
    autoApproveTools: bool,
    sharedRelay: bool,
    tool: nat -> Option<Tool>,
    hook: nat -> HookVerdict,
    autoApproved: nat -> bool,
    run: (nat, ToolCall) -> ExecResult,
    lost: nat -> bool,
    parse: string -> Option<Json>,
    wrap: (string, ExecResult) -> string)

  datatype Slot = Slot(call: ToolCall, rejection: Option<Failure>)
  datatype Cut = Cut(index: nat, call: ToolCall, allowAlways: bool)

  datatype PendingApproval = PendingApproval(
    toolName: string,
    parameters: Json,
    callId: string,
    context: seq<Message>,
    deferred: seq<ToolCall>,
    allowAlways: bool)

  datatype BatchOutcome = Continue | Respond(text: string) | NeedApproval(pending: PendingApproval)

  /** A saved approval is waiting for its own result and then for one per deferred call. */
  ghost predicate AwaitingApproval(p: PendingApproval) {
    Outstanding(p.context) == Some([p.callId] + Ids(p.deferred))
  }

  // ---- Phase 1: preflight ----

  function Member(j: Json, key: string): Option<Json> {
    if j.Obj? && key in j.fields then Some(j.fields[key]) else None
  }

  function SensitiveKeys(tool: Option<Tool>): seq<string> {
    if tool.Some? then tool.value.sensitive else []
  }

  /** Puts the original values of sensitive parameters back into arguments rewritten by a hook. */
  method RestoreSensitive(parsed: map<string, Json>, original: Json, keys: seq<string>)
    returns (restored: map<string, Json>)
    ensures restored == Restored(parsed, original, keys)
  {
    restored := parsed;
    for i := 0 to |keys|
      invariant restored == Restored(parsed, original, keys[..i])
    {
      assert keys[..i + 1][..i] == keys[..i];
      var value := Member(original, keys[i]);
      if value.Some? { restored := restored[keys[i] := value.value]; }
    }
    assert keys[..|keys|] == keys;
  }

  function Restored(parsed: map<string, Json>, original: Json, keys: seq<string>): map<string, Json> {
    if keys == [] then parsed else
      var before, value := Restored(parsed, original, keys[..|keys| - 1]), Member(original, keys[|keys| - 1]);
      if value.Some? then before[keys[|keys| - 1] := value.value] else before
  }

  /** A restored key has the original value, any other key the hook's. */
  lemma {:induction false} RestoredAt(parsed: map<string, Json>, original: Json, keys: seq<string>, k: string)
    ensures Member(Obj(Restored(parsed, original, keys)), k) ==
      if k in keys && Member(original, k).Some? then Member(original, k) else Member(Obj(parsed), k)
  {
    if keys == [] {
    } else {
      RestoredAt(parsed, original, keys[..|keys| - 1], k);
    }
  }

  function HookedArguments(verdict: HookVerdict, original: Json, sensitive: seq<string>): Json {
    match verdict
    case Modify(Some(Obj(fields))) => Obj(Restored(fields, original, sensitive))
    case Modify(Some(parsed)) => parsed
    case _ => original
  }

  predicate NeedsApproval(tool: Tool, arguments: Json, autoApproved: bool) {
    match tool.requirement(arguments)
    case Never => false
    case UnlessAutoApproved => !autoApproved
    case Always => true
  }

  datatype Verdict = Reject(call: ToolCall, why: Failure) | Run(call: ToolCall) | Ask(call: ToolCall, allowAlways: bool)

  /**
   * The preflight verdict on one call. It keeps the call's identity; with auto-approval off, a
   * registered tool is run only if it needs no approval on the arguments that will be run, and
   * asked about only if it does.
   */
  function Judge(env: Env, i: nat, original: ToolCall): (v: Verdict)
    ensures v.call.id == original.id && v.call.name == original.name
    ensures v.Run? && !env.autoApproveTools && env.tool(i).Some? ==>
      !NeedsApproval(env.tool(i).value, v.call.arguments, env.autoApproved(i))
    ensures v.Ask? ==>
      && !env.sharedRelay && !env.autoApproveTools && env.tool(i).Some?
      && NeedsApproval(env.tool(i).value, v.call.arguments, env.autoApproved(i))
    ensures env.hook(i).Deny? || env.hook(i).Fail? ==> v.Reject?
  {
    var tool := env.tool(i);
    match env.hook(i)
    case Deny(reason) => Reject(original, RejectedByHook(reason))
    case Fail(error) => Reject(original, BlockedByPolicy(error))
    case verdict =>
      var call := original.(arguments := HookedArguments(verdict, original.arguments, SensitiveKeys(tool)));
      if env.autoApproveTools || tool.None? || !NeedsApproval(tool.value, call.arguments, env.autoApproved(i)) then
        Run(call)
      else if env.sharedRelay then
        Reject(call, NotInSharedChannels)
      else
        Ask(call, !tool.value.requirement(call.arguments).Always?)
  }

  /**
   * A sensitive parameter reaches the tool, or the approval, as the model gave it exactly when the
   * hook did not put something other than an object in place of all arguments.
   */
  lemma SensitiveArgumentSurvivesIff(env: Env, i: nat, original: ToolCall, key: string)
    requires key in SensitiveKeys(env.tool(i)) && Member(original.arguments, key).Some?
    ensures Member(Judge(env, i, original).call.arguments, key) == Member(original.arguments, key)
      <==> !(env.hook(i).Modify? && env.hook(i).parsed.Some? && !env.hook(i).parsed.value.Obj?)
  {
    var sensitive, verdict := SensitiveKeys(env.tool(i)), env.hook(i);
    if verdict.Modify? && verdict.parsed.Some? && verdict.parsed.value.Obj? {
      RestoredAt(verdict.parsed.value.fields, original.arguments, sensitive, key);
    }
  }

  /** The instance: a hook that answers `null` makes a call run without its sensitive parameter. */
  lemma HookCanDropSensitiveArguments(env: Env, value: Json)
    requires env.tool(0).Some? && env.tool(0).value.sensitive == ["token"] && env.tool(0).value.requirement(Null) == Never
    requires env.hook(0) == Modify(Some(Null))
    ensures Judge(env, 0, ToolCall("1", "send", Obj(map["token" := value]))) == Run(ToolCall("1", "send", Null))
  {
  }

  /**
   * The arguments a call is judged on and runs with: a hook that answers with an object decides
   * every key but the sensitive ones the model gave; other JSON stands as it is; any other answer
   * leaves the model's arguments.
   */
  ghost predicate ArgumentsAfterHook(env: Env, i: nat, original: Json, arguments: Json) {
    var sensitive := if env.tool(i).Some? then env.tool(i).value.sensitive else [];
    match env.hook(i)
    case Modify(Some(Obj(fields))) =>
      arguments.Obj? && forall k: string ::
        Member(arguments, k) == if k in sensitive && Member(original, k).Some? then Member(original, k) else Member(Obj(fields), k)
    case Modify(Some(parsed)) => arguments == parsed
    case _ => arguments == original
  }

  /** The tool asks for approval on these arguments, and nothing has granted it. */
  predicate MustAsk(env: Env, i: nat, arguments: Json) {
    && !env.autoApproveTools && env.tool(i).Some?
    && var requirement := env.tool(i).value.requirement(arguments);
       requirement == Always || (requirement == UnlessAutoApproved && !env.autoApproved(i))
  }

  /** Every verdict, by the hook's answer and the tool's requirement. */
  lemma VerdictMeans(env: Env, i: nat, original: ToolCall)
    ensures var v := Judge(env, i, original);
      && ArgumentsAfterHook(env, i, original.arguments, v.call.arguments)
      && v.call == ToolCall(original.id, original.name, v.call.arguments)
      && match env.hook(i)
         case Deny(reason) => v == Reject(original, RejectedByHook(reason))
         case Fail(error) => v == Reject(original, BlockedByPolicy(error))
         case _ =>
           && (v.Run? <==> !MustAsk(env, i, v.call.arguments))
           && (v.Reject? <==> MustAsk(env, i, v.call.arguments) && env.sharedRelay) && (v.Reject? ==> v.why == NotInSharedChannels)
           && (v.Ask? ==> (v.allowAlways <==> env.tool(i).value.requirement(v.call.arguments) != Always))
  {
    var verdict := env.hook(i);
    if verdict.Modify? && verdict.parsed.Some? && verdict.parsed.value.Obj? {
      forall k ensures Member(HookedArguments(verdict, original.arguments, SensitiveKeys(env.tool(i))), k) ==
        if k in SensitiveKeys(env.tool(i)) && Member(original.arguments, k).Some? then Member(original.arguments, k)
        else Member(verdict.parsed.value, k)
      {
        RestoredAt(verdict.parsed.value.fields, original.arguments, SensitiveKeys(env.tool(i)), k);
      }
    }
  }

  /** The runnable slots with their positions, in order. */
  function RunnableSlots(slots: seq<Slot>): seq<(nat, ToolCall)> {
    if slots == [] then [] else
      var last := slots[|slots| - 1];
      RunnableSlots(slots[..|slots| - 1]) + (if last.rejection.None? then [(|slots| - 1, last.call)] else [])
  }

  function SlotOf(v: Verdict): Slot {
    Slot(v.call, if v.Reject? then Some(v.why) else None)
  }

  /** The verdicts on the calls, one slot per call. */
  function JudgedSlots(env: Env, calls: seq<ToolCall>): (slots: seq<Slot>)
    ensures |slots| == |calls|
  {
    if calls == [] then [] else
      var last := |calls| - 1;
      JudgedSlots(env, calls[..last]) + [SlotOf(Judge(env, last, calls[last]))]
  }

  lemma JudgedOneMore(env: Env, calls: seq<ToolCall>, n: nat)
    requires n < |calls|
    ensures JudgedSlots(env, calls[..n + 1]) == JudgedSlots(env, calls[..n]) + [SlotOf(Judge(env, n, calls[n]))]
  {
    assert calls[..n + 1][..n] == calls[..n];
  }

  lemma {:induction false} JudgedSlotAt(env: Env, calls: seq<ToolCall>, k: nat)
    requires k < |calls|
    ensures JudgedSlots(env, calls)[k] == SlotOf(Judge(env, k, calls[k]))
  {
    if k < |calls| - 1 { JudgedSlotAt(env, calls[..|calls| - 1], k); }
  }

  /** How many calls come before the first that asks for approval. */
  function FirstAsk(env: Env, calls: seq<ToolCall>): (n: nat)
    ensures n <= |calls| && (n < |calls| ==> Judge(env, n, calls[n]).Ask?)
    ensures forall k :: 0 <= k < n ==> !Judge(env, k, calls[k]).Ask?
  {
    if calls == [] then 0 else
      var last := |calls| - 1;
      var n := FirstAsk(env, calls[..last]);
      if n < last || Judge(env, last, calls[last]).Ask? then n else last + 1
  }

  lemma FirstAskIs(env: Env, calls: seq<ToolCall>, n: nat)
    requires n <= |calls| && (n < |calls| ==> Judge(env, n, calls[n]).Ask?)
    requires forall k :: 0 <= k < n ==> !Judge(env, k, calls[k]).Ask?
    ensures FirstAsk(env, calls) == n
  {
  }

  /** The call at the cut, with the arguments that would run. */
  function CutAt(env: Env, calls: seq<ToolCall>, n: nat): Option<Cut>
    requires n <= |calls| && (n < |calls| ==> Judge(env, n, calls[n]).Ask?)
  {
    if n == |calls| then None else
      var v := Judge(env, n, calls[n]);
      Some(Cut(n, v.call, v.allowAlways))
  }

  /** One turn of the preflight loop. */
  method PreflightOne(env: Env, idx: nat, original: ToolCall) returns (verdict: Verdict)
    ensures verdict == Judge(env, idx, original)
  {
    var tc, tool := original, env.tool(idx);
    var sensitive := SensitiveKeys(tool);
    match env.hook(idx) {
      case Deny(reason) => return Reject(tc, RejectedByHook(reason));
      case Fail(error) => return Reject(tc, BlockedByPolicy(error));
      case Modify(Some(parsed)) =>
        if parsed.Obj? {
          var fields := RestoreSensitive(parsed.fields, original.arguments, sensitive);
          tc := tc.(arguments := Obj(fields));
        } else {
          tc := tc.(arguments := parsed);
        }
      case _ =>
    }
    if !env.autoApproveTools && tool.Some? {
      var requirement := tool.value.requirement(tc.arguments);
      var needsApproval :=
        match requirement
        case Never => false
        case UnlessAutoApproved => !env.autoApproved(idx)
        case Always => true;
      if needsApproval {
        if env.sharedRelay { return Reject(tc, NotInSharedChannels); }
        return Ask(tc, !requirement.Always?);
      }
    }
    return Run(tc);
  }

  /** One judged slot per call up to the first call that asks, and that call. */
  method Preflight(env: Env, calls: seq<ToolCall>)
    returns (slots: seq<Slot>, runnable: seq<(nat, ToolCall)>, cut: Option<Cut>)
    ensures slots == HandledSlots(env, calls) && cut == CutAt(env, calls, FirstAsk(env, calls))
    ensures runnable == RunnableSlots(slots)
  {
    slots, runnable, cut := [], [], None;
    for idx := 0 to |calls|
      invariant PreflightedTo(env, calls, idx, slots) && runnable == RunnableSlots(slots)
    {
      var verdict := PreflightOne(env, idx, calls[idx]);
      PreflightStep(env, calls, idx, slots, verdict);
      if verdict.Ask? { return slots, runnable, Some(Cut(idx, verdict.call, verdict.allowAlways)); }
      var slot := Slot(verdict.call, if verdict.Reject? then Some(verdict.why) else None);
      RunnablePush(slots, slot);
      if verdict.Run? { runnable := runnable + [(|slots|, verdict.call)]; }
      slots := slots + [slot];
    }
    PreflightDone(env, calls, slots);
  }

  /** The calls before idx are judged, and none of them asks. */
  ghost predicate PreflightedTo(env: Env, calls: seq<ToolCall>, idx: nat, slots: seq<Slot>)
    requires idx <= |calls|
  {
    slots == JudgedSlots(env, calls[..idx]) && forall k :: 0 <= k < idx ==> !Judge(env, k, calls[k]).Ask?
  }

  lemma PreflightStep(env: Env, calls: seq<ToolCall>, idx: nat, slots: seq<Slot>, v: Verdict)
    requires idx < |calls| && PreflightedTo(env, calls, idx, slots) && v == Judge(env, idx, calls[idx])
    ensures |slots| == idx
    ensures v.Ask? ==>
      slots == HandledSlots(env, calls) && CutAt(env, calls, FirstAsk(env, calls)) == Some(Cut(idx, v.call, v.allowAlways))
    ensures !v.Ask? ==> PreflightedTo(env, calls, idx + 1, slots + [SlotOf(v)])
  {
    if v.Ask? { FirstAskIs(env, calls, idx); } else { JudgedOneMore(env, calls, idx); }
  }

  lemma PreflightDone(env: Env, calls: seq<ToolCall>, slots: seq<Slot>)
    requires PreflightedTo(env, calls, |calls|, slots)
    ensures slots == HandledSlots(env, calls) && CutAt(env, calls, FirstAsk(env, calls)) == None
  {
    FirstAskIs(env, calls, |calls|);
  }

  lemma RunnablePush(slots: seq<Slot>, slot: Slot)
    ensures RunnableSlots(slots + [slot]) ==
      RunnableSlots(slots) + if slot.rejection.None? then [(|slots|, slot.call)] else []
  {
    assert (slots + [slot])[..|slots|] == slots;
  }

  lemma {:induction false} RunnableSlotsAre(slots: seq<Slot>)
    ensures forall x :: x in RunnableSlots(slots) ==> x.0 < |slots| && slots[x.0] == Slot(x.1, None)
    ensures forall k: nat :: k < |slots| && slots[k].rejection.None? ==> (k, slots[k].call) in RunnableSlots(slots)
  {
    if slots == [] {
    } else {
      var rest, last := slots[..|slots| - 1], slots[|slots| - 1];
      RunnableSlotsAre(rest);
      forall k: nat | k < |slots| && slots[k].rejection.None? ensures (k, slots[k].call) in RunnableSlots(slots) {
        if k < |rest| { assert (k, rest[k].call) in RunnableSlots(rest); }
      }
    }
  }

  // ---- Phase 2: execution ----

  /** What slot k's own call yields: its tool's answer, or the filler if its task was lost. */
  function OwnResult(env: Env, spawned: bool, k: nat, call: ToolCall): ExecResult {
    if spawned && env.lost(k) then Err(TaskFailed) else env.run(k, call)
  }

  /** A single call runs inline; several are spawned as tasks. */
  predicate Spawns(slots: seq<Slot>) {
    |RunnableSlots(slots)| > 1
  }

  /** What execution must leave in `exec_results`: rejected slots empty, the others their own result. */
  ghost predicate IsFilled(env: Env, spawned: bool, slots: seq<Slot>, results: seq<Option<ExecResult>>) {
    && |results| == |slots|
    && (forall k :: 0 <= k < |slots| ==>
          results[k] == if slots[k].rejection.None? then Some(OwnResult(env, spawned, k, slots[k].call)) else None)
  }

  /** The slots while the given tasks are still to be joined: every other task that was not lost has reported. */
  ghost predicate IsJoining(env: Env, slots: seq<Slot>, joining: set<(nat, ToolCall)>, results: seq<Option<ExecResult>>) {
    && |results| == |slots|
    && (forall k: nat :: k < |slots| ==> results[k] == Reported(env, slots[k], k, joining))
  }

  function Reported(env: Env, slot: Slot, k: nat, joining: set<(nat, ToolCall)>): Option<ExecResult> {
    if slot.rejection.Some? || env.lost(k) || (k, slot.call) in joining then None else Some(env.run(k, slot.call))
  }

  /** Joins the spawned tasks in an order chosen by the scheduler; a lost task delivers nothing. */
  method JoinAll(env: Env, slots: seq<Slot>, runnable: seq<(nat, ToolCall)>, results: array<Option<ExecResult>>)
    requires runnable == RunnableSlots(slots)
    requires results.Length == |slots| && forall k :: 0 <= k < |slots| ==> results[k] == None
    modifies results
    ensures IsJoining(env, slots, {}, results[..])
  {
    RunnableSlotsAre(slots);
    var joining := set x | x in runnable;
    while joining != {}
      invariant forall x :: x in joining ==> x in runnable
      invariant IsJoining(env, slots, joining, results[..])
      decreases joining
    {
      var x :| x in joining;
      joining := joining - {x};
      if !env.lost(x.0) {
        var (pfIdx, result) := (x.0, env.run(x.0, x.1));
        results[pfIdx] := Some(result);
      }
    }
  }

  /** Fills the slots of lost tasks with an error. */
  method FillLost(env: Env, slots: seq<Slot>, runnable: seq<(nat, ToolCall)>, results: array<Option<ExecResult>>)
    requires runnable == RunnableSlots(slots) && IsJoining(env, slots, {}, results[..])
    modifies results
    ensures IsFilled(env, true, slots, results[..])
  {
    RunnableSlotsAre(slots);
    for t := 0 to |runnable|
      invariant forall x :: x in runnable[..t] ==> results[x.0].Some?
      invariant forall k :: 0 <= k < |slots| && slots[k].rejection.Some? ==> results[k].None?
      invariant forall k: nat :: k < |slots| && results[k].Some? ==>
        results[k].value == OwnResult(env, true, k, slots[k].call)
      invariant forall k: nat :: k < |slots| && results[k].None? ==> slots[k].rejection.Some? || env.lost(k)
    {
      var k := runnable[t].0;
      if results[k].None? { results[k] := Some(Err(TaskFailed)); }
    }
    assert runnable[..|runnable|] == runnable;
    forall k | 0 <= k < |slots| && slots[k].rejection.None? ensures results[k].Some? {
      assert (k, slots[k].call) in runnable;
    }
  }

  /** Runs the runnable slots: a single call inline, several in parallel. */
  method Execute(env: Env, slots: seq<Slot>, runnable: seq<(nat, ToolCall)>) returns (results: array<Option<ExecResult>>)
    requires runnable == RunnableSlots(slots)
    ensures fresh(results) && IsFilled(env, Spawns(slots), slots, results[..])
  {
    results := new Option<ExecResult>[|slots|](_ => None);
    if |runnable| <= 1 {
      RunnableSlotsAre(slots);
      forall k: nat | k < |slots| && slots[k].rejection.None? ensures runnable == [(k, slots[k].call)] {
        assert (k, slots[k].call) in runnable;
      }
      for t := 0 to |runnable|
        invariant forall k: nat :: k < |slots| ==>
          results[k] == if slots[k].rejection.None? && t == 1 then Some(env.run(k, slots[k].call)) else None
      {
        results[runnable[t].0] := Some(env.run(runnable[t].0, runnable[t].1));
      }
    } else {
      JoinAll(env, slots, runnable, results);
      FillLost(env, slots, runnable, results);
    }
  }

  // ---- Phase 3: post-flight ----

  /** `process_tool_result`: one tool message carrying the given call id. */
  function ResultMessage(env: Env, call: ToolCall, result: ExecResult): (m: Message)
    ensures Answers(m, call) && m.name == call.name && m.text == env.wrap(call.name, result)
  {
    ToolResult(call.id, call.name, env.wrap(call.name, result))
  }

  // Only the role of this text matters here, not its wording.
  const STANDARD_INSTRUCTIONS := "provide a token"

  /** `check_auth_required`: the instructions, if the tool is waiting for a token. */
  function AuthRequired(env: Env, call: ToolCall, result: ExecResult): Option<string> {
    if call.name != "tool_auth" && call.name != "tool_activate" then None
    else if result.Err? || env.parse(result.value).None? then None
    else
      var parsed := env.parse(result.value).value;
      if Member(parsed, "awaiting_token") != Some(Bool(true)) then None
      else if Member(parsed, "name").None? || !Member(parsed, "name").value.Str? then None
      else
        match Member(parsed, "instructions")
        case Some(Str(text)) => Some(text)
        case _ => Some(STANDARD_INSTRUCTIONS)
  }

  /**
   * A tool asks for a token exactly if an auth tool succeeded with an object that says so and
   * names the extension; its own instructions are given, or the standard ones.
   */
  lemma AuthRequiredIff(env: Env, call: ToolCall, result: ExecResult)
    ensures AuthRequired(env, call, result).Some? <==>
      && (call.name == "tool_auth" || call.name == "tool_activate") && result.Ok?
      && env.parse(result.value).Some? && WaitsForToken(env.parse(result.value).value)
    ensures AuthRequired(env, call, result).Some? ==>
      var given := Member(env.parse(result.value).value, "instructions");
      if given.Some? && given.value.Str? then AuthRequired(env, call, result) == Some(given.value.s)
      else AuthRequired(env, call, result) == Some(STANDARD_INSTRUCTIONS)
  {
  }

  predicate WaitsForToken(parsed: Json) {
    && parsed.Obj? && "awaiting_token" in parsed.fields && parsed.fields["awaiting_token"] == Bool(true)
    && "name" in parsed.fields && parsed.fields["name"].Str?
  }

  /** What slot k has to tell the model: its rejection, or its own call's result. */
  function Outcome(env: Env, spawned: bool, slot: Slot, k: nat): ExecResult {
    if slot.rejection.Some? then Err(slot.rejection.value) else OwnResult(env, spawned, k, slot.call)
  }

  datatype Sequential = Sequential(messages: seq<Message>, auth: Option<string>)

  /**
   * The reference semantics: the slots handled one after another in preflight order, each call
   * run when its turn comes.
   */
  function OneByOne(env: Env, spawned: bool, slots: seq<Slot>): Sequential {
    if slots == [] then Sequential([], None) else
      var k := |slots| - 1;
      var before, call := OneByOne(env, spawned, slots[..k]), slots[k].call;
      if slots[k].rejection.Some? then
        before.(messages := before.messages + [ResultMessage(env, call, Err(slots[k].rejection.value))])
      else
        var result := OwnResult(env, spawned, k, call);
        Sequential(before.messages + [ResultMessage(env, call, result)],
                   if before.auth.None? then AuthRequired(env, call, result) else before.auth)
  }

  lemma {:induction false} OneByOneAnswersEverySlot(env: Env, spawned: bool, slots: seq<Slot>)
    ensures |OneByOne(env, spawned, slots).messages| == |slots|
    ensures forall k :: 0 <= k < |slots| ==>
      OneByOne(env, spawned, slots).messages[k] == ResultMessage(env, slots[k].call, Outcome(env, spawned, slots[k], k))
  {
    if slots == [] {
    } else {
      OneByOneAnswersEverySlot(env, spawned, slots[..|slots| - 1]);
    }
  }

  /** The auth response is that of the first slot whose call ran and asks for a token, if there is one. */
  lemma {:induction false} AuthIsTheFirst(env: Env, spawned: bool, slots: seq<Slot>) returns (k: nat)
    ensures k <= |slots| && forall j :: 0 <= j < k ==> SlotAuth(env, spawned, slots[j], j).None?
    ensures k < |slots| ==> SlotAuth(env, spawned, slots[k], k).Some?
    ensures OneByOne(env, spawned, slots).auth == if k < |slots| then SlotAuth(env, spawned, slots[k], k) else None
  {
    if slots == [] {
      k := 0;
    } else {
      var last := |slots| - 1;
      k := AuthIsTheFirst(env, spawned, slots[..last]);
      if k == last && SlotAuth(env, spawned, slots[last], last).None? { k := |slots|; }
    }
  }

  function SlotAuth(env: Env, spawned: bool, slot: Slot, k: nat): Option<string> {
    if slot.rejection.Some? then None else AuthRequired(env, slot.call, OwnResult(env, spawned, k, slot.call))
  }

  /** Spawning tasks changes nothing unless one is lost. */
  lemma {:induction false} SpawningIsInvisible(env: Env, slots: seq<Slot>)
    requires forall k :: 0 <= k < |slots| && slots[k].rejection.None? ==> !env.lost(k)
    ensures OneByOne(env, true, slots) == OneByOne(env, false, slots)
  {
    if slots == [] {
    } else {
      SpawningIsInvisible(env, slots[..|slots| - 1]);
    }
  }

  method Postflight(env: Env, ghost spawned: bool, messages: seq<Message>, slots: seq<Slot>,
                    results: array<Option<ExecResult>>)
    returns (after: seq<Message>, deferredAuth: Option<string>)
    requires IsFilled(env, spawned, slots, results[..])
    ensures after == messages + OneByOne(env, spawned, slots).messages
    ensures deferredAuth == OneByOne(env, spawned, slots).auth
  {
    after, deferredAuth := messages, None;
    for k := 0 to |slots|
      invariant after == messages + OneByOne(env, spawned, slots[..k]).messages
      invariant deferredAuth == OneByOne(env, spawned, slots[..k]).auth
    {
      assert slots[..k + 1][..k] == slots[..k];
      var call := slots[k].call;
      if slots[k].rejection.Some? {
        after := after + [ResultMessage(env, call, Err(slots[k].rejection.value))];
      } else {
        assert results[k] == results[..][k];
        var result := if results[k].Some? then results[k].value else Err(NoResult);
        if deferredAuth.None? { deferredAuth := AuthRequired(env, call, result); }
        after := after + [ResultMessage(env, call, result)];
      }
    }
    assert slots[..|slots|] == slots;
  }

  // ---- the whole batch ----

  /** The slots that a batch handles: its calls before the first that asks. */
  function HandledSlots(env: Env, calls: seq<ToolCall>): seq<Slot> {
    JudgedSlots(env, calls[..FirstAsk(env, calls)])
  }

  /** The handled calls, run one by one. */
  function Handled(env: Env, calls: seq<ToolCall>): Sequential {
    var slots := HandledSlots(env, calls);
    OneByOne(env, Spawns(slots), slots)
  }

  /** The message that carries the calls. */
  function Asked(calls: seq<ToolCall>, content: Option<string>): Message {
    Assistant(if content.Some? then content.value else "", calls)
  }

  /** The transcript a batch leaves behind. */
  function AfterBatch(env: Env, messages: seq<Message>, calls: seq<ToolCall>, content: Option<string>): seq<Message> {
    messages + [Asked(calls, content)] + Handled(env, calls).messages
  }

  /** At least two of the calls before the first that asks are run. */
  ghost predicate SeveralRun(env: Env, calls: seq<ToolCall>) {
    exists i, j :: 0 <= i < j < FirstAsk(env, calls) && Judge(env, i, calls[i]).Run? && Judge(env, j, calls[j]).Run?
  }

  /** What the model is told of call k, by its verdict. */
  ghost predicate TellsOf(env: Env, calls: seq<ToolCall>, k: nat, m: Message)
    requires k < |calls|
  {
    && m.ToolResult? && m.callId == calls[k].id && m.name == calls[k].name
    && match Judge(env, k, calls[k])
       case Reject(_, why) => m.text == env.wrap(m.name, Err(why))
       case Run(call) => m.text == env.wrap(m.name, if SeveralRun(env, calls) && env.lost(k) then Err(TaskFailed) else env.run(k, call))
       case Ask(_, _) => false
  }

  /** The tool messages of a batch, one by one and without the order of execution. */
  ghost predicate BatchResults(env: Env, calls: seq<ToolCall>, results: seq<Message>) {
    |results| == FirstAsk(env, calls) && forall k :: 0 <= k < |results| ==> TellsOf(env, calls, k, results[k])
  }

  lemma BatchByVerdict(env: Env, calls: seq<ToolCall>)
    ensures BatchResults(env, calls, Handled(env, calls).messages)
  {
    var n, slots, results := FirstAsk(env, calls), HandledSlots(env, calls), Handled(env, calls).messages;
    SpawnsIff(env, calls);
    OneByOneAnswersEverySlot(env, Spawns(slots), slots);
    forall k | 0 <= k < n ensures TellsOf(env, calls, k, results[k]) {
      JudgedSlotAt(env, calls[..n], k);
      SlotTells(env, calls, k, slots[k], results[k]);
    }
  }

  lemma SlotTells(env: Env, calls: seq<ToolCall>, k: nat, slot: Slot, m: Message)
    requires k < FirstAsk(env, calls) && slot == SlotOf(Judge(env, k, calls[k]))
    requires m == ResultMessage(env, slot.call, Outcome(env, SeveralRun(env, calls), slot, k))
    ensures TellsOf(env, calls, k, m)
  {
    assert !Judge(env, k, calls[k]).Ask?;
  }

  /** What call k answered, if it was run. */
  ghost function AnswerOf(env: Env, calls: seq<ToolCall>, k: nat): Option<ExecResult>
    requires k < |calls|
  {
    match Judge(env, k, calls[k])
    case Run(call) => Some(if SeveralRun(env, calls) && env.lost(k) then Err(TaskFailed) else env.run(k, call))
    case _ => None
  }

  ghost predicate AsksForToken(env: Env, calls: seq<ToolCall>, k: nat)
    requires k < |calls|
  {
    TokenRequest(env, calls, k).Some?
  }

  /** Call k is the first that asks for a token. */
  ghost predicate FirstToAskForToken(env: Env, calls: seq<ToolCall>, k: int) {
    0 <= k < FirstAsk(env, calls) && AsksForToken(env, calls, k) && forall j :: 0 <= j < k ==> !AsksForToken(env, calls, j)
  }

  ghost function TokenRequest(env: Env, calls: seq<ToolCall>, k: nat): Option<string>
    requires k < |calls|
  {
    if AnswerOf(env, calls, k).None? then None
    else AuthRequired(env, Judge(env, k, calls[k]).call, AnswerOf(env, calls, k).value)
  }

  /** A batch responds exactly if some call that ran asks for a token, and then for the first of them. */
  lemma ResponseByVerdict(env: Env, calls: seq<ToolCall>) returns (k: nat)
    ensures k <= FirstAsk(env, calls)
    ensures k == FirstAsk(env, calls) <==> forall j :: 0 <= j < FirstAsk(env, calls) ==> !AsksForToken(env, calls, j)
    ensures k < FirstAsk(env, calls) ==> FirstToAskForToken(env, calls, k)
    ensures Handled(env, calls).auth == if k < FirstAsk(env, calls) then TokenRequest(env, calls, k) else None
  {
    var slots := HandledSlots(env, calls);
    k := AuthIsTheFirst(env, Spawns(slots), slots);
    forall j | 0 <= j < FirstAsk(env, calls) ensures SlotAuth(env, Spawns(slots), slots[j], j) == TokenRequest(env, calls, j) {
      SlotAsks(env, calls, j);
    }
    if k < FirstAsk(env, calls) { assert AsksForToken(env, calls, k); }
  }

  lemma SlotAsks(env: Env, calls: seq<ToolCall>, k: nat)
    requires k < FirstAsk(env, calls)
    ensures var slots := HandledSlots(env, calls);
      SlotAuth(env, Spawns(slots), slots[k], k) == TokenRequest(env, calls, k)
  {
    SpawnsIff(env, calls);
    JudgedSlotAt(env, calls[..FirstAsk(env, calls)], k);
    assert !Judge(env, k, calls[k]).Ask?;
  }

  /** Tasks are spawned exactly if at least two calls run. */
  lemma SpawnsIff(env: Env, calls: seq<ToolCall>)
    ensures Spawns(HandledSlots(env, calls)) <==> SeveralRun(env, calls)
  {
    var n, slots := FirstAsk(env, calls), HandledSlots(env, calls);
    forall k | 0 <= k < n ensures slots[k] == SlotOf(Judge(env, k, calls[k])) { JudgedSlotAt(env, calls[..n], k); }
    ManyRunnable(slots);
  }

  lemma {:induction false} ManyRunnable(slots: seq<Slot>)
    ensures |RunnableSlots(slots)| >= 1 <==> exists i :: 0 <= i < |slots| && slots[i].rejection.None?
    ensures |RunnableSlots(slots)| > 1 <==>
      exists i, j :: 0 <= i < j < |slots| && slots[i].rejection.None? && slots[j].rejection.None?
  {
    if slots == [] {
    } else {
      var last := |slots| - 1;
      ManyRunnable(slots[..last]);
      assert forall i :: 0 <= i < last ==> slots[..last][i] == slots[i];
    }
  }

  lemma HandledSlotsDischarge(env: Env, spawned: bool, messages: seq<Message>, calls: seq<ToolCall>, slots: seq<Slot>)
    requires |slots| <= |calls| && forall k :: 0 <= k < |slots| ==> slots[k].call.id == calls[k].id
    requires Outstanding(messages) == Some(Ids(calls))
    ensures Outstanding(messages + OneByOne(env, spawned, slots).messages) == Some(Ids(calls[|slots|..]))
  {
    var done, rest := Ids(calls[..|slots|]), Ids(calls[|slots|..]);
    assert Ids(calls) == done + rest;
    AnswersAre(env, spawned, slots, done);
    AppendResults(messages, OneByOne(env, spawned, slots).messages, done, rest);
  }

  lemma AnswersAre(env: Env, spawned: bool, slots: seq<Slot>, ids: seq<string>)
    requires |slots| == |ids| && forall k :: 0 <= k < |slots| ==> slots[k].call.id == ids[k]
    ensures ResultsFor(OneByOne(env, spawned, slots).messages, ids)
  {
    OneByOneAnswersEverySlot(env, spawned, slots);
  }

  /**
   * `ChatDelegate::execute_tool_calls`. For every order in which the tasks join, the messages
   * appended are those of running the calls before the cut one by one; auth comes before
   * approval; and the transcript left behind waits for exactly the calls from the cut on.
   */
  method ExecuteToolCalls(env: Env, messages: seq<Message>, calls: seq<ToolCall>, content: Option<string>)
    returns (after: seq<Message>, outcome: BatchOutcome)
    requires WellFormed(messages)
    ensures after == AfterBatch(env, messages, calls, content)
    ensures |messages| < |after| && BatchResults(env, calls, after[|messages| + 1..])
    ensures after[..|messages| + 1] == messages + [Assistant(if content.Some? then content.value else "", calls)]
    ensures outcome.Respond? <==> Handled(env, calls).auth.Some?
    ensures outcome.Respond? ==> outcome.text == Handled(env, calls).auth.value
    ensures Outstanding(after) == Some(Ids(calls[FirstAsk(env, calls)..]))
    ensures WellFormed(after) <==> forall k :: 0 <= k < |calls| ==> !Judge(env, k, calls[k]).Ask?
    ensures outcome.Continue? ==> WellFormed(after)
    ensures outcome.NeedApproval? ==> IsPartition(env, calls, after, outcome.pending)
  {
    var asked := messages + [Asked(calls, content)];
    var slots, runnable, cut := Preflight(env, calls);
    var results := Execute(env, slots, runnable);
    var auth;
    after, auth := Postflight(env, Spawns(slots), asked, slots, results);
    BatchLeavesUnhandled(env, messages, calls, content);
    BatchByVerdict(env, calls);
    assert after[|messages| + 1..] == Handled(env, calls).messages;
    outcome := Conclude(auth, cut, calls, after);
    if outcome.NeedApproval? { CutIsPartition(env, calls, after); }
  }

  /** The end of the batch: a deferred auth response first, then the approval. */
  function Conclude(auth: Option<string>, cut: Option<Cut>, calls: seq<ToolCall>, after: seq<Message>): BatchOutcome
    requires cut.Some? ==> cut.value.index < |calls|
  {
    if auth.Some? then Respond(auth.value)
    else if cut.Some? then NeedApproval(PendingFor(cut.value, calls, after))
    else Continue
  }

  function PendingFor(cut: Cut, calls: seq<ToolCall>, context: seq<Message>): PendingApproval
    requires cut.index < |calls|
  {
    PendingApproval(cut.call.name, cut.call.arguments, cut.call.id, context, calls[cut.index + 1..], cut.allowAlways)
  }

  lemma CutIsPartition(env: Env, calls: seq<ToolCall>, after: seq<Message>)
    requires FirstAsk(env, calls) < |calls|
    requires Outstanding(after) == Some(Ids(calls[FirstAsk(env, calls)..]))
    ensures IsPartition(env, calls, after, PendingFor(CutAt(env, calls, FirstAsk(env, calls)).value, calls, after))
  {
    var n := FirstAsk(env, calls);
    IdsFrom(calls, n);
    SplitAt(calls, n);
    HandledSlotsAreCleared(env, calls);
  }

  lemma SplitAt(calls: seq<ToolCall>, n: nat)
    requires n < |calls|
    ensures calls == calls[..n] + [calls[n]] + calls[n + 1..]
  {
  }

  lemma IdsFrom(calls: seq<ToolCall>, i: nat)
    requires i < |calls|
    ensures Ids(calls[i..]) == [calls[i].id] + Ids(calls[i + 1..])
  {
  }

  /** After a batch the transcript waits for the calls from the cut on, so it is whole exactly if none asks. */
  lemma BatchLeavesUnhandled(env: Env, messages: seq<Message>, calls: seq<ToolCall>, content: Option<string>)
    requires WellFormed(messages)
    ensures Outstanding(AfterBatch(env, messages, calls, content)) == Some(Ids(calls[FirstAsk(env, calls)..]))
    ensures WellFormed(AfterBatch(env, messages, calls, content)) <==>
      forall k :: 0 <= k < |calls| ==> !Judge(env, k, calls[k]).Ask?
  {
    var n, slots, asked := FirstAsk(env, calls), HandledSlots(env, calls), messages + [Asked(calls, content)];
    WellFormedIffNothingOutstanding(messages);
    AdvanceAllPush(Some([]), messages, Asked(calls, content));
    forall k | 0 <= k < |slots| ensures slots[k].call.id == calls[k].id { JudgedSlotAt(env, calls[..n], k); }
    HandledSlotsDischarge(env, Spawns(slots), asked, calls, slots);
    WellFormedIffNothingOutstanding(AfterBatch(env, messages, calls, content));
    assert |Ids(calls[n..])| == |calls| - n;
    if n < |calls| {
      assert Judge(env, n, calls[n]).Ask?;
    }
  }

  /**
   * The instance where both happen: the first call answers that it waits for a token, the second
   * needs approval. The batch responds with the instructions and leaves the second call unanswered.
   */
  lemma AuthHidesTheApproval(env: Env, messages: seq<Message>, first: ToolCall, second: ToolCall)
    requires WellFormed(messages) && !env.sharedRelay && !env.autoApproveTools && first.name == "tool_auth"
    requires env.hook(0) == env.hook(1) == Keep && env.tool(0).None?
    requires env.tool(1).Some? && env.tool(1).value.requirement(second.arguments) == Always
    requires env.run(0, first) == Ok("{}")
    requires env.parse("{}") == Some(Obj(map["awaiting_token" := Bool(true), "name" := Str("mail")]))
    ensures FirstAsk(env, [first, second]) == 1 && Handled(env, [first, second]).auth.Some?
    ensures !WellFormed(AfterBatch(env, messages, [first, second], None))
  {
    var calls := [first, second];
    assert Judge(env, 0, first) == Run(first) && Judge(env, 1, second) == Ask(second, false);
    FirstAskIs(env, calls, 1);
    assert calls[..1] == [first];
    assert JudgedSlots(env, []) == [];
    var slots := HandledSlots(env, calls);
    assert slots == [Slot(first, None)] && slots[..0] == [];
    assert RunnableSlots(slots) == [(0, first)];
    assert OneByOne(env, false, slots[..0]).auth.None?;
    BatchLeavesUnhandled(env, messages, calls, None);
    assert Judge(env, 1, calls[1]).Ask?;
  }

  /** A call that is run is the model's own, and needs no approval on the arguments that are run. */
  ghost predicate Cleared(env: Env, k: nat, original: ToolCall, run: ToolCall) {
    && run.id == original.id && run.name == original.name
    && (!env.autoApproveTools && env.tool(k).Some? ==>
          !NeedsApproval(env.tool(k).value, run.arguments, env.autoApproved(k)))
  }

  ghost predicate AllCleared(env: Env, calls: seq<ToolCall>, slots: seq<Slot>) {
    |slots| <= |calls| && forall k :: 0 <= k < |slots| && slots[k].rejection.None? ==> Cleared(env, k, calls[k], slots[k].call)
  }

  lemma HandledSlotsAreCleared(env: Env, calls: seq<ToolCall>)
    ensures AllCleared(env, calls, HandledSlots(env, calls))
  {
    var n, slots := FirstAsk(env, calls), HandledSlots(env, calls);
    forall k | 0 <= k < |slots| && slots[k].rejection.None? ensures Cleared(env, k, calls[k], slots[k].call) {
      JudgedSlotAt(env, calls[..n], k);
      assert !Judge(env, k, calls[k]).Ask?;
    }
  }

  /** At the cut the calls are the handled prefix, the pending call and the deferred calls. */
  ghost predicate IsPartition(env: Env, calls: seq<ToolCall>, after: seq<Message>, p: PendingApproval) {
    var n := FirstAsk(env, calls);
    && n < |calls| && Judge(env, n, calls[n]) == Ask(ToolCall(p.callId, p.toolName, p.parameters), p.allowAlways)
    && p.callId == calls[n].id && p.toolName == calls[n].name
    && calls == calls[..n] + [calls[n]] + p.deferred
    && AllCleared(env, calls, HandledSlots(env, calls))
    && p.context == after && AwaitingApproval(p)
  }

  /** One result for the pending call and one per deferred call repair a saved context. */
  lemma ResultsRepairSavedContext(p: PendingApproval, results: seq<Message>)
    requires AwaitingApproval(p) && ResultsFor(results, [p.callId] + Ids(p.deferred))
    ensures WellFormed(p.context + results)
  {
    var ids := [p.callId] + Ids(p.deferred);
    assert ids + [] == ids;
    AppendResults(p.context, results, ids, []);
    WellFormedIffNothingOutstanding(p.context + results);
  }
}
