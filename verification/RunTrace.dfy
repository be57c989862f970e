/**
 * Runs of the agentic loop as an observer sees them: what is sent to the model, what it answers,
 * and which batches are executed. A run is legal if every event follows from the ones before it;
 * the rules that users rely on are theorems about legal runs.
 */
module RunTrace {
  import opened Wrappers
  import opened Transcript
  import opened Compaction
  import opened ToolBatch
  import opened ChatWorld

  datatype Event =
    | Request(context: seq<Message>, sent: seq<Message>, tools: seq<string>, forceText: bool)
    | Replied(answer: Result<Reply, LlmError>)
    | Executed(calls: seq<ToolCall>, content: Option<string>)

  predicate TruncatedReply(e: Event) {
    e.Replied? && e.answer.Ok? && e.answer.value.Calls? && e.answer.value.truncated
  }

  predicate CompleteReply(e: Event) {
    e.Replied? && e.answer.Ok? && e.answer.value.Calls? && !e.answer.value.truncated
  }

  predicate TextReply(e: Event) {
    e.Replied? && e.answer.Ok? && e.answer.value.Text?
  }

  /**
   * What the events so far amount to: the latest request's context and tools, the replies, the
   * failed attempts since the last reply, and the truncated and text replies since the last
   * complete batch of calls.
   */
  datatype Progress = Progress(
    context: seq<Message>,
    tools: seq<string>,
    replies: nat,
    attempt: nat,
    truncations: nat,
    texts: nat,
    escalated: bool,
    last: Option<Event>)

  function Next(p: Progress, e: Event): Progress {
    var q := p.(last := Some(e));
    match e
    case Request(context, _, tools, _) => q.(context := context, tools := tools)
    case Executed(_, _) => q
    case Replied(Err(_)) => q.(attempt := p.attempt + 1)
    case Replied(Ok(reply)) =>
      var r := q.(replies := p.replies + 1, attempt := 0);
      if reply.Text? then r.(texts := p.texts + 1)
      else if reply.truncated then
        r.(truncations := p.truncations + 1, escalated := p.escalated || p.truncations + 1 >= 3)
      else r.(truncations := 0, texts := 0)
  }

  function ProgressOf(initial: seq<Message>, trace: seq<Event>): Progress {
    if trace == [] then Progress(initial, [], 0, 0, 0, 0, false, None)
    else Next(ProgressOf(initial, trace[..|trace| - 1]), trace[|trace| - 1])
  }

  // ---- legal runs ----

  /** Whether the run goes on after its last event: a nudge, a dropped truncation or a finished batch. */
  predicate GoesOn(world: World, config: LoopConfig, p: Progress) {
    match p.last
    case None => true
    case Some(Replied(Ok(Text(text)))) =>
      config.enableNudge && p.tools != [] && p.texts <= config.maxNudges && world.signalsToolIntent(text)
    case Some(Replied(Ok(Calls(_, _, truncated)))) => truncated
    case Some(Executed(calls, _)) => BatchGoesOn(world.batch(p.replies), calls)
    case _ => false
  }

  predicate BatchGoesOn(env: Env, calls: seq<ToolCall>) {
    Handled(env, calls).auth.None? && FirstAsk(env, calls) == |calls|
  }

  /** The transcript after the loop has reacted to the last event. */
  function Reacted(world: World, p: Progress): seq<Message> {
    match p.last
    case Some(Replied(Ok(Text(text)))) => p.context + [Assistant(text, []), User(TOOL_INTENT_NUDGE)]
    case Some(Replied(Ok(Calls(_, content, true)))) =>
      p.context + (if content.Some? then [Assistant(content.value, [])] else []) + [User(TRUNCATED_NOTICE)]
    case Some(Executed(calls, content)) => AfterBatch(world.batch(p.replies), p.context, calls, content)
    case _ => p.context
  }

  /** The transcript of the next iteration's first request. */
  function Opening(world: World, p: Progress): seq<Message> {
    Reacted(world, p) + Injected(world, p.replies + 1) + Notice(world, p.replies + 1)
  }

  /** A request retries a context-length error once, or opens the next iteration. */
  ghost predicate MayRequest(world: World, config: LoopConfig, p: Progress, context: seq<Message>) {
    if p.last.Some? && p.last.value.Replied? && p.last.value.answer.Err? then
      p.last.value.answer.error.ContextLengthExceeded? && p.attempt == 1 && IsCompaction(p.context, context)
    else
      && GoesOn(world, config, p) && p.replies < config.maxIterations
      && !world.signal(p.replies + 1).Stop? && world.costAllowed(p.replies + 1)
      && context == Opening(world, p)
  }

  predicate TextOnly(world: World, p: Progress) {
    p.replies + 1 >= world.maxToolIterations || p.escalated
  }

  ghost predicate Follows(world: World, config: LoopConfig, p: Progress, e: Event) {
    match e
    case Request(context, sent, tools, forceText) =>
      && MayRequest(world, config, p, context)
      && sent == [System(world.systemPrompt(p.replies + 1))] + OtherMessages(context)
      && forceText == TextOnly(world, p)
      && tools == (if forceText then [] else world.toolDefinitions(p.replies + 1))
    case Replied(answer) =>
      && p.last.Some? && p.last.value.Request?
      && answer == Answer(world, p.tools != [], p.replies + 1, p.attempt)
    case Executed(calls, content) =>
      p.last == Some(Replied(Ok(Calls(calls, content, false))))
  }

  ghost predicate Legal(world: World, config: LoopConfig, initial: seq<Message>, trace: seq<Event>) {
    trace == [] ||
    var before := trace[..|trace| - 1];
    Legal(world, config, initial, before) && Follows(world, config, ProgressOf(initial, before), trace[|trace| - 1])
  }

  predicate LastAnswerFails(p: Progress, e: LlmError) {
    p.last == Some(Replied(Err(e))) && (e.ContextLengthExceeded? ==> p.attempt == 2)
  }

  /** A run fails with its last answer, which no retry can follow, or with a refusal of the cost check. */
  ghost predicate FailsWith(world: World, config: LoopConfig, p: Progress, e: LlmError, iterations: nat) {
    && iterations == p.replies + 1
    && (if p.last == Some(Replied(Err(e))) then LastAnswerFails(p, e)
        else
          && GoesOn(world, config, p) && iterations <= config.maxIterations && !world.signal(iterations).Stop?
          && !world.costAllowed(iterations) && e.CostLimit?)
  }

  /** How a run ends: with the result that its last event, its next signal or the cost check calls for. */
  ghost predicate Finished(world: World, config: LoopConfig, p: Progress,
                           result: Result<LoopOutcome, LlmError>, iterations: nat)
  {
    match result
    case Err(e) => FailsWith(world, config, p, e, iterations)
    case Ok(Stopped) =>
      iterations == p.replies + 1 <= config.maxIterations && GoesOn(world, config, p) && world.signal(iterations).Stop?
    case Ok(MaxIterations) => iterations == p.replies == config.maxIterations && GoesOn(world, config, p)
    case Ok(Response(text)) =>
      && iterations == p.replies && !GoesOn(world, config, p)
      && (match p.last
          case Some(Replied(Ok(Text(reply)))) => text == world.stripToolCallText(reply)
          case Some(Executed(calls, _)) => Handled(world.batch(iterations), calls).auth == Some(text)
          case _ => false)
    case Ok(AwaitApproval(pending)) =>
      && iterations == p.replies && p.last.Some? && p.last.value.Executed?
      && Handled(world.batch(iterations), p.last.value.calls).auth.None?
      && IsPartition(world.batch(iterations), p.last.value.calls, Reacted(world, p), pending)
  }

  lemma LegalPush(world: World, config: LoopConfig, initial: seq<Message>, trace: seq<Event>, e: Event)
    requires Legal(world, config, initial, trace) && Follows(world, config, ProgressOf(initial, trace), e)
    ensures Legal(world, config, initial, trace + [e])
    ensures ProgressOf(initial, trace + [e]) == Next(ProgressOf(initial, trace), e)
  {
    assert (trace + [e])[..|trace|] == trace;
  }

  lemma ReplyFollows(world: World, config: LoopConfig, p: Progress, request: Event, r: Result<Reply, LlmError>)
    requires request.Request? && r == Answer(world, request.tools != [], p.replies + 1, p.attempt)
    ensures Follows(world, config, Next(p, request), Replied(r))
  {
  }

  /** A legal request and the answer to it. */
  lemma LegalCall(world: World, config: LoopConfig, initial: seq<Message>, trace: seq<Event>, p: Progress,
                  request: Event, r: Result<Reply, LlmError>)
    returns (trace': seq<Event>, p': Progress)
    requires Legal(world, config, initial, trace) && p == ProgressOf(initial, trace)
    requires request.Request? && Follows(world, config, p, request)
    requires r == Answer(world, request.tools != [], p.replies + 1, p.attempt)
    ensures Legal(world, config, initial, trace') && p' == ProgressOf(initial, trace')
    ensures p' == Next(Next(p, request), Replied(r))
  {
    var asked := trace + [request];
    LegalPush(world, config, initial, trace, request);
    ReplyFollows(world, config, p, request, r);
    trace', p' := LegalNext(world, config, initial, asked, Next(p, request), Replied(r));
  }

  lemma LegalNext(world: World, config: LoopConfig, initial: seq<Message>, trace: seq<Event>, p: Progress, e: Event)
    returns (trace': seq<Event>, p': Progress)
    requires Legal(world, config, initial, trace) && p == ProgressOf(initial, trace) && Follows(world, config, p, e)
    ensures Legal(world, config, initial, trace') && p' == ProgressOf(initial, trace') && p' == Next(p, e)
  {
    LegalPush(world, config, initial, trace, e);
    trace', p' := trace + [e], Next(p, e);
  }

  lemma {:induction false} LegalPrefix(world: World, config: LoopConfig, initial: seq<Message>, trace: seq<Event>, i: nat)
    requires Legal(world, config, initial, trace) && i <= |trace|
    ensures Legal(world, config, initial, trace[..i])
  {
    if i == |trace| {
      assert trace[..i] == trace;
    } else {
      var before := trace[..|trace| - 1];
      LegalPrefix(world, config, initial, before, i);
      assert before[..i] == trace[..i];
    }
  }

  lemma LegalAt(world: World, config: LoopConfig, initial: seq<Message>, trace: seq<Event>, i: nat)
    requires Legal(world, config, initial, trace) && i < |trace|
    ensures Legal(world, config, initial, trace[..i]) && Follows(world, config, ProgressOf(initial, trace[..i]), trace[i])
  {
    LegalPrefix(world, config, initial, trace, i + 1);
    assert trace[..i + 1][..i] == trace[..i];
  }

  // ---- what legal runs keep ----

  /** Every request, first try or compacted retry, carries a well-formed transcript. */
  ghost predicate RequestsWellFormed(trace: seq<Event>) {
    forall i :: 0 <= i < |trace| && trace[i].Request? ==> WellFormed(trace[i].context) && WellFormed(trace[i].sent)
  }

  /** Every request is answered at once, and there are no other answers. */
  ghost predicate RequestsAnswered(trace: seq<Event>) {
    && (forall i :: 0 <= i < |trace| && trace[i].Request? ==> i + 1 < |trace| && trace[i + 1].Replied?)
    && (forall i :: 0 <= i < |trace| && trace[i].Replied? ==> 0 < i && trace[i - 1].Request?)
  }

  /** The calls of a reply are executed, at once and as they are, exactly if the reply is not truncated. */
  ghost predicate ExactlyCompleteCallsRun(trace: seq<Event>) {
    && (forall i :: 0 <= i < |trace| && CompleteReply(trace[i]) ==> i + 1 < |trace| && Runs(trace[i + 1], trace[i]))
    && (forall i :: 0 <= i < |trace| && trace[i].Executed? ==>
          0 < i && CompleteReply(trace[i - 1]) && Runs(trace[i], trace[i - 1]))
  }

  predicate Runs(e: Event, reply: Event)
    requires CompleteReply(reply)
  {
    e == Executed(reply.answer.value.calls, reply.answer.value.content)
  }

  /** Three truncated replies with no complete batch of calls between them, whatever else came between. */
  ghost predicate ThreeTruncations(trace: seq<Event>, a: int, b: int, c: int) {
    && 0 <= a < b < c < |trace|
    && TruncatedReply(trace[a]) && TruncatedReply(trace[b]) && TruncatedReply(trace[c])
    && forall k :: a <= k <= c ==> !CompleteReply(trace[k])
  }

  ghost predicate Escalated(trace: seq<Event>) {
    exists a, b, c :: ThreeTruncations(trace, a, b, c)
  }

  /** A request is text-only, and offers no tools, exactly at the iteration limit or after three truncations. */
  ghost predicate TextOnlyIff(world: World, trace: seq<Event>) {
    forall i :: 0 <= i < |trace| && trace[i].Request? ==>
      && (trace[i].forceText <==> Replies(trace[..i]) + 1 >= world.maxToolIterations || Escalated(trace[..i]))
      && (trace[i].forceText ==> trace[i].tools == [])
  }

  function Replies(trace: seq<Event>): nat {
    if trace == [] then 0
    else Replies(trace[..|trace| - 1]) + (if trace[|trace| - 1].Replied? && trace[|trace| - 1].answer.Ok? then 1 else 0)
  }

  /** The text replies since the last complete batch of calls; all but a run's last event were nudged. */
  function Nudges(trace: seq<Event>): nat {
    if trace == [] || CompleteReply(trace[|trace| - 1]) then 0
    else Nudges(trace[..|trace| - 1]) + (if TextReply(trace[|trace| - 1]) then 1 else 0)
  }

  ghost predicate NudgesCapped(trace: seq<Event>, max: nat) {
    forall n :: 0 <= n < |trace| ==> Nudges(trace[..n]) <= max
  }

  /** The truncated replies since the last complete batch of calls. */
  function Truncations(trace: seq<Event>): nat {
    if trace == [] || CompleteReply(trace[|trace| - 1]) then 0
    else Truncations(trace[..|trace| - 1]) + (if TruncatedReply(trace[|trace| - 1]) then 1 else 0)
  }

  /** A later context extends an earlier one or is its compaction. */
  ghost predicate Continues(earlier: seq<Message>, later: seq<Message>) {
    earlier <= later || IsCompaction(earlier, later)
  }

  /** The context of the latest request. */
  function LastContext(initial: seq<Message>, trace: seq<Event>): seq<Message> {
    if trace == [] then initial
    else if trace[|trace| - 1].Request? then trace[|trace| - 1].context
    else LastContext(initial, trace[..|trace| - 1])
  }

  /** Nothing that a request carried is dropped or changed later, except by compaction. */
  ghost predicate HistoryKept(initial: seq<Message>, trace: seq<Event>) {
    forall i :: 0 <= i < |trace| && trace[i].Request? ==> Continues(LastContext(initial, trace[..i]), trace[i].context)
  }

  ghost predicate KeepsRules(world: World, config: LoopConfig, initial: seq<Message>, trace: seq<Event>) {
    && RequestsWellFormed(trace) && RequestsAnswered(trace) && ExactlyCompleteCallsRun(trace)
    && TextOnlyIff(world, trace) && NudgesCapped(trace, config.maxNudges) && HistoryKept(initial, trace)
  }

  // ---- the counters mean what they say ----

  lemma {:induction false} CountersMean(initial: seq<Message>, trace: seq<Event>)
    ensures ProgressOf(initial, trace).replies == Replies(trace)
    ensures ProgressOf(initial, trace).texts == Nudges(trace)
    ensures ProgressOf(initial, trace).truncations == Truncations(trace)
    ensures ProgressOf(initial, trace).context == LastContext(initial, trace)
    ensures ProgressOf(initial, trace).last == if trace == [] then None else Some(trace[|trace| - 1])
  {
    if trace == [] {
    } else {
      CountersMean(initial, trace[..|trace| - 1]);
    }
  }

  /** The truncated replies from position a on, with no complete batch of calls after it. */
  ghost predicate SinceTruncation(trace: seq<Event>, a: int) {
    0 <= a < |trace| && TruncatedReply(trace[a]) && forall k :: a <= k < |trace| ==> !CompleteReply(trace[k])
  }

  /** While no batch completes, the truncation counter does not fall. */
  lemma {:induction false} TruncationsGrow(trace: seq<Event>, i: nat)
    requires i <= |trace| && forall k :: i <= k < |trace| ==> !CompleteReply(trace[k])
    ensures Truncations(trace[..i]) <= Truncations(trace)
  {
    if i == |trace| {
      assert trace[..i] == trace;
    } else {
      var rest := trace[..|trace| - 1];
      TruncationsGrow(rest, i);
      assert rest[..i] == trace[..i];
    }
  }

  /** One more truncated reply since the last complete batch raises the counter. */
  lemma TruncationCounts(trace: seq<Event>, a: nat)
    requires SinceTruncation(trace, a)
    ensures Truncations(trace) > Truncations(trace[..a])
  {
    TruncationsGrow(trace, a + 1);
    assert trace[..a + 1][..a] == trace[..a];
  }

  /** A positive counter points back to the truncated reply that raised it. */
  lemma {:induction false} CountedTruncation(trace: seq<Event>) returns (a: nat)
    requires Truncations(trace) > 0
    ensures SinceTruncation(trace, a) && Truncations(trace) == Truncations(trace[..a]) + 1
  {
    var last := |trace| - 1;
    if TruncatedReply(trace[last]) {
      a := last;
    } else {
      a := CountedTruncation(trace[..last]);
      assert trace[..last][..a] == trace[..a];
    }
  }

  /** The mode latches: three truncations with no complete batch between them escalate for good. */
  lemma {:induction false} EscalatedIff(initial: seq<Message>, trace: seq<Event>)
    ensures ProgressOf(initial, trace).escalated <==> Escalated(trace)
  {
    if trace == [] {
    } else {
      var before := trace[..|trace| - 1];
      EscalatedIff(initial, before);
      CountersMean(initial, before);
      EscalatedPush(trace);
    }
  }

  lemma EscalatedPush(trace: seq<Event>)
    requires trace != []
    ensures var before, e := trace[..|trace| - 1], trace[|trace| - 1];
      Escalated(trace) <==> Escalated(before) || (TruncatedReply(e) && Truncations(before) >= 2)
  {
    var last := |trace| - 1;
    var before := trace[..last];
    if Escalated(before) {
      var a, b, c :| ThreeTruncations(before, a, b, c);
      assert ThreeTruncations(trace, a, b, c);
    } else if TruncatedReply(trace[last]) && Truncations(before) >= 2 {
      ThirdTruncation(trace);
    } else if Escalated(trace) {
      var a, b, c :| ThreeTruncations(trace, a, b, c);
      if c < last {
        assert ThreeTruncations(before, a, b, c);
      } else {
        ThreeTruncationsCount(trace, a, b);
      }
      assert false;
    }
  }

  lemma ThirdTruncation(trace: seq<Event>)
    requires trace != [] && TruncatedReply(trace[|trace| - 1]) && Truncations(trace[..|trace| - 1]) >= 2
    ensures Escalated(trace)
  {
    var c := |trace| - 1;
    var b := CountedTruncation(trace[..c]);
    assert trace[..c][..b] == trace[..b];
    var a := CountedTruncation(trace[..b]);
    forall k | a <= k <= c ensures !CompleteReply(trace[k]) {
      if k < b { assert trace[k] == trace[..b][k]; } else if k < c { assert trace[k] == trace[..c][k]; }
    }
    assert ThreeTruncations(trace, a, b, c);
  }

  lemma ThreeTruncationsCount(trace: seq<Event>, a: nat, b: nat)
    requires ThreeTruncations(trace, a, b, |trace| - 1)
    ensures Truncations(trace[..|trace| - 1]) >= 2
  {
    var before := trace[..|trace| - 1];
    TruncationCounts(before, b);
    assert before[..b] == trace[..b];
    TruncationCounts(trace[..b], a);
  }

  // ---- the rules are theorems about legal runs ----

  lemma SentIsWellFormed(messages: seq<Message>, prompt: Message)
    requires WellFormed(messages) && prompt.System?
    ensures WellFormed([prompt] + OtherMessages(messages))
  {
    WellFormedIffNothingOutstanding(messages);
    DroppingSystemsKeepsScan(messages);
    AdvanceAllPush(Some([]), [], prompt);
    assert [] + [prompt] == [prompt];
    AdvanceAllConcat(Some([]), [prompt], OtherMessages(messages));
    WellFormedIffNothingOutstanding([prompt] + OtherMessages(messages));
  }

  /** A message that opens no tool-call group keeps a transcript well formed. */
  lemma PushKeepsWellFormed(messages: seq<Message>, m: Message)
    requires WellFormed(messages) && (m.System? || m.User? || (m.Assistant? && m.calls == []))
    ensures WellFormed(messages + [m])
  {
    WellFormedIffNothingOutstanding(messages);
    AdvanceAllPush(Some([]), messages, m);
    WellFormedIffNothingOutstanding(messages + [m]);
  }

  lemma AppendKeepsWellFormed(messages: seq<Message>, more: seq<Message>)
    requires WellFormed(messages)
    requires forall i :: 0 <= i < |more| ==> more[i].System? || more[i].User? || (more[i].Assistant? && more[i].calls == [])
    ensures WellFormed(messages + more)
    decreases |more|
  {
    if more == [] {
      assert messages + more == messages;
    } else {
      PushKeepsWellFormed(messages, more[0]);
      AppendKeepsWellFormed(messages + [more[0]], more[1..]);
      assert messages + [more[0]] + more[1..] == messages + more;
    }
  }

  lemma CompactionKeepsWellFormed(messages: seq<Message>, compacted: seq<Message>)
    requires WellFormed(messages) && IsCompaction(messages, compacted)
    ensures WellFormed(compacted)
  {
    if i: nat :| i < |messages| && messages[i].User? && (forall j :: i < j < |messages| ==> !messages[j].User?)
                 && compacted == KeptFrom(messages, i)
    {
      KeptFromWellFormed(messages, i);
    } else {
      SystemsFirstWellFormed(messages);
    }
  }

  /** Whatever the run reacts to before it goes on, the transcript stays well formed. */
  lemma ReactionKeepsWellFormed(world: World, config: LoopConfig, p: Progress)
    requires WellFormed(p.context) && GoesOn(world, config, p)
    ensures WellFormed(Reacted(world, p))
  {
    match p.last
    case None =>
    case Some(Replied(Ok(Text(text)))) =>
      AppendKeepsWellFormed(p.context, [Assistant(text, []), User(TOOL_INTENT_NUDGE)]);
    case Some(Replied(Ok(Calls(_, content, truncated)))) =>
      var narrative := if content.Some? then [Assistant(content.value, [])] else [];
      AppendKeepsWellFormed(p.context, narrative);
      AppendKeepsWellFormed(p.context + narrative, [User(TRUNCATED_NOTICE)]);
    case Some(Executed(calls, content)) =>
      BatchLeavesUnhandled(world.batch(p.replies), p.context, calls, content);
  }

  lemma OpeningIsWellFormed(world: World, config: LoopConfig, p: Progress)
    requires WellFormed(p.context) && GoesOn(world, config, p)
    ensures WellFormed(Opening(world, p))
  {
    var reacted, i := Reacted(world, p), p.replies + 1;
    ReactionKeepsWellFormed(world, config, p);
    AppendKeepsWellFormed(reacted, Injected(world, i));
    AppendKeepsWellFormed(reacted + Injected(world, i), Notice(world, i));
  }

  lemma NextKeepsWellFormed(world: World, config: LoopConfig, p: Progress, e: Event)
    requires WellFormed(p.context) && Follows(world, config, p, e)
    ensures WellFormed(Next(p, e).context)
  {
    if e.Request? {
      if p.last.Some? && p.last.value.Replied? && p.last.value.answer.Err? {
        CompactionKeepsWellFormed(p.context, e.context);
      } else {
        OpeningIsWellFormed(world, config, p);
      }
    }
  }

  /** From a well-formed start every context of a legal run is well formed. */
  lemma {:induction false} LegalContextsWellFormed(world: World, config: LoopConfig, initial: seq<Message>, trace: seq<Event>)
    requires WellFormed(initial) && Legal(world, config, initial, trace)
    ensures WellFormed(ProgressOf(initial, trace).context)
  {
    if trace == [] {
    } else {
      var before := trace[..|trace| - 1];
      LegalContextsWellFormed(world, config, initial, before);
      NextKeepsWellFormed(world, config, ProgressOf(initial, before), trace[|trace| - 1]);
    }
  }

  lemma OpeningExtends(world: World, p: Progress)
    ensures p.context <= Opening(world, p)
  {
    assert p.context <= Reacted(world, p);
  }

  /** What a legal request carries. */
  lemma RequestKeeps(world: World, config: LoopConfig, p: Progress, e: Event)
    requires e.Request? && Follows(world, config, p, e) && WellFormed(p.context)
    ensures WellFormed(e.context) && WellFormed(e.sent) && Continues(p.context, e.context)
    ensures (e.forceText <==> TextOnly(world, p)) && (e.forceText ==> e.tools == [])
  {
    NextKeepsWellFormed(world, config, p, e);
    SentIsWellFormed(e.context, System(world.systemPrompt(p.replies + 1)));
    OpeningExtends(world, p);
  }

  lemma LegalRequests(world: World, config: LoopConfig, initial: seq<Message>, trace: seq<Event>)
    requires WellFormed(initial) && Legal(world, config, initial, trace)
    ensures RequestsWellFormed(trace) && TextOnlyIff(world, trace) && HistoryKept(initial, trace)
  {
    forall i: nat | i < |trace| && trace[i].Request?
      ensures WellFormed(trace[i].context) && WellFormed(trace[i].sent)
      ensures trace[i].forceText <==> Replies(trace[..i]) + 1 >= world.maxToolIterations || Escalated(trace[..i])
      ensures trace[i].forceText ==> trace[i].tools == []
      ensures Continues(LastContext(initial, trace[..i]), trace[i].context)
    {
      LegalAt(world, config, initial, trace, i);
      LegalRequest(world, config, initial, trace[..i], trace[i]);
    }
  }

  lemma LegalRequest(world: World, config: LoopConfig, initial: seq<Message>, before: seq<Event>, e: Event)
    requires WellFormed(initial) && Legal(world, config, initial, before)
    requires e.Request? && Follows(world, config, ProgressOf(initial, before), e)
    ensures WellFormed(e.context) && WellFormed(e.sent) && Continues(LastContext(initial, before), e.context)
    ensures e.forceText <==> Replies(before) + 1 >= world.maxToolIterations || Escalated(before)
    ensures e.forceText ==> e.tools == []
  {
    LegalContextsWellFormed(world, config, initial, before);
    CountersMean(initial, before);
    EscalatedIff(initial, before);
    RequestKeeps(world, config, ProgressOf(initial, before), e);
  }

  /** Which events may stand side by side. */
  predicate Adjacent(e: Event, f: Event) {
    && (e.Request? <==> f.Replied?)
    && (CompleteReply(e) <==> f.Executed?) && (CompleteReply(e) ==> Runs(f, e))
  }

  predicate Fits(trace: seq<Event>, i: nat)
    requires i < |trace|
  {
    if i == 0 then trace[i].Request? else Adjacent(trace[i - 1], trace[i])
  }

  lemma LegalNeighbours(world: World, config: LoopConfig, initial: seq<Message>, trace: seq<Event>, i: nat)
    requires Legal(world, config, initial, trace) && i < |trace|
    ensures Fits(trace, i)
  {
    LegalAt(world, config, initial, trace, i);
    CountersMean(initial, trace[..i]);
    assert i > 0 ==> trace[..i][i - 1] == trace[i - 1];
    FollowsAdjacent(world, config, ProgressOf(initial, trace[..i]), trace[i]);
  }

  lemma FollowsAdjacent(world: World, config: LoopConfig, p: Progress, e: Event)
    requires Follows(world, config, p, e)
    ensures if p.last.None? then e.Request? else Adjacent(p.last.value, e)
  {
  }

  lemma FinishedLast(world: World, config: LoopConfig, p: Progress, result: Result<LoopOutcome, LlmError>, iterations: nat)
    requires Finished(world, config, p, result, iterations)
    ensures p.last.Some? ==> !p.last.value.Request? && !CompleteReply(p.last.value)
  {
  }

  /** The event after a text reply is the request that its nudge led to. */
  lemma {:induction false} LegalNudges(world: World, config: LoopConfig, initial: seq<Message>, trace: seq<Event>)
    requires Legal(world, config, initial, trace) && trace != []
    ensures Nudges(trace[..|trace| - 1]) <= config.maxNudges
    decreases |trace|
  {
    var before := trace[..|trace| - 1];
    if before == [] {
    } else {
      LegalNudges(world, config, initial, before);
      CountersMean(initial, before);
    }
  }

  /** Every finished legal run from a well-formed start keeps all the rules. */
  lemma LegalRunsKeepRules(world: World, config: LoopConfig, initial: seq<Message>, trace: seq<Event>,
                           result: Result<LoopOutcome, LlmError>, iterations: nat)
    requires WellFormed(initial) && Legal(world, config, initial, trace)
    requires Finished(world, config, ProgressOf(initial, trace), result, iterations)
    ensures KeepsRules(world, config, initial, trace)
  {
    CountersMean(initial, trace);
    FinishedLast(world, config, ProgressOf(initial, trace), result, iterations);
    LegalRequests(world, config, initial, trace);
    forall i: nat | i < |trace| ensures Fits(trace, i) {
      LegalNeighbours(world, config, initial, trace, i);
    }
    NeighboursKeepRules(trace);
    LegalRunNudges(world, config, initial, trace);
  }

  lemma NeighboursKeepRules(trace: seq<Event>)
    requires forall i: nat :: i < |trace| ==> Fits(trace, i)
    requires trace != [] ==> !trace[|trace| - 1].Request? && !CompleteReply(trace[|trace| - 1])
    ensures RequestsAnswered(trace) && ExactlyCompleteCallsRun(trace)
  {
    forall i | 0 <= i < |trace| && trace[i].Replied? ensures 0 < i && trace[i - 1].Request? {
      assert Fits(trace, i);
    }
    forall i | 0 <= i < |trace| && trace[i].Executed?
      ensures 0 < i && CompleteReply(trace[i - 1]) && Runs(trace[i], trace[i - 1])
    {
      assert Fits(trace, i);
    }
    forall i | 0 <= i < |trace| && (trace[i].Request? || CompleteReply(trace[i]))
      ensures i + 1 < |trace| && Adjacent(trace[i], trace[i + 1])
    {
      assert Fits(trace, i + 1);
    }
  }

  lemma LegalRunNudges(world: World, config: LoopConfig, initial: seq<Message>, trace: seq<Event>)
    requires Legal(world, config, initial, trace)
    ensures NudgesCapped(trace, config.maxNudges)
  {
    forall n: nat | n < |trace| ensures Nudges(trace[..n]) <= config.maxNudges {
      LegalAt(world, config, initial, trace, n);
      LegalPush(world, config, initial, trace[..n], trace[n]);
      LegalNudges(world, config, initial, trace[..n] + [trace[n]]);
      assert (trace[..n] + [trace[n]])[..n] == trace[..n];
    }
  }

  // ---- there is only one run ----

  /** Compaction leaves no choice. */
  lemma CompactionUnique(messages: seq<Message>, a: seq<Message>, b: seq<Message>)
    requires IsCompaction(messages, a) && IsCompaction(messages, b)
    ensures a == b
  {
    if i: nat :| i < |messages| && messages[i].User? && (forall j :: i < j < |messages| ==> !messages[j].User?)
                 && a == KeptFrom(messages, i)
    {
      var k: nat :| k < |messages| && messages[k].User? && (forall j :: k < j < |messages| ==> !messages[j].User?)
                    && b == KeptFrom(messages, k);
    }
  }

  /** At most one event can come next. */
  lemma NextUnique(world: World, config: LoopConfig, p: Progress, e: Event, f: Event)
    requires Follows(world, config, p, e) && Follows(world, config, p, f)
    ensures e == f
  {
    FollowsAdjacent(world, config, p, e);
    FollowsAdjacent(world, config, p, f);
    if e.Request? && IsCompaction(p.context, e.context) && IsCompaction(p.context, f.context) {
      CompactionUnique(p.context, e.context, f.context);
    }
  }

  /** Nothing can follow the end of a run. */
  lemma FinishedIsFinal(world: World, config: LoopConfig, p: Progress, result: Result<LoopOutcome, LlmError>,
                        iterations: nat, e: Event)
    requires Finished(world, config, p, result, iterations)
    ensures !Follows(world, config, p, e)
  {
    FinishedLast(world, config, p, result, iterations);
    if Follows(world, config, p, e) { FollowsAdjacent(world, config, p, e); }
  }

  /** The end of a run leaves no choice of result. */
  lemma ResultUnique(world: World, config: LoopConfig, p: Progress, r: Result<LoopOutcome, LlmError>, i: nat,
                     s: Result<LoopOutcome, LlmError>, j: nat)
    requires Finished(world, config, p, r, i) && Finished(world, config, p, s, j)
    ensures r == s && i == j
  {
    if r.Ok? && r.value.AwaitApproval? && s.Ok? && s.value.AwaitApproval? {
      PartitionUnique(world.batch(i), p.last.value.calls, Reacted(world, p), r.value.pending, s.value.pending);
    }
  }

  lemma PartitionUnique(env: Env, calls: seq<ToolCall>, after: seq<Message>, p: PendingApproval, q: PendingApproval)
    requires IsPartition(env, calls, after, p) && IsPartition(env, calls, after, q)
    ensures p == q
  {
    var n := FirstAsk(env, calls);
    assert p.deferred == calls[n + 1..] == q.deferred;
  }

  /**
   * The rules leave no freedom: the world and the first transcript determine every request,
   * every executed batch and the result, so any loop that keeps to them makes the same run.
   */
  lemma OneRun(world: World, config: LoopConfig, initial: seq<Message>,
               a: seq<Event>, r: Result<LoopOutcome, LlmError>, i: nat,
               b: seq<Event>, s: Result<LoopOutcome, LlmError>, j: nat)
    requires Legal(world, config, initial, a) && Finished(world, config, ProgressOf(initial, a), r, i)
    requires Legal(world, config, initial, b) && Finished(world, config, ProgressOf(initial, b), s, j)
    ensures a == b && r == s && i == j
  {
    NotLonger(world, config, initial, a, r, i, b);
    NotLonger(world, config, initial, b, s, j, a);
    SameLengthSameRun(world, config, initial, a, b);
    ResultUnique(world, config, ProgressOf(initial, a), r, i, s, j);
  }

  lemma {:induction false} SameLengthSameRun(world: World, config: LoopConfig, initial: seq<Message>,
                                             a: seq<Event>, b: seq<Event>)
    requires Legal(world, config, initial, a) && Legal(world, config, initial, b) && |a| == |b|
    ensures a == b
  {
    if a == [] {
    } else {
      var last := |a| - 1;
      SameLengthSameRun(world, config, initial, a[..last], b[..last]);
      NextUnique(world, config, ProgressOf(initial, a[..last]), a[last], b[last]);
      assert a == a[..last] + [a[last]] && b == b[..last] + [b[last]];
    }
  }

  lemma NotLonger(world: World, config: LoopConfig, initial: seq<Message>,
                  a: seq<Event>, r: Result<LoopOutcome, LlmError>, i: nat, b: seq<Event>)
    requires Legal(world, config, initial, a) && Finished(world, config, ProgressOf(initial, a), r, i)
    requires Legal(world, config, initial, b)
    ensures |b| <= |a|
  {
    if |a| < |b| {
      LegalAt(world, config, initial, b, |a|);
      SameLengthSameRun(world, config, initial, a, b[..|a|]);
      FinishedIsFinal(world, config, ProgressOf(initial, a), r, i, b[|a|]);
    }
  }
}
