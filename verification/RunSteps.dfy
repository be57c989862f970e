/**
 * The events of a legal run spelled out one by one: what each request carries, what it may follow,
 * what the transcript gained since the last one, and whose answer each answer is.
 */
module RunSteps {
  import opened Wrappers
  import opened Transcript
  import opened Compaction
  import opened ToolBatch
  import opened ChatWorld
  import opened RunTrace

  predicate FailedReply(e: Event) {
    e.Replied? && e.answer.Err?
  }

  /** The event just before position i is a failed attempt. */
  predicate AfterFailure(trace: seq<Event>, i: nat)
    requires i <= |trace|
  {
    i > 0 && FailedReply(trace[i - 1])
  }

  /** What an iteration's signal and the tool limit add to the transcript. */
  function Extras(world: World, iteration: nat): seq<Message> {
    (match world.signal(iteration) case InjectMessage(text) => [User(text)] case _ => [])
    + (if iteration + 1 == world.maxToolIterations then [System(NEARING_LIMIT)] else [])
  }

  /** How the transcript grew since the last request, by the event before this one. */
  ghost predicate Grown(world: World, iteration: nat, previous: Option<Event>, base: seq<Message>, context: seq<Message>) {
    base <= context && iteration > 0 &&
    var gained, extras := context[|base|..], Extras(world, iteration);
    match previous
    case None => gained == extras
    case Some(Replied(Ok(Text(text)))) => gained == [Assistant(text, []), User(TOOL_INTENT_NUDGE)] + extras
    case Some(Replied(Ok(Calls(_, Some(text), true)))) => gained == [Assistant(text, []), User(TRUNCATED_NOTICE)] + extras
    case Some(Replied(Ok(Calls(_, None, true)))) => gained == [User(TRUNCATED_NOTICE)] + extras
    case Some(Executed(calls, content)) =>
      && |gained| == 1 + |calls| + |extras| && gained[1 + |calls|..] == extras
      && gained[0] == Assistant(if content.Some? then content.value else "", calls)
      && BatchResults(world.batch(iteration - 1), calls, gained[1..1 + |calls|])
    case _ => false
  }

  /** A request carries the prompt, all messages of its context but the system messages, and the tools. */
  ghost predicate Carries(world: World, iteration: nat, e: Event)
    requires e.Request?
  {
    && e.sent != [] && e.sent[0] == System(world.systemPrompt(iteration)) && IsSelection(e.context, e.sent[1..], false)
    && e.tools == (if e.forceText then [] else world.toolDefinitions(iteration))
  }

  /** A request that opens an iteration was allowed to, and its transcript grew as it should. */
  ghost predicate Opens(world: World, config: LoopConfig, iteration: nat, previous: Option<Event>, base: seq<Message>, context: seq<Message>) {
    && iteration <= config.maxIterations && !world.signal(iteration).Stop? && world.costAllowed(iteration)
    && Grown(world, iteration, previous, base, context)
  }

  /** A retry follows one context-length error and compacts the context that was too long. */
  ghost predicate Retries(previous: Event, again: bool, base: seq<Message>, context: seq<Message>) {
    previous == Replied(Err(ContextLengthExceeded)) && !again && CompactedByPosition(base, context)
  }

  /** A request by the iteration, the event before it, whether that was a retry, and the last context. */
  ghost predicate RequestFrom(world: World, config: LoopConfig, iteration: nat, previous: Option<Event>, again: bool,
                              base: seq<Message>, e: Event)
    requires e.Request?
  {
    && Carries(world, iteration, e)
    && if previous.Some? && FailedReply(previous.value) then Retries(previous.value, again, base, e.context)
       else Opens(world, config, iteration, previous, base, e.context)
  }

  function LastEvent(trace: seq<Event>): Option<Event> {
    if trace == [] then None else Some(trace[|trace| - 1])
  }

  ghost predicate RequestAfter(world: World, config: LoopConfig, initial: seq<Message>, before: seq<Event>, e: Event)
    requires e.Request?
  {
    var again := |before| >= 2 && AfterFailure(before, |before| - 2);
    RequestFrom(world, config, Replies(before) + 1, LastEvent(before), again, LastContext(initial, before), e)
  }

  /** The provider's answer, with tools if any were offered. */
  ghost predicate AnswerFrom(world: World, iteration: nat, offered: bool, attempt: nat, answer: Result<Reply, LlmError>) {
    if offered then answer == world.completeWithTools(iteration, attempt)
    else match world.complete(iteration, attempt)
         case Ok(text) => answer == Ok(Text(text))
         case Err(e) => answer == Err(e)
  }

  /** An answer is the provider's to the request right before it, on its first or second attempt. */
  ghost predicate AnswerAfter(world: World, before: seq<Event>, answer: Result<Reply, LlmError>) {
    var last := |before| - 1;
    && last >= 0 && before[last].Request?
    && AnswerFrom(world, Replies(before) + 1, before[last].tools != [], if AfterFailure(before, last) then 1 else 0, answer)
  }

  /** A text may be nudged: tools were offered, and it speaks of using one. */
  predicate Nudgeable(world: World, config: LoopConfig, trace: seq<Event>, i: nat)
    requires i < |trace| && TextReply(trace[i])
  {
    && config.enableNudge && world.signalsToolIntent(trace[i].answer.value.text)
    && i > 0 && trace[i - 1].Request? && trace[i - 1].tools != []
  }

  /** A run goes on after a text exactly if that was nudged; the last text answers sanitized. */
  ghost predicate TextsInOrder(world: World, config: LoopConfig, trace: seq<Event>, result: Result<LoopOutcome, LlmError>) {
    && (forall i :: 0 <= i < |trace| - 1 && TextReply(trace[i]) ==> Nudgeable(world, config, trace, i))
    && (trace != [] && TextReply(trace[|trace| - 1]) && result.Ok? && result.value.Response? ==>
          && !(Nudgeable(world, config, trace, |trace| - 1) && Nudges(trace) <= config.maxNudges)
          && result.value.text == world.stripToolCallText(trace[|trace| - 1].answer.value.text))
  }

  ghost predicate StepsInOrder(world: World, config: LoopConfig, initial: seq<Message>, trace: seq<Event>,
                               result: Result<LoopOutcome, LlmError>)
  {
    && (forall i :: 0 <= i < |trace| && trace[i].Request? ==> RequestAfter(world, config, initial, trace[..i], trace[i]))
    && (forall i :: 0 <= i < |trace| && trace[i].Replied? ==> AnswerAfter(world, trace[..i], trace[i].answer))
    && TextsInOrder(world, config, trace, result)
  }

  // ---- attempts ----

  /** The attempt counter at the end of a legal trace, by its last three events. */
  ghost predicate AttemptsCounted(trace: seq<Event>, attempt: nat) {
    var n := |trace|;
    attempt ==
      if n == 0 then 0
      else if FailedReply(trace[n - 1]) then (if n >= 2 && AfterFailure(trace, n - 2) then 2 else 1)
      else if trace[n - 1].Request? then (if AfterFailure(trace, n - 1) then 1 else 0)
      else 0
  }

  lemma {:induction false} AttemptsMean(world: World, config: LoopConfig, initial: seq<Message>, trace: seq<Event>)
    requires Legal(world, config, initial, trace)
    ensures AttemptsCounted(trace, ProgressOf(initial, trace).attempt)
  {
    if trace == [] {
    } else {
      var last := |trace| - 1;
      var before := trace[..last];
      AttemptsMean(world, config, initial, before);
      CountersMean(initial, before);
      AttemptStep(world, config, ProgressOf(initial, before), before, trace[last]);
      assert trace == before + [trace[last]];
    }
  }

  lemma AttemptStep(world: World, config: LoopConfig, p: Progress, before: seq<Event>, e: Event)
    requires Follows(world, config, p, e) && AttemptsCounted(before, p.attempt)
    requires p.last == if before == [] then None else Some(before[|before| - 1])
    ensures AttemptsCounted(before + [e], Next(p, e).attempt)
  {
    FollowsAdjacent(world, config, p, e);
    AttemptNow(world, config, p, e);
  }

  lemma AttemptNow(world: World, config: LoopConfig, p: Progress, e: Event)
    requires Follows(world, config, p, e)
    ensures e.Request? && p.last.Some? && FailedReply(p.last.value) ==> p.attempt == 1
    ensures Next(p, e).attempt == if !e.Replied? then p.attempt else if e.answer.Err? then p.attempt + 1 else 0
  {
  }

  // ---- requests ----

  lemma OpeningGrows(world: World, config: LoopConfig, p: Progress)
    requires GoesOn(world, config, p)
    ensures Grown(world, p.replies + 1, p.last, p.context, Opening(world, p))
  {
    var extras := Injected(world, p.replies + 1) + Notice(world, p.replies + 1);
    assert extras == Extras(world, p.replies + 1);
    var reacted := Reacted(world, p);
    assert p.context <= reacted;
    assert Opening(world, p) == reacted + extras;
    assert Opening(world, p)[|p.context|..] == reacted[|p.context|..] + extras;
    match p.last
    case Some(Executed(calls, content)) => BatchGrows(world, p, calls, content, extras);
    case _ =>
  }

  lemma BatchGrows(world: World, p: Progress, calls: seq<ToolCall>, content: Option<string>, extras: seq<Message>)
    requires FirstAsk(world.batch(p.replies), calls) == |calls|
    ensures var gained := AfterBatch(world.batch(p.replies), p.context, calls, content)[|p.context|..] + extras;
      && |gained| == 1 + |calls| + |extras| && gained[1 + |calls|..] == extras
      && gained[0] == Assistant(if content.Some? then content.value else "", calls)
      && BatchResults(world.batch(p.replies), calls, gained[1..1 + |calls|])
  {
    var env := world.batch(p.replies);
    var results := Handled(env, calls).messages;
    BatchByVerdict(env, calls);
    assert AfterBatch(env, p.context, calls, content)[|p.context|..] == [Asked(calls, content)] + results;
    ThreeParts(Asked(calls, content), results, extras);
  }

  lemma ThreeParts(first: Message, results: seq<Message>, extras: seq<Message>)
    ensures var all := [first] + results + extras;
      all[0] == first && all[1..1 + |results|] == results && all[1 + |results|..] == extras
  {
  }

  lemma CarriesStep(world: World, config: LoopConfig, p: Progress, e: Event)
    requires e.Request? && Follows(world, config, p, e)
    ensures Carries(world, p.replies + 1, e)
  {
    SelectionsByPosition(e.context);
    assert e.sent[1..] == OtherMessages(e.context);
  }

  lemma RetryStep(world: World, config: LoopConfig, p: Progress, e: Event)
    requires e.Request? && Follows(world, config, p, e) && p.last.Some? && FailedReply(p.last.value)
    ensures p.attempt == 1 && Retries(p.last.value, false, p.context, e.context)
  {
    CompactionByPosition(p.context, e.context);
  }

  lemma OpenStep(world: World, config: LoopConfig, p: Progress, e: Event)
    requires e.Request? && Follows(world, config, p, e) && !(p.last.Some? && FailedReply(p.last.value))
    ensures Opens(world, config, p.replies + 1, p.last, p.context, e.context)
  {
    OpeningGrows(world, config, p);
  }

  lemma RequestStep(world: World, config: LoopConfig, p: Progress, again: bool, e: Event)
    requires e.Request? && Follows(world, config, p, e) && (p.last.Some? && FailedReply(p.last.value) && p.attempt == 1 ==> !again)
    ensures RequestFrom(world, config, p.replies + 1, p.last, again, p.context, e)
  {
    CarriesStep(world, config, p, e);
    if p.last.Some? && FailedReply(p.last.value) {
      RetryStep(world, config, p, e);
    } else {
      OpenStep(world, config, p, e);
    }
  }

  /** What is known after some events, in terms of the events alone. */
  lemma KnownAfter(world: World, config: LoopConfig, initial: seq<Message>, before: seq<Event>) returns (again: bool)
    requires Legal(world, config, initial, before)
    ensures again <==> |before| >= 2 && AfterFailure(before, |before| - 2)
    ensures var p := ProgressOf(initial, before);
      && p.replies == Replies(before) && p.last == LastEvent(before) && p.context == LastContext(initial, before)
      && (p.last.Some? && FailedReply(p.last.value) && p.attempt == 1 ==> !again)
  {
    CountersMean(initial, before);
    AttemptsMean(world, config, initial, before);
    again := |before| >= 2 && AfterFailure(before, |before| - 2);
  }

  lemma LegalRequestInOrder(world: World, config: LoopConfig, initial: seq<Message>, before: seq<Event>, e: Event, p: Progress)
    requires Legal(world, config, initial, before) && p == ProgressOf(initial, before)
    requires e.Request? && Follows(world, config, p, e)
    ensures RequestAfter(world, config, initial, before, e)
  {
    var again := KnownAfter(world, config, initial, before);
    RequestStep(world, config, p, again, e);
    SameRequest(world, config, p, Replies(before) + 1, LastEvent(before), again, LastContext(initial, before), e);
  }

  lemma SameRequest(world: World, config: LoopConfig, p: Progress, iteration: nat, previous: Option<Event>, again: bool,
                    base: seq<Message>, e: Event)
    requires e.Request? && RequestFrom(world, config, p.replies + 1, p.last, again, p.context, e)
    requires iteration == p.replies + 1 && previous == p.last && base == p.context
    ensures RequestFrom(world, config, iteration, previous, again, base, e)
  {
  }

  // ---- answers and texts ----

  lemma AnswerStep(world: World, config: LoopConfig, p: Progress, answer: Result<Reply, LlmError>)
    requires Follows(world, config, p, Replied(answer))
    ensures p.last.Some? && p.last.value.Request?
    ensures AnswerFrom(world, p.replies + 1, p.tools != [], p.attempt, answer)
  {
  }

  /** What is known after a request, in terms of the events alone. */
  lemma KnownAtRequest(world: World, config: LoopConfig, initial: seq<Message>, before: seq<Event>)
    requires Legal(world, config, initial, before) && before != [] && before[|before| - 1].Request?
    ensures var p, last := ProgressOf(initial, before), |before| - 1;
      p.replies == Replies(before) && p.tools == before[last].tools && p.attempt == if AfterFailure(before, last) then 1 else 0
  {
    CountersMean(initial, before);
    AttemptsMean(world, config, initial, before);
    ToolsMean(initial, before);
  }

  lemma LegalAnswerInOrder(world: World, config: LoopConfig, initial: seq<Message>, before: seq<Event>,
                           answer: Result<Reply, LlmError>, p: Progress)
    requires Legal(world, config, initial, before) && p == ProgressOf(initial, before)
    requires Follows(world, config, p, Replied(answer))
    ensures AnswerAfter(world, before, answer)
  {
    CountersMean(initial, before);
    AnswerStep(world, config, p, answer);
    KnownAtRequest(world, config, initial, before);
  }

  lemma ToolsMean(initial: seq<Message>, trace: seq<Event>)
    ensures trace != [] && trace[|trace| - 1].Request? ==> ProgressOf(initial, trace).tools == trace[|trace| - 1].tools
  {
  }

  lemma LegalTextNudged(world: World, config: LoopConfig, initial: seq<Message>, trace: seq<Event>, i: nat)
    requires Legal(world, config, initial, trace) && i + 1 < |trace| && TextReply(trace[i])
    ensures Nudgeable(world, config, trace, i)
  {
    LegalAt(world, config, initial, trace, i + 1);
    var p := ProgressOf(initial, trace[..i + 1]);
    CountersMean(initial, trace[..i + 1]);
    assert trace[..i + 1][i] == trace[i];
    FollowsAdjacent(world, config, p, trace[i + 1]);
    ReplyKeepsTools(world, config, initial, trace, i);
  }

  /** A reply leaves the tools of its request on record. */
  lemma ReplyStep(world: World, config: LoopConfig, initial: seq<Message>, before: seq<Event>, e: Event)
    requires e.Replied? && Follows(world, config, ProgressOf(initial, before), e)
    ensures before != [] && before[|before| - 1].Request?
    ensures Next(ProgressOf(initial, before), e).tools == before[|before| - 1].tools
  {
    CountersMean(initial, before);
    ToolsMean(initial, before);
  }

  lemma ReplyKeepsTools(world: World, config: LoopConfig, initial: seq<Message>, trace: seq<Event>, i: nat)
    requires i < |trace| && trace[i].Replied?
    ensures Legal(world, config, initial, trace) ==>
      i > 0 && trace[i - 1].Request? && ProgressOf(initial, trace[..i + 1]).tools == trace[i - 1].tools
  {
    if Legal(world, config, initial, trace) {
      LegalAt(world, config, initial, trace, i);
      ReplyStep(world, config, initial, trace[..i], trace[i]);
      assert trace[..i + 1][..i] == trace[..i];
    }
  }

  lemma LegalTextsInOrder(world: World, config: LoopConfig, initial: seq<Message>, trace: seq<Event>,
                          result: Result<LoopOutcome, LlmError>, iterations: nat)
    requires Legal(world, config, initial, trace) && Finished(world, config, ProgressOf(initial, trace), result, iterations)
    ensures TextsInOrder(world, config, trace, result)
  {
    forall i | 0 <= i < |trace| - 1 && TextReply(trace[i]) ensures Nudgeable(world, config, trace, i) {
      LegalTextNudged(world, config, initial, trace, i);
    }
    CountersMean(initial, trace);
    if trace != [] && TextReply(trace[|trace| - 1]) {
      ReplyKeepsTools(world, config, initial, trace, |trace| - 1);
      assert trace[..|trace|] == trace;
    }
  }

  /** Every finished legal run goes step by step as spelled out here. */
  lemma LegalRunsGoInOrder(world: World, config: LoopConfig, initial: seq<Message>, trace: seq<Event>,
                           result: Result<LoopOutcome, LlmError>, iterations: nat)
    requires Legal(world, config, initial, trace) && Finished(world, config, ProgressOf(initial, trace), result, iterations)
    ensures StepsInOrder(world, config, initial, trace, result)
  {
    forall i | 0 <= i < |trace| && trace[i].Request? ensures RequestAfter(world, config, initial, trace[..i], trace[i]) {
      LegalAt(world, config, initial, trace, i);
      LegalRequestInOrder(world, config, initial, trace[..i], trace[i], ProgressOf(initial, trace[..i]));
    }
    forall i | 0 <= i < |trace| && trace[i].Replied? ensures AnswerAfter(world, trace[..i], trace[i].answer) {
      LegalAt(world, config, initial, trace, i);
      LegalAnswerInOrder(world, config, initial, trace[..i], trace[i].answer, ProgressOf(initial, trace[..i]));
    }
    LegalTextsInOrder(world, config, initial, trace, result, iterations);
  }
}
