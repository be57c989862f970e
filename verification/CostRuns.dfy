/**
 * Runs of a shared guard: checks and records of many callers, interleaved in any way. A record
 * names the check that allowed it; what happens between the two is up to the other callers.
 */
module CostRuns {
  import opened Wrappers
  import opened CostHistory
  import CostGuard

  datatype Event =
    | Check(now: real)
    | Record(call: Call, check: nat)

  function Time(e: Event): real {
    match e case Check(now) => now case Record(call, _) => call.time
  }

  /** The calls recorded by the first p events. */
  function Calls(run: seq<Event>, p: nat): seq<Call>
    requires p <= |run|
  {
    if p == 0 then [] else
      match run[p - 1]
      case Check(_) => Calls(run, p - 1)
      case Record(call, _) => Calls(run, p - 1) + [call]
  }

  ghost predicate ClockMonotone(run: seq<Event>) {
    forall i, j :: 0 <= i < j < |run| ==> Time(run[i]) <= Time(run[j])
  }

  predicate Allowed(limits: Limits, run: seq<Event>, c: nat)
    requires c < |run|
  {
    run[c].Check? && HistoryCheck(limits, Calls(run, c), run[c].now).Ok?
  }

  /** Every record follows a check that the guard allowed. */
  ghost predicate Checked(limits: Limits, run: seq<Event>) {
    forall r :: 0 <= r < |run| && run[r].Record? ==> run[r].check < r && Allowed(limits, run, run[r].check)
  }

  /** The records still to come at position p whose check is already behind. */
  ghost function InFlight(run: seq<Event>, p: nat): set<nat> {
    set r: nat | p <= r < |run| && run[r].Record? && run[r].check < p
  }

  ghost predicate AtMostInFlight(run: seq<Event>, k: nat) {
    forall p: nat :: p <= |run| ==> |InFlight(run, p)| <= k
  }

  /** A check is answered as the guard that only reads the history answers it. */
  ghost predicate AnswersFromHistory(limits: Limits, run: seq<Event>, p: nat, answer: Result<(), Exceeded>)
    requires p < |run|
  {
    run[p].Check? ==> answer == HistoryCheck(limits, Calls(run, p), run[p].now)
  }

  ghost predicate AllFromHistory(limits: Limits, run: seq<Event>, answers: seq<Result<(), Exceeded>>) {
    |answers| <= |run| && forall p :: 0 <= p < |answers| ==> AnswersFromHistory(limits, run, p, answers[p])
  }

  lemma AnswersPush(limits: Limits, run: seq<Event>, answers: seq<Result<(), Exceeded>>, answer: Result<(), Exceeded>)
    requires |answers| < |run| && AllFromHistory(limits, run, answers)
    requires AnswersFromHistory(limits, run, |answers|, answer)
    ensures AllFromHistory(limits, run, answers + [answer])
  {
  }

  /**
   * Any run, played on a real guard: its answers are those of the guard that reads the whole
   * history, so the bounds below hold of the guard with all its shortcuts.
   */
  method Replay(limits: Limits, startDate: int, run: seq<Event>) returns (answers: seq<Result<(), Exceeded>>)
    requires ClockMonotone(run) && forall r :: 0 <= r < |run| ==> 0.0 <= Time(run[r])
    requires forall r :: 0 <= r < |run| && run[r].Record? ==> 0.0 <= run[r].call.cost
    ensures |answers| == |run| && AllFromHistory(limits, run, answers)
  {
    var guard := new CostGuard.Guard(limits, startDate, 0.0);
    answers := [];
    for p := 0 to |run|
      invariant fresh(guard) && guard.Valid() && guard.limits == limits
      invariant guard.history == Calls(run, p) && (p < |run| ==> guard.clock <= Time(run[p]))
      invariant |answers| == p && AllFromHistory(limits, run, answers)
    {
      var answer := Play(guard, run, p);
      AnswersPush(limits, run, answers, answer);
      answers := answers + [answer];
    }
  }

  method Play(guard: CostGuard.Guard, run: seq<Event>, p: nat) returns (answer: Result<(), Exceeded>)
    requires p < |run| && guard.Valid() && guard.history == Calls(run, p)
    requires guard.clock <= Time(run[p]) && (run[p].Record? ==> 0.0 <= run[p].call.cost)
    modifies guard
    ensures guard.Valid() && guard.history == Calls(run, p + 1) && guard.clock == Time(run[p])
    ensures AnswersFromHistory(guard.limits, run, p, answer)
  {
    answer := Ok(());
    match run[p]
    case Check(now) =>
      CostGuard.TotalMeans(guard.history);
      answer := guard.CheckAllowed(now);
    case Record(call, _) => guard.RecordCall(call);
  }

  // ---- the hourly rate ----

  /** The records inside the closed hour that starts at `from`. */
  ghost function RecordsInHour(run: seq<Event>, from: real): set<nat> {
    set r: nat | r < |run| && run[r].Record? && from <= run[r].call.time <= from + HOUR
  }

  ghost function RecentRecords(run: seq<Event>, p: nat, now: real): set<nat>
    requires p <= |run|
  {
    set r: nat | r < p && IsRecent(run[r], now)
  }

  predicate IsRecent(e: Event, now: real) {
    e.Record? && e.call.time >= now - HOUR
  }

  lemma {:induction false} RecentCountsRecords(run: seq<Event>, p: nat, now: real)
    requires p <= |run|
    ensures |RecentRecords(run, p, now)| == Recent(Calls(run, p), now)
  {
    if p == 0 {
      assert RecentRecords(run, p, now) == {};
    } else {
      RecentCountsRecords(run, p - 1, now);
      RecentRecordsGrow(run, p - 1, now);
      OneMoreRecent(run[p - 1], Calls(run, p - 1), Calls(run, p), now);
    }
  }

  lemma OneMoreRecent(e: Event, calls: seq<Call>, more: seq<Call>, now: real)
    requires more == if e.Record? then calls + [e.call] else calls
    ensures Recent(more, now) == Recent(calls, now) + if IsRecent(e, now) then 1 else 0
  {
    if e.Record? { RecentPush(calls, e.call, now); }
  }

  lemma RecentPush(calls: seq<Call>, c: Call, now: real)
    ensures Recent(calls + [c], now) == Recent(calls, now) + if c.time >= now - HOUR then 1 else 0
  {
    assert (calls + [c])[..|calls|] == calls;
  }

  lemma RecentRecordsGrow(run: seq<Event>, p: nat, now: real)
    requires p < |run|
    ensures |RecentRecords(run, p + 1, now)| == |RecentRecords(run, p, now)| + if IsRecent(run[p], now) then 1 else 0
  {
    var before := RecentRecords(run, p, now);
    if IsRecent(run[p], now) {
      assert RecentRecords(run, p + 1, now) == before + {p};
    } else {
      assert RecentRecords(run, p + 1, now) == before;
    }
  }

  /** Of a non-empty set of records, one whose check came last. */
  lemma {:induction false} LatestCheck(run: seq<Event>, records: set<nat>) returns (latest: nat)
    requires records != {}
    requires forall r :: r in records ==> 0 <= r < |run| && run[r].Record?
    ensures latest in records
    ensures forall r :: r in records ==> run[r].check <= run[latest].check
  {
    var first: nat :| first in records;
    latest := first;
    var rest := records - {first};
    if rest != {} {
      var other := LatestCheck(run, rest);
      if run[other].check > run[first].check { latest := other; }
    }
    assert forall r :: r in records ==> r == first || r in rest;
  }

  lemma UnionBound(s: set<nat>, a: set<nat>, b: set<nat>)
    requires s <= a + b
    ensures |s| <= |a| + |b|
  {
    assert s == s * a + (s - a);
    SubsetBound(s * a, a);
    SubsetBound(s - a, b);
  }

  lemma {:induction false} SubsetBound(s: set<nat>, t: set<nat>)
    requires s <= t
    ensures |s| <= |t|
  {
    if s != {} {
      var x :| x in s;
      SubsetBound(s - {x}, t - {x});
    }
  }

  /**
   * With at most k calls between check and record, no closed hour holds more than limit + k - 1
   * records; sequential callers (k = 1) are held to exactly the limit.
   */
  lemma HourlyRateBound(limits: Limits, run: seq<Event>, k: nat, from: real)
    requires ClockMonotone(run) && Checked(limits, run) && AtMostInFlight(run, k)
    requires limits.perHour.Some?
    ensures RecordsInHour(run, from) != {} ==> |RecordsInHour(run, from)| <= limits.perHour.value + k - 1
  {
    var records := RecordsInHour(run, from);
    if records != {} {
      var latest := LatestCheck(run, records);
      var c := run[latest].check;
      AllowedMeansFewRecent(limits, run, c);
      RecordsSplitAtCheck(limits, run, from, latest);
      UnionBound(records, RecentRecords(run, c, run[c].now), InFlight(run, c + 1));
    }
  }

  lemma AllowedMeansFewRecent(limits: Limits, run: seq<Event>, c: nat)
    requires c < |run| && Allowed(limits, run, c) && limits.perHour.Some?
    ensures |RecentRecords(run, c, run[c].now)| < limits.perHour.value
  {
    RecentCountsRecords(run, c, run[c].now);
  }

  /** The records of an hour are seen by the last of their checks or in flight right after it. */
  lemma RecordsSplitAtCheck(limits: Limits, run: seq<Event>, from: real, latest: nat)
    requires ClockMonotone(run) && Checked(limits, run) && latest in RecordsInHour(run, from)
    requires forall r :: r in RecordsInHour(run, from) ==> run[r].check <= run[latest].check
    ensures var c := run[latest].check;
      RecordsInHour(run, from) <= RecentRecords(run, c, run[c].now) + InFlight(run, c + 1)
  {
    var c := run[latest].check;
    assert Allowed(limits, run, c);
    assert Time(run[c]) <= Time(run[latest]);
  }

  // ---- the daily budget ----

  /** Where the current day began: the first record of the current date. */
  function DayStart(run: seq<Event>, p: nat): (s: nat)
    requires p <= |run|
    ensures s <= p && (s > 0 ==> s < |run| && run[s].Record?)
  {
    if p == 0 then 0 else
      var calls := Calls(run, p - 1);
      match run[p - 1]
      case Check(_) => DayStart(run, p - 1)
      case Record(call, _) => if EarlierOn(calls, call.date) != [] then DayStart(run, p - 1) else p - 1
  }

  function Spent(run: seq<Event>, lo: nat, hi: nat): real
    requires lo <= hi <= |run|
  {
    if lo == hi then 0.0 else
      Spent(run, lo, hi - 1) + if run[hi - 1].Record? then run[hi - 1].call.cost else 0.0
  }

  /** A record adds its cost to the day it continues, or starts a day of its own. */
  lemma SpentByOneMore(run: seq<Event>, p: nat, calls: seq<Call>, start: nat)
    requires start <= p < |run| && run[p].Record? && DayTotal(calls) == Spent(run, start, p)
    ensures var call := run[p].call;
      DayTotal(calls + [call]) == Spent(run, if EarlierOn(calls, call.date) != [] then start else p, p + 1)
  {
    DayTotalPush(calls, run[p].call);
    assert Spent(run, p, p) == 0.0;
  }

  ghost predicate DayIsSpent(run: seq<Event>, p: nat, calls: seq<Call>, start: nat) {
    start <= p <= |run| && DayTotal(calls) == Spent(run, start, p)
  }

  lemma DayStep(run: seq<Event>, p: nat, calls: seq<Call>, start: nat)
    requires p < |run| && DayIsSpent(run, p, calls, start)
    ensures match run[p]
      case Check(_) => DayIsSpent(run, p + 1, calls, start)
      case Record(call, _) =>
        DayIsSpent(run, p + 1, calls + [call], if EarlierOn(calls, call.date) != [] then start else p)
  {
    if run[p].Record? { SpentByOneMore(run, p, calls, start); }
  }

  lemma {:induction false} DayTotalIsSpent(run: seq<Event>, p: nat)
    requires p <= |run|
    ensures DayIsSpent(run, p, Calls(run, p), DayStart(run, p))
  {
    if p == 0 {
    } else {
      DayTotalIsSpent(run, p - 1);
      DayStep(run, p - 1, Calls(run, p - 1), DayStart(run, p - 1));
    }
  }

  lemma {:induction false} SameDaySince(run: seq<Event>, q: nat, p: nat)
    requires p <= |run| && DayStart(run, p) < q <= p
    ensures DayStart(run, q) == DayStart(run, p)
    decreases p
  {
    if q == p {
    } else {
      SameDaySince(run, q, p - 1);
    }
  }

  lemma {:induction false} SpentSplits(run: seq<Event>, lo: nat, mid: nat, hi: nat)
    requires lo <= mid <= hi <= |run|
    ensures Spent(run, lo, hi) == Spent(run, lo, mid) + Spent(run, mid, hi)
    decreases hi
  {
    if mid == hi {
    } else {
      SpentSplits(run, lo, mid, hi - 1);
    }
  }

  ghost function Records(run: seq<Event>, lo: nat, hi: nat): set<nat>
    requires hi <= |run|
  {
    set r: nat | lo <= r < hi && run[r].Record?
  }

  ghost predicate CostsWithin(run: seq<Event>, most: real) {
    0.0 <= most && forall r :: 0 <= r < |run| && run[r].Record? ==> 0.0 <= run[r].call.cost <= most
  }

  lemma {:induction false} SpentBound(run: seq<Event>, lo: nat, hi: nat, most: real)
    requires lo <= hi <= |run| && CostsWithin(run, most)
    ensures 0.0 <= Spent(run, lo, hi) <= |Records(run, lo, hi)| as real * most
    decreases hi
  {
    if lo == hi {
    } else {
      SpentBound(run, lo, hi - 1, most);
      RecordsGrow(run, lo, hi - 1);
      OneMore(|Records(run, lo, hi - 1)|, most);
    }
  }

  lemma RecordsGrow(run: seq<Event>, lo: nat, hi: nat)
    requires lo <= hi < |run|
    ensures |Records(run, lo, hi + 1)| == |Records(run, lo, hi)| + if run[hi].Record? then 1 else 0
  {
    var before := Records(run, lo, hi);
    if run[hi].Record? {
      assert Records(run, lo, hi + 1) == before + {hi};
    } else {
      assert Records(run, lo, hi + 1) == before;
    }
  }

  lemma OneMore(n: nat, most: real)
    ensures (n + 1) as real * most == n as real * most + most
  {
  }

  lemma AtMostTimes(n: nat, k: nat, most: real)
    requires n <= k && 0.0 <= most
    ensures n as real * most <= k as real * most
  {
  }

  /** What in-flight calls can add: at most k of them, each within the cap. */
  lemma InFlightSpending(run: seq<Event>, lo: nat, hi: nat, at: nat, k: nat, most: real)
    requires lo <= hi <= |run| && at <= |run| && CostsWithin(run, most) && AtMostInFlight(run, k)
    requires Records(run, lo, hi) <= InFlight(run, at)
    ensures Spent(run, lo, hi) <= k as real * most
  {
    SubsetBound(Records(run, lo, hi), InFlight(run, at));
    assert |InFlight(run, at)| <= k;
    FewRecordsSpend(run, lo, hi, k, most);
  }

  lemma FewRecordsSpend(run: seq<Event>, lo: nat, hi: nat, k: nat, most: real)
    requires lo <= hi <= |run| && CostsWithin(run, most) && |Records(run, lo, hi)| <= k
    ensures Spent(run, lo, hi) <= k as real * most
  {
    SpentBound(run, lo, hi, most);
    AtMostTimes(|Records(run, lo, hi)|, k, most);
  }

  lemma {:induction false} CallsWithin(run: seq<Event>, p: nat, most: real)
    requires p <= |run| && CostsWithin(run, most)
    ensures forall i :: 0 <= i < |Calls(run, p)| ==> 0.0 <= Calls(run, p)[i].cost <= most
  {
    if p == 0 {
    } else {
      CallsWithin(run, p - 1, most);
    }
  }

  /** The total seen by an allowed check was below the limit, cents truncated or not. */
  lemma AllowedMeansBelowLimit(limits: Limits, run: seq<Event>, c: nat, most: real)
    requires limits.perDayCents.Some? && c < |run| && Allowed(limits, run, c) && CostsWithin(run, most)
    requires Fits(limits.perDayCents.value as real / 100.0 + most)
    ensures DayTotal(Calls(run, c)) < limits.perDayCents.value as real / 100.0
  {
    CallsWithin(run, c, most);
    NotReachedMeansBelow(limits, Calls(run, c), most);
  }

  function OverspendBound(limits: Limits, k: nat, most: real): real
    requires limits.perDayCents.Some?
  {
    limits.perDayCents.value as real / 100.0 + k as real * most
  }

  /**
   * With at most k calls between check and record, each costing at most `most`, the daily total
   * never passes the limit by more than k times that cost, across any sequence of dates.
   */
  lemma DailyOverspendBound(limits: Limits, run: seq<Event>, k: nat, most: real, p: nat)
    requires Checked(limits, run) && AtMostInFlight(run, k) && CostsWithin(run, most) && p <= |run|
    requires limits.perDayCents.Some? && Fits(limits.perDayCents.value as real / 100.0 + most)
    ensures 0.0 <= DayTotal(Calls(run, p)) <= OverspendBound(limits, k, most)
  {
    var s := DayStart(run, p);
    DayTotalIsSpent(run, p);
    SpentNonNegative(run, s, p, most);
    if Records(run, s, p) == {} {
      FewRecordsSpend(run, s, p, 0, most);
      BoundNonNegative(limits, k, most);
    } else {
      var latest := LatestCheck(run, Records(run, s, p));
      SpentToday(limits, run, k, most, p, latest);
    }
  }

  lemma SpentNonNegative(run: seq<Event>, lo: nat, hi: nat, most: real)
    requires lo <= hi <= |run| && CostsWithin(run, most)
    ensures 0.0 <= Spent(run, lo, hi)
  {
    SpentBound(run, lo, hi, most);
  }

  lemma BoundNonNegative(limits: Limits, k: nat, most: real)
    requires limits.perDayCents.Some? && 0.0 <= most
    ensures 0.0 <= OverspendBound(limits, k, most)
  {
    AtMostTimes(0, k, most);
  }

  /** The day's records are those seen by the latest of their checks and those in flight then. */
  lemma SpentToday(limits: Limits, run: seq<Event>, k: nat, most: real, p: nat, latest: nat)
    requires Checked(limits, run) && AtMostInFlight(run, k) && CostsWithin(run, most) && p <= |run|
    requires limits.perDayCents.Some? && Fits(limits.perDayCents.value as real / 100.0 + most)
    requires latest in Records(run, DayStart(run, p), p)
    requires forall r :: r in Records(run, DayStart(run, p), p) ==> run[r].check <= run[latest].check
    ensures Spent(run, DayStart(run, p), p) <= OverspendBound(limits, k, most)
  {
    var s, c := DayStart(run, p), run[latest].check;
    if c < s {
      assert Records(run, s, p) <= InFlight(run, s);
      InFlightSpending(run, s, p, s, k, most);
    } else {
      SpentAtCheck(limits, run, c, p, most);
      SpentAfterCheck(limits, run, c, p, k, most);
      SpentSplits(run, s, c, p);
    }
  }

  lemma SpentAfterCheck(limits: Limits, run: seq<Event>, c: nat, p: nat, k: nat, most: real)
    requires c < p <= |run| && Checked(limits, run) && AtMostInFlight(run, k) && CostsWithin(run, most)
    requires run[c].Check? && forall r :: r in Records(run, c, p) ==> run[r].check <= c
    ensures Spent(run, c, p) <= k as real * most
  {
    assert Records(run, c, p) <= InFlight(run, c + 1);
    InFlightSpending(run, c, p, c + 1, k, most);
  }

  /** At an allowed check of the current day, what the day had spent was below the limit. */
  lemma SpentAtCheck(limits: Limits, run: seq<Event>, c: nat, p: nat, most: real)
    requires c < p <= |run| && DayStart(run, p) <= c && Allowed(limits, run, c) && limits.perDayCents.Some?
    requires CostsWithin(run, most) && Fits(limits.perDayCents.value as real / 100.0 + most)
    ensures Spent(run, DayStart(run, p), c) < limits.perDayCents.value as real / 100.0
  {
    AllowedMeansBelowLimit(limits, run, c, most);
    if DayStart(run, p) < c { SameDaySince(run, c, p); }
    DayTotalIsSpent(run, c);
  }

  // ---- the block that does not lift ----

  /** The guard refuses every check, on any date, after these calls. */
  predicate Closed(limits: Limits, calls: seq<Call>) {
    LatchedBudget(limits, DayTotal(calls), Reached(limits, calls)).Some?
  }

  lemma ClosedMeansRefused(limits: Limits, run: seq<Event>, c: nat)
    requires c < |run| && Closed(limits, Calls(run, c))
    ensures !Allowed(limits, run, c)
  {
  }

  /** If every record needs an allowed check and nothing is allowed after these calls, nothing is recorded. */
  lemma {:induction false} NothingMore(run: seq<Event>, allowed: nat -> bool, p: nat, q: nat)
    requires p <= q <= |run| && InFlight(run, p) == {}
    requires forall r :: 0 <= r < |run| && run[r].Record? ==> run[r].check < r && allowed(run[r].check)
    requires forall c: nat :: p <= c < |run| && Calls(run, c) == Calls(run, p) ==> !allowed(c)
    ensures Calls(run, q) == Calls(run, p)
    decreases q
  {
    if p == q {
    } else {
      NothingMore(run, allowed, p, q - 1);
      if run[q - 1].Record? {
        assert q - 1 !in InFlight(run, p);
        NothingMore(run, allowed, p, run[q - 1].check);
      }
    }
  }

  /**
   * Only a record opens a new day, and a reached budget allows no record: once it is reached with
   * nothing in flight, no call is recorded ever again, whatever the dates.
   */
  lemma ReachedBudgetNeverLifts(limits: Limits, run: seq<Event>, p: nat, q: nat)
    requires Checked(limits, run) && p <= q <= |run| && InFlight(run, p) == {} && Closed(limits, Calls(run, p))
    ensures Calls(run, q) == Calls(run, p)
  {
    var allowed := (c: nat) => c < |run| && Allowed(limits, run, c);
    forall c: nat | p <= c < |run| && Calls(run, c) == Calls(run, p) ensures !allowed(c) {
      ClosedMeansRefused(limits, run, c);
    }
    NothingMore(run, allowed, p, q);
  }

  lemma {:induction false} CallsGrow(run: seq<Event>, p: nat, q: nat)
    requires p <= q <= |run|
    ensures |Calls(run, p)| <= |Calls(run, q)|
    decreases q
  {
    if p == q {
    } else {
      CallsGrow(run, p, q - 1);
    }
  }

  lemma LaterRecordGrows(run: seq<Event>, p: nat, r: nat)
    requires p <= r < |run| && run[r].Record?
    ensures |Calls(run, p)| < |Calls(run, |run|)|
  {
    CallsGrow(run, p, r);
    CallsGrow(run, r + 1, |run|);
    assert |Calls(run, r + 1)| == |Calls(run, r)| + 1;
  }

  /** After a reached budget, calls are recorded exactly if some were in flight. */
  lemma ReachedBudgetLiftsIff(limits: Limits, run: seq<Event>, p: nat)
    requires Checked(limits, run) && p <= |run| && Closed(limits, Calls(run, p))
    ensures Calls(run, |run|) == Calls(run, p) <==> InFlight(run, p) == {}
  {
    if InFlight(run, p) == {} {
      ReachedBudgetNeverLifts(limits, run, p, |run|);
    } else {
      var r: nat :| r in InFlight(run, p);
      LaterRecordGrows(run, p, r);
    }
  }

  /** The instance: one checked call that reaches the limit, after which every check is refused, however late. */
  lemma OneCallClosesForGood(call: Call, now: real)
    requires call.cost == 1.0 && call.time <= now
    ensures var limits, run := Limits(Some(1), None, None), [Check(call.time), Record(call, 0)];
      && Checked(limits, run) && InFlight(run, 2) == {} && Closed(limits, Calls(run, 2))
      && !Allowed(limits, run + [Check(now)], 2)
  {
    var limits, run := Limits(Some(1), None, None), [Check(call.time), Record(call, 0)];
    var longer := run + [Check(now)];
    CallsOfOne(call, run);
    CallsOfOne(call, longer);
    OneCallReaches(call, call.time);
    ClosedMeansRefused(limits, longer, 2);
  }

  lemma CallsOfOne(call: Call, run: seq<Event>)
    requires |run| >= 2 && run[0].Check? && run[1] == Record(call, 0)
    ensures Calls(run, 0) == [] && Calls(run, 2) == [call]
  {
    assert Calls(run, 1) == [];
  }
}
