/** The plain record of model calls, and what the cost guard is meant to know about it. */
module CostHistory {
  import opened Wrappers

  /** One recorded call: when, on which UTC day, at what cost, for which model and user. */
  datatype Call = Call(time: real, date: int, cost: real, model: string, user: Option<string>)

  const HOUR: real := 3600.0
  const U64_MAX: int := 0xFFFF_FFFF_FFFF_FFFF

  function Sum(calls: seq<Call>): real {
    if calls == [] then 0.0 else Sum(calls[..|calls| - 1]) + calls[|calls| - 1].cost
  }

  /** The calls of the current day: the longest run of last calls that share one date. */
  function TodaysCalls(h: seq<Call>): seq<Call> {
    if h == [] then [] else
      var last := |h| - 1;
      if last > 0 && h[last - 1].date == h[last].date then TodaysCalls(h[..last]) + [h[last]] else [h[last]]
  }

  function DayTotal(h: seq<Call>): real {
    Sum(TodaysCalls(h))
  }

  /** How many calls were recorded in the hour that ends now. */
  function Recent(h: seq<Call>, now: real): nat {
    if h == [] then 0 else
      Recent(h[..|h| - 1], now) + if h[|h| - 1].time >= now - HOUR then 1 else 0
  }

  function UserOf(c: Call): Option<string> { c.user }
  function ModelOf(c: Call): Option<string> { Some(c.model) }

  /** The cost of the calls that carry key k. */
  function KeySum(calls: seq<Call>, key: Call -> Option<string>, k: string): real {
    if calls == [] then 0.0 else
      KeySum(calls[..|calls| - 1], key, k) + if key(calls[|calls| - 1]) == Some(k) then calls[|calls| - 1].cost else 0.0
  }

  ghost predicate HasKey(calls: seq<Call>, key: Call -> Option<string>, k: string) {
    exists i :: 0 <= i < |calls| && key(calls[i]) == Some(k)
  }

  /** The cost of the calls that carry no key. */
  function Unkeyed(calls: seq<Call>, key: Call -> Option<string>): real {
    if calls == [] then 0.0 else
      Unkeyed(calls[..|calls| - 1], key) + if key(calls[|calls| - 1]).None? then calls[|calls| - 1].cost else 0.0
  }

  /** The running ledger: each call is added to the entry of its key. */
  function Ledger(calls: seq<Call>, key: Call -> Option<string>): map<string, real> {
    if calls == [] then map[] else
      var m, c := Ledger(calls[..|calls| - 1], key), calls[|calls| - 1];
      if key(c).None? then m else Charge(m, key(c).value, c.cost)
  }

  function Charge(m: map<string, real>, k: string, cost: real): map<string, real> {
    m[k := (if k in m then m[k] else 0.0) + cost]
  }

  /** `to_cents`: whole cents, truncated; amounts that do not parse as u64 read as zero. */
  function ToCents(usd: real): (cents: nat)
    ensures Fits(usd) ==> cents as real <= 100.0 * usd < cents as real + 1.0
    ensures !Fits(usd) ==> cents == 0
  {
    if usd < 0.0 || (usd * 100.0).Floor > U64_MAX then 0 else (usd * 100.0).Floor
  }

  predicate Fits(usd: real) {
    0.0 <= usd && (usd * 100.0).Floor <= U64_MAX
  }

  datatype Limits = Limits(perDayCents: Option<nat>, perHour: Option<nat>, perUserPerDayCents: Option<nat>)

  datatype Exceeded =
    | DailyBudget(spentCents: nat, limitCents: nat)
    | HourlyRate(actions: nat, limit: nat)
    | UserDailyBudget(user: string, spentCents: nat, limitCents: nat)

  function BudgetExcess(limits: Limits, total: real): Option<Exceeded> {
    if limits.perDayCents.Some? && ToCents(total) >= limits.perDayCents.value
    then Some(DailyBudget(ToCents(total), limits.perDayCents.value)) else None
  }

  /** A total past the u64 range of cents reads as zero, so no positive limit can stop it. */
  lemma OverflowDisarmsTheBudget(limits: Limits, total: real)
    requires limits.perDayCents.Some? && 0.0 <= total
    ensures BudgetExcess(limits, total).None? <==>
      limits.perDayCents.value > 0 && (Fits(total) ==> 100.0 * total < limits.perDayCents.value as real)
  {
    var cents := ToCents(total);
    if Fits(total) {
      assert cents < limits.perDayCents.value <==> 100.0 * total < limits.perDayCents.value as real;
    }
  }

  function RateExcess(limits: Limits, actions: nat): Option<Exceeded> {
    if limits.perHour.Some? && actions >= limits.perHour.value
    then Some(HourlyRate(actions, limits.perHour.value)) else None
  }

  /** The guard with no shortcuts: it reads the whole history at every check. */
  function PlainCheck(limits: Limits, h: seq<Call>, now: real): Result<(), Exceeded> {
    FirstExcess(BudgetExcess(limits, DayTotal(h)), RateExcess(limits, Recent(h, now)))
  }

  function FirstExcess(budget: Option<Exceeded>, rate: Option<Exceeded>): Result<(), Exceeded> {
    if budget.Some? then Err(budget.value) else if rate.Some? then Err(rate.value) else Ok(())
  }

  /** Some total of the current day, up to the last call, read as over the limit. */
  function Reached(limits: Limits, h: seq<Call>): bool {
    h != [] &&
    (|| BudgetExcess(limits, DayTotal(h)).Some?
     || (|h| > 1 && h[|h| - 2].date == h[|h| - 1].date && Reached(limits, h[..|h| - 1])))
  }

  function LatchedBudget(limits: Limits, total: real, reached: bool): Option<Exceeded> {
    if limits.perDayCents.Some? && (reached || ToCents(total) >= limits.perDayCents.value)
    then Some(DailyBudget(ToCents(total), limits.perDayCents.value)) else None
  }

  /** The guard with no shortcuts that keeps a day closed once its budget was seen to be reached. */
  function HistoryCheck(limits: Limits, h: seq<Call>, now: real): Result<(), Exceeded> {
    FirstExcess(LatchedBudget(limits, DayTotal(h), Reached(limits, h)), RateExcess(limits, Recent(h, now)))
  }

  lemma ReachedPush(limits: Limits, h: seq<Call>, c: Call)
    ensures Reached(limits, h + [c]) <==>
      || BudgetExcess(limits, DayTotal(h + [c])).Some?
      || (h != [] && h[|h| - 1].date == c.date && Reached(limits, h))
  {
    assert (h + [c])[..|h|] == h;
  }

  /** While totals stay in the u64 range of cents, a budget once reached stays reached. */
  lemma {:induction false} ReachedStays(limits: Limits, h: seq<Call>)
    requires (forall i :: 0 <= i < |h| ==> 0.0 <= h[i].cost) && Reached(limits, h) && Fits(DayTotal(h))
    ensures BudgetExcess(limits, DayTotal(h)).Some?
  {
    if BudgetExcess(limits, DayTotal(h)).None? {
      var rest, c := h[..|h| - 1], h[|h| - 1];
      assert h == rest + [c];
      DayTotalPush(rest, c);
      SumNonNegative(TodaysCalls(rest), rest);
      CentsGrow(DayTotal(rest), DayTotal(h));
      ReachedStays(limits, rest);
      assert false;
    }
  }

  lemma CentsGrow(a: real, b: real)
    requires 0.0 <= a <= b && Fits(b)
    ensures Fits(a) && ToCents(a) <= ToCents(b)
  {
  }

  lemma {:induction false} SumNonNegative(calls: seq<Call>, h: seq<Call>)
    requires (forall i :: 0 <= i < |h| ==> 0.0 <= h[i].cost) && calls == TodaysCalls(h)
    ensures 0.0 <= Sum(calls)
    decreases |h|
  {
    if h == [] {
    } else {
      var rest, c := h[..|h| - 1], h[|h| - 1];
      assert h == rest + [c];
      DayTotalPush(rest, c);
      SumNonNegative(TodaysCalls(rest), rest);
    }
  }

  /**
   * The latched answer is that of the plain sum exactly as long as no day that has reached its
   * budget goes on to a total past the u64 range of cents.
   */
  lemma LatchMattersIff(limits: Limits, h: seq<Call>, now: real)
    requires forall i :: 0 <= i < |h| ==> 0.0 <= h[i].cost
    ensures HistoryCheck(limits, h, now) == PlainCheck(limits, h, now) <==>
      !Reached(limits, h) || Fits(DayTotal(h)) || limits.perDayCents == Some(0)
  {
    SumNonNegative(TodaysCalls(h), h);
    if Reached(limits, h) && Fits(DayTotal(h)) { ReachedStays(limits, h); }
    if Reached(limits, h) { ReachedNeedsALimit(limits, h); }
  }

  lemma {:induction false} ReachedNeedsALimit(limits: Limits, h: seq<Call>)
    requires Reached(limits, h)
    ensures limits.perDayCents.Some?
  {
    if BudgetExcess(limits, DayTotal(h)).None? { ReachedNeedsALimit(limits, h[..|h| - 1]); }
  }

  /**
   * While no single call can carry a total from below the limit past the u64 range of cents, a
   * budget that was never seen to be reached was never reached.
   */
  lemma {:induction false} NotReachedMeansBelow(limits: Limits, h: seq<Call>, most: real)
    requires limits.perDayCents.Some? && limits.perDayCents.value > 0 && !Reached(limits, h)
    requires forall i :: 0 <= i < |h| ==> 0.0 <= h[i].cost <= most
    requires 0.0 <= most && Fits(limits.perDayCents.value as real / 100.0 + most)
    ensures 0.0 <= DayTotal(h) < limits.perDayCents.value as real / 100.0
  {
    if h == [] {
    } else {
      var rest, c := h[..|h| - 1], h[|h| - 1];
      assert h == rest + [c];
      DayTotalPush(rest, c);
      SumNonNegative(TodaysCalls(h), h);
      if EarlierOn(rest, c.date) != [] {
        ReachedPush(limits, rest, c);
        NotReachedMeansBelow(limits, rest, most);
      }
      CentsGrow(DayTotal(h), limits.perDayCents.value as real / 100.0 + most);
      NotInExcessMeansBelow(limits, DayTotal(h));
    }
  }

  lemma NotInExcessMeansBelow(limits: Limits, total: real)
    requires limits.perDayCents.Some? && BudgetExcess(limits, total).None? && Fits(total)
    ensures total < limits.perDayCents.value as real / 100.0
  {
    var cents := ToCents(total);
    assert cents + 1 <= limits.perDayCents.value;
    assert 100.0 * total < cents as real + 1.0;
  }

  /** The instance: one call past the range is not seen at all. */
  lemma HugeCallIsNotSeen(call: Call, now: real)
    requires call.cost == 1.0e18
    ensures HistoryCheck(Limits(Some(1), None, None), [call], now) == Ok(()) && DayTotal([call]) > 0.01
  {
    DayTotalPush([], call);
    assert [] + [call] == [call];
    assert DayTotal([call]) == 1.0e18;
  }

  /** A call of a dollar on an empty day reaches a limit of one cent. */
  lemma OneCallReaches(call: Call, now: real)
    requires call.cost == 1.0
    ensures var limits := Limits(Some(1), None, None);
      HistoryCheck(limits, [], now).Ok? && LatchedBudget(limits, DayTotal([call]), Reached(limits, [call])).Some?
  {
    DayTotalPush([], call);
    assert [] + [call] == [call] && DayTotal([call]) == 1.0;
    assert ToCents(1.0) == 100 && ToCents(DayTotal([])) == 0;
  }

  /** The instance: two calls on one day, the first past a limit of one cent, the second past the u64 range. */
  lemma LatchOutlivesTheSum(first: Call, second: Call, now: real)
    requires first.date == second.date && first.cost == 1.0 && second.cost == 1.0e18
    ensures var limits := Limits(Some(1), None, None);
      && HistoryCheck(limits, [first, second], now) == Err(DailyBudget(0, 1))
      && PlainCheck(limits, [first, second], now) == Ok(())
  {
    var limits, h := Limits(Some(1), None, None), [first, second];
    assert h[..1] == [first] && [first][..0] == [];
    DayTotalPush([], first);
    assert [] + [first] == [first];
    DayTotalPush([first], second);
    assert [first] + [second] == h;
    assert EarlierOn([first], second.date) == [first];
    assert DayTotal([first]) == 1.0 && DayTotal(h) == 1.0e18 + 1.0;
    assert ToCents(DayTotal([first])) == 100;
    assert Reached(limits, [first]) && Reached(limits, h);
  }

  /** A check refuses for the budget first, then for the rate, and says by how much. */
  lemma CheckMeans(limits: Limits, h: seq<Call>, now: real)
    ensures var closed := limits.perDayCents.Some? && (Reached(limits, h) || ToCents(DayTotal(h)) >= limits.perDayCents.value);
      var busy := limits.perHour.Some? && Recent(h, now) >= limits.perHour.value;
      var r := HistoryCheck(limits, h, now);
      && (closed ==> r == Err(DailyBudget(ToCents(DayTotal(h)), limits.perDayCents.value)))
      && (!closed && busy ==> r == Err(HourlyRate(Recent(h, now), limits.perHour.value)))
      && (!closed && !busy ==> r == Ok(()))
  {
  }

  /** The current day is the longest tail of the history with the last call's date. */
  lemma {:induction false} DayBegins(h: seq<Call>) returns (s: nat)
    requires h != []
    ensures IsDay(h, s) && TodaysCalls(h) == h[s..]
  {
    var last := |h| - 1;
    if last == 0 || h[last - 1].date != h[last].date {
      s := last;
    } else {
      var before := h[..last];
      s := DayBegins(before);
      assert h[s..] == before[s..] + [h[last]];
    }
  }

  ghost predicate IsDay(h: seq<Call>, s: nat) {
    && s < |h| && (forall i :: s <= i < |h| ==> h[i].date == h[|h| - 1].date)
    && (s > 0 ==> h[s - 1].date != h[|h| - 1].date)
  }

  // ---- one more call ----

  lemma SumPush(calls: seq<Call>, c: Call)
    ensures Sum(calls + [c]) == Sum(calls) + c.cost
  {
    assert (calls + [c])[..|calls|] == calls;
  }

  /** The calls already recorded on the given date, if it is the current one. */
  function EarlierOn(h: seq<Call>, date: int): seq<Call> {
    if h != [] && h[|h| - 1].date == date then TodaysCalls(h) else []
  }

  lemma TodaysCallsPush(h: seq<Call>, c: Call)
    ensures TodaysCalls(h + [c]) == EarlierOn(h, c.date) + [c]
  {
    assert (h + [c])[..|h|] == h;
  }

  lemma DayTotalPush(h: seq<Call>, c: Call)
    ensures DayTotal(h + [c]) == Sum(EarlierOn(h, c.date)) + c.cost
    ensures TodaysCalls(h + [c]) != []
  {
    TodaysCallsPush(h, c);
    SumPush(EarlierOn(h, c.date), c);
  }

  lemma LedgerPush(calls: seq<Call>, key: Call -> Option<string>, c: Call)
    ensures Ledger(calls + [c], key) ==
      if key(c).None? then Ledger(calls, key) else Charge(Ledger(calls, key), key(c).value, c.cost)
  {
    assert (calls + [c])[..|calls|] == calls;
  }

  /** The ledger has an entry for exactly the keys that occur, holding the cost of their calls. */
  lemma {:induction false} LedgerEntry(calls: seq<Call>, key: Call -> Option<string>, k: string)
    ensures k in Ledger(calls, key) <==> HasKey(calls, key, k)
    ensures KeySum(calls, key, k) == if k in Ledger(calls, key) then Ledger(calls, key)[k] else 0.0
  {
    if calls == [] {
    } else {
      var rest, c := calls[..|calls| - 1], calls[|calls| - 1];
      LedgerEntry(rest, key, k);
      if HasKey(rest, key, k) {
        var i :| 0 <= i < |rest| && key(rest[i]) == Some(k);
        assert key(calls[i]) == Some(k);
      }
    }
  }

  // ---- conservation ----

  ghost function SumValues(m: map<string, real>): real
    decreases m.Keys
  {
    if m.Keys == {} then 0.0 else
      var k :| k in m.Keys;
      m[k] + SumValues(m - {k})
  }

  lemma {:induction false} SumValuesSplit(m: map<string, real>, k: string)
    requires k in m
    ensures SumValues(m) == m[k] + SumValues(m - {k})
    decreases m.Keys
  {
    var first :| first in m.Keys && SumValues(m) == m[first] + SumValues(m - {first});
    if k == first {
    } else {
      SumValuesSplit(m - {first}, k);
      SumValuesSplit(m - {k}, first);
      assert m - {first} - {k} == m - {k} - {first};
    }
  }

  lemma SumValuesCharge(m: map<string, real>, k: string, cost: real)
    ensures SumValues(Charge(m, k, cost)) == SumValues(m) + cost
  {
    var m' := Charge(m, k, cost);
    SumValuesSplit(m', k);
    if k in m {
      SumValuesSplit(m, k);
      assert m' - {k} == m - {k};
    } else {
      assert m' - {k} == m;
    }
  }

  /** The entries of a ledger add up to the cost of all calls that carry a key. */
  lemma {:induction false} LedgerConserves(calls: seq<Call>, key: Call -> Option<string>)
    ensures SumValues(Ledger(calls, key)) + Unkeyed(calls, key) == Sum(calls)
  {
    if calls == [] {
    } else {
      var rest, c := calls[..|calls| - 1], calls[|calls| - 1];
      LedgerConserves(rest, key);
      if key(c).Some? { SumValuesCharge(Ledger(rest, key), key(c).value, c.cost); }
    }
  }
}
