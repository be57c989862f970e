/**
 * `CostGuard`: running totals, a lazily pruned window and a latched flag, each tied to the plain
 * history of recorded calls. Clock and date readings are parameters, one per call.
 */
module CostGuard {
  import opened Wrappers
  import opened CostHistory

  datatype DailyCost = DailyCost(total: real, resetDate: int)

  /** A ledger whose entries all carry the same reset date. */
  function Dated(m: map<string, real>, date: int): map<string, DailyCost> {
    map u | u in m :: DailyCost(m[u], date)
  }

  function Retained(m: map<string, DailyCost>, today: int): map<string, DailyCost> {
    map u | u in m && m[u].resetDate == today :: m[u]
  }

  const U32_MAX: nat := 0xFFFF_FFFF

  function SaturatingAdd(a: nat, b: nat): nat { if a + b > U32_MAX then U32_MAX else a + b }
  function SaturatingSub(a: nat, b: nat): nat { if a < b then 0 else a - b }

  datatype Usage = Usage(input: nat, output: nat, cacheRead: nat, cacheWrite: nat)
  datatype Rates = Rates(input: real, output: real, readDiscount: real, writeMultiplier: real)

  ghost predicate NonNegative(r: Rates) {
    0.0 <= r.input && 0.0 <= r.output && 0.0 <= r.readDiscount && 0.0 <= r.writeMultiplier
  }

  /** The cost of a call. It is never negative, and a call that used no tokens is free. */
  function CallCost(u: Usage, r: Rates): (cost: real)
    requires NonNegative(r)
    ensures 0.0 <= cost
    ensures u.cacheRead == u.cacheWrite == 0 ==> cost == r.input * u.input as real + r.output * u.output as real
    ensures u.cacheWrite == 0 && u.cacheRead == u.input <= U32_MAX && r.readDiscount == 0.0 ==>
      cost == r.input * u.input as real + r.output * u.output as real
    ensures u.cacheRead == 0 && u.cacheWrite == u.input <= U32_MAX && r.writeMultiplier == 1.0 ==>
      cost == r.input * u.input as real + r.output * u.output as real
  {
    var uncached := SaturatingSub(u.input, SaturatingAdd(u.cacheRead, u.cacheWrite));
    var discount := if r.readDiscount == 0.0 then 1.0 else r.readDiscount;
    var readCost := Quotient(Product(r.input, u.cacheRead as real), discount);
    var writeCost := Product(Product(r.input, u.cacheWrite as real), r.writeMultiplier);
    Product(r.input, uncached as real) + readCost + writeCost + Product(r.output, u.output as real)
  }

  function Product(a: real, b: real): (p: real)
    requires 0.0 <= a && 0.0 <= b
    ensures 0.0 <= p && (a == 0.0 || b == 0.0 ==> p == 0.0)
  {
    a * b
  }

  function Quotient(a: real, b: real): (q: real)
    requires 0.0 <= a && 0.0 < b
    ensures 0.0 <= q && (a == 0.0 ==> q == 0.0)
  {
    a / b
  }

  /** The per-user check with no shortcuts. A user with no call today is not limited, even by zero. */
  ghost function PlainUserCheck(limits: Limits, h: seq<Call>, user: string, now: real, today: int): Result<(), Exceeded> {
    var spent := ToCents(KeySum(EarlierOn(h, today), UserOf, user));
    if HistoryCheck(limits, h, now).Err? then HistoryCheck(limits, h, now)
    else if limits.perUserPerDayCents.Some? && HasKey(EarlierOn(h, today), UserOf, user)
            && spent >= limits.perUserPerDayCents.value then
      Err(UserDailyBudget(user, spent, limits.perUserPerDayCents.value))
    else Ok(())
  }

  /** The tokens that are neither read from nor written to the cache, if those counts do not overflow. */
  function Uncached(u: Usage): nat {
    if u.cacheRead + u.cacheWrite <= u.input then u.input - (u.cacheRead + u.cacheWrite) else 0
  }

  /** Cached reads cost the input rate divided by the discount; a discount of zero divides by nothing. */
  lemma ReadCost(n: nat, r: Rates)
    requires NonNegative(r) && n <= U32_MAX
    ensures var cost := CallCost(Usage(n, 0, n, 0), r);
      if r.readDiscount > 0.0 then cost * r.readDiscount == r.input * n as real else cost == r.input * n as real
  {
    if r.readDiscount > 0.0 { QuotientTimes(r.input * n as real, r.readDiscount); }
  }

  lemma QuotientTimes(a: real, b: real)
    requires b > 0.0
    ensures a / b * b == a
  {
  }

  /** Cache writes cost the input rate times the multiplier. */
  lemma WriteCost(n: nat, r: Rates)
    requires NonNegative(r) && n <= U32_MAX
    ensures CallCost(Usage(n, 0, 0, n), r) == r.input * n as real * r.writeMultiplier
  {
  }

  /** A call costs what its uncached, read, written and output tokens cost one by one. */
  lemma CostIsAdditive(u: Usage, r: Rates)
    requires NonNegative(r) && u.cacheRead + u.cacheWrite <= U32_MAX
    ensures CallCost(u, r) ==
      CallCost(Usage(Uncached(u), 0, 0, 0), r) + CallCost(Usage(u.cacheRead, 0, u.cacheRead, 0), r)
      + CallCost(Usage(u.cacheWrite, 0, 0, u.cacheWrite), r) + CallCost(Usage(0, u.output, 0, 0), r)
  {
  }

  /** Counts that overflow together saturate, and then no token is billed as uncached. */
  lemma OverflowingCacheCounts(u: Usage, r: Rates)
    requires NonNegative(r) && u.cacheRead + u.cacheWrite > U32_MAX >= u.input
    ensures CallCost(u, r) == CallCost(u.(input := 0), r)
  {
  }

  /**
   * The per-user check answers as the user's spending says exactly when the limit is not zero or
   * the user has a call today.
   */
  lemma UserLimitAppliesIff(limits: Limits, h: seq<Call>, user: string, now: real, today: int)
    requires HistoryCheck(limits, h, now).Ok? && limits.perUserPerDayCents.Some?
    ensures var spent := ToCents(KeySum(EarlierOn(h, today), UserOf, user));
      (PlainUserCheck(limits, h, user, now, today).Err? <==> spent >= limits.perUserPerDayCents.value) <==>
      limits.perUserPerDayCents.value > 0 || HasKey(EarlierOn(h, today), UserOf, user)
  {
    LedgerEntry(EarlierOn(h, today), UserOf, user);
  }

  /** The global answer comes first; then a refusal names the user, the spending of the day and the limit. */
  lemma UserCheckMeans(limits: Limits, h: seq<Call>, user: string, now: real, today: int)
    ensures var plain, r := HistoryCheck(limits, h, now), PlainUserCheck(limits, h, user, now, today);
      && (plain.Err? ==> r == plain)
      && (plain.Ok? && r.Err? ==> limits.perUserPerDayCents.Some?)
      && (plain.Ok? && r.Err? ==> r.error.UserDailyBudget? && r.error.user == user)
      && (plain.Ok? && r.Err? ==> r.error.spentCents == ToCents(KeySum(EarlierOn(h, today), UserOf, user)))
      && (plain.Ok? && r.Err? ==> r.error.limitCents == limits.perUserPerDayCents.value)
  {
  }

  /** The instance: a limit of zero lets a user's first call of the day through. */
  lemma ZeroUserLimitLetsOneThrough(user: string, now: real, today: int)
    ensures PlainUserCheck(Limits(None, None, Some(0)), [], user, now, today) == Ok(())
  {
  }

  /** What a guard with running totals knows after a history. */
  datatype Books = Books(total: real, date: Option<int>, users: map<string, real>, models: map<string, real>, times: seq<real>)

  function Post(b: Books, c: Call): Books {
    var sameDay := b.date == Some(c.date);
    var users := if sameDay then b.users else map[];
    Books((if sameDay then b.total else 0.0) + c.cost,
          Some(c.date),
          if c.user.None? then users else Charge(users, c.user.value, c.cost),
          Charge(b.models, c.model, c.cost),
          b.times + [c.time])
  }

  function BooksOf(h: seq<Call>): Books {
    if h == [] then Books(0.0, None, map[], map[], []) else Post(BooksOf(h[..|h| - 1]), h[|h| - 1])
  }

  lemma BooksPush(h: seq<Call>, c: Call)
    ensures BooksOf(h + [c]) == Post(BooksOf(h), c)
  {
    assert (h + [c])[..|h|] == h;
  }

  /** The running totals are the sums and ledgers of the current day and of the whole history. */
  lemma BooksMean(h: seq<Call>)
    ensures var b := BooksOf(h);
      && b.total == DayTotal(h) && b.date == (if h == [] then None else Some(h[|h| - 1].date))
      && b.users == Ledger(TodaysCalls(h), UserOf) && b.models == Ledger(h, ModelOf)
  {
    DayMeans(h);
    UsersAreLedger(h);
    ModelsAreLedger(h);
  }

  lemma {:induction false} DayMeans(h: seq<Call>)
    ensures BooksOf(h).total == DayTotal(h) && BooksOf(h).date == if h == [] then None else Some(h[|h| - 1].date)
  {
    if h == [] {
    } else {
      var rest, c := h[..|h| - 1], h[|h| - 1];
      DayMeans(rest);
      assert h == rest + [c];
      DayTotalPush(rest, c);
    }
  }

  lemma DateMeans(h: seq<Call>)
    ensures BooksOf(h).date == if h == [] then None else Some(h[|h| - 1].date)
  {
  }

  lemma {:induction false} UsersAreLedger(h: seq<Call>)
    ensures BooksOf(h).users == Ledger(TodaysCalls(h), UserOf)
  {
    if h == [] {
    } else {
      var rest, c := h[..|h| - 1], h[|h| - 1];
      UsersAreLedger(rest);
      DateMeans(rest);
      assert h == rest + [c];
      PostUsers(BooksOf(rest), c, EarlierOn(rest, c.date));
      TodaysCallsPush(rest, c);
    }
  }

  lemma PostUsers(b: Books, c: Call, earlier: seq<Call>)
    requires (if b.date == Some(c.date) then b.users else map[]) == Ledger(earlier, UserOf)
    ensures Post(b, c).users == Ledger(earlier + [c], UserOf)
  {
    LedgerPush(earlier, UserOf, c);
  }

  lemma {:induction false} ModelsAreLedger(h: seq<Call>)
    ensures BooksOf(h).models == Ledger(h, ModelOf)
  {
    if h == [] {
    } else {
      ModelsAreLedger(h[..|h| - 1]);
    }
  }

  lemma {:induction false} TimesMean(h: seq<Call>)
    ensures |BooksOf(h).times| == |h| && forall i :: 0 <= i < |h| ==> BooksOf(h).times[i] == h[i].time
  {
    if h == [] {
    } else {
      TimesMean(h[..|h| - 1]);
    }
  }

  lemma TotalMeans(h: seq<Call>)
    ensures BooksOf(h).total == DayTotal(h)
  {
    DayMeans(h);
  }

  /** The books with a new day opened, if the date is a new one. */
  function RolledTo(b: Books, date: int): Books {
    if b.date == Some(date) then b else b.(total := 0.0, date := Some(date), users := map[])
  }

  /** Calls are recorded in clock order, no later than `clock`, and never cost less than nothing. */
  ghost predicate HistoryOk(h: seq<Call>, clock: real) {
    if h == [] then 0.0 <= clock else
      var last := h[|h| - 1];
      0.0 <= last.cost && last.time <= clock && HistoryOk(h[..|h| - 1], last.time)
  }

  lemma LaterOk(h: seq<Call>, clock: real, now: real)
    requires HistoryOk(h, clock) && clock <= now
    ensures HistoryOk(h, now)
  {
  }

  lemma HistoryPush(h: seq<Call>, clock: real, c: Call)
    requires HistoryOk(h, clock) && clock <= c.time && 0.0 <= c.cost
    ensures HistoryOk(h + [c], c.time)
  {
    assert (h + [c])[..|h|] == h;
  }

  /** What one more call does to everything the guard is compared with. */
  lemma OneMoreCall(limits: Limits, h: seq<Call>, clock: real, c: Call)
    requires HistoryOk(h, clock) && clock <= c.time && 0.0 <= c.cost
    ensures HistoryOk(h + [c], c.time) && BooksOf(h + [c]) == Post(BooksOf(h), c)
    ensures Reached(limits, h + [c]) <==>
      (BooksOf(h).date == Some(c.date) && Reached(limits, h)) || BudgetExcess(limits, Post(BooksOf(h), c).total).Some?
  {
    HistoryPush(h, clock, c);
    BooksPush(h, c);
    ReachedPush(limits, h, c);
    DateMeans(h);
    DayMeans(h + [c]);
  }

  /** The window is the recorded times without the first `pruned`, which are over an hour old. */
  ghost predicate WindowOk(times: seq<real>, clock: real, window: seq<real>, pruned: nat) {
    && pruned <= |times| && window == times[pruned..]
    && (pruned > 0 ==> times[pruned - 1] < clock - HOUR)
  }

  /** The flag is set once the day has reached its limit; a limit of zero needs no call for that. */
  ghost predicate FlagOk(limits: Limits, total: real, flag: bool, reached: bool) {
    && (reached ==> flag && limits.perDayCents.Some?)
    && (flag || BudgetExcess(limits, total).Some? ==> reached || limits.perDayCents == Some(0))
  }

  lemma WindowGrows(times: seq<real>, clock: real, window: seq<real>, pruned: nat, now: real)
    requires WindowOk(times, clock, window, pruned) && clock <= now
    ensures WindowOk(times + [now], now, window + [now], pruned)
  {
  }

  lemma RetainedAcrossDays(m: map<string, real>, date: int, today: int)
    requires date != today
    ensures Retained(Dated(m, date), today) == map[]
  {
  }

  lemma DatedCharge(m: map<string, real>, u: string, cost: real, date: int)
    ensures Dated(Charge(m, u, cost), date) ==
      Dated(m, date)[u := DailyCost((if u in m then m[u] else 0.0) + cost, date)]
  {
  }

  class Guard {
    const limits: Limits

    var dailyTotal: real
    var resetDate: int
    var window: seq<real>
    var budgetExceeded: bool
    var modelCost: map<string, real>
    var perUser: map<string, DailyCost>

    ghost var history: seq<Call>
    ghost var books: Books
    ghost var clock: real
    ghost var pruned: nat
    ghost var reached: bool

    ghost predicate Valid()
      reads this
    {
      && HistoryOk(history, clock) && books == BooksOf(history) && Matches(books)
      && reached == Reached(limits, history)
    }

    /** The fields hold what the books say; the window may be pruned. */
    ghost predicate Matches(b: Books)
      reads this`dailyTotal, this`resetDate, this`window, this`budgetExceeded, this`modelCost, this`perUser, this`clock, this`pruned, this`reached
    {
      && dailyTotal == b.total && 0.0 <= dailyTotal
      && (b.date.None? ==> b.total == 0.0 && b.users == map[] && !reached)
      && (b.date.Some? ==> resetDate == b.date.value)
      && FlagOk(limits, dailyTotal, budgetExceeded, reached)
      && perUser == Dated(b.users, resetDate)
      && modelCost == b.models
      && WindowOk(b.times, clock, window, pruned)
    }

    constructor (limits: Limits, today: int, now: real)
      requires 0.0 <= now
      ensures Valid() && this.limits == limits && history == [] && clock == now
    {
      this.limits := limits;
      dailyTotal, resetDate, window, budgetExceeded := 0.0, today, [], false;
      modelCost, perUser := map[], map[];
      history, books, clock, pruned, reached := [], BooksOf([]), now, 0, false;
    }

    /** Drops the expired front of the window. */
    method Drain(now: real)
      requires Matches(books) && clock <= now
      modifies this`window, this`pruned, this`clock
      ensures Matches(books) && clock == now
      ensures now >= HOUR && |window| > 0 ==> window[0] >= now - HOUR
    {
      clock := now;
      if now >= HOUR {
        var cutoff := now - HOUR;
        while |window| > 0 && window[0] < cutoff
          invariant WindowOk(books.times, now, window, pruned) && clock == now
          decreases |window|
        {
          window, pruned := window[1..], pruned + 1;
        }
      }
    }

    method ActionsThisHour(now: real) returns (n: nat)
      requires Valid() && clock <= now
      modifies this`window, this`pruned, this`clock
      ensures Valid() && clock == now && n == Recent(history, now)
    {
      Drain(now);
      WindowIsLastHour(history, now, window, pruned);
      n := |window|;
    }

    /** The fast path on the latched flag, then the daily total itself. */
    method CheckBudget() returns (e: Option<Exceeded>)
      requires Matches(books)
      modifies this`budgetExceeded
      ensures Matches(books)
      ensures e == LatchedBudget(limits, dailyTotal, reached)
    {
      if budgetExceeded {
        return Some(DailyBudget(ToCents(dailyTotal), if limits.perDayCents.Some? then limits.perDayCents.value else 0));
      }
      if limits.perDayCents.Some? {
        var spent := ToCents(dailyTotal);
        if spent >= limits.perDayCents.value {
          budgetExceeded := true;
          return Some(DailyBudget(spent, limits.perDayCents.value));
        }
      }
      return None;
    }

    /**
     * `check_allowed`: for every history, the latched flag and the pruned window give the answer
     * of the guard that reads the whole history. The date is not consulted.
     */
    method CheckAllowed(now: real) returns (r: Result<(), Exceeded>)
      requires Valid() && clock <= now
      modifies this`budgetExceeded, this`window, this`pruned, this`clock
      ensures Valid() && clock == now
      ensures r == HistoryCheck(limits, history, now)
    {
      TotalMeans(history);
      var budget := CheckBudget();
      var rate := None;
      if budget.None? { rate := CheckRate(now); } else { Tick(now); }
      r := FirstExcess(budget, rate);
    }

    /** The hourly rate; with no limit the window is left alone. */
    method CheckRate(now: real) returns (e: Option<Exceeded>)
      requires Valid() && clock <= now
      modifies this`window, this`pruned, this`clock
      ensures Valid() && clock == now && e == RateExcess(limits, Recent(history, now))
    {
      if limits.perHour.None? {
        Tick(now);
        return None;
      }
      var count := ActionsThisHour(now);
      return if count >= limits.perHour.value then Some(HourlyRate(count, limits.perHour.value)) else None;
    }

    ghost method Tick(now: real)
      requires Valid() && clock <= now
      modifies this`clock
      ensures Valid() && clock == now
    {
      LaterOk(history, clock, now);
      clock := now;
    }

    /** A new day resets the total and the flag, and prunes the users of the day before. */
    method RollOver(today: int)
      requires Matches(books)
      modifies this`dailyTotal, this`resetDate, this`budgetExceeded, this`perUser, this`books, this`reached
      ensures books == RolledTo(old(books), today) && Matches(books) && resetDate == today
      ensures reached == (old(books).date == Some(today) && old(reached))
    {
      if today != resetDate {
        RetainedAcrossDays(books.users, resetDate, today);
        dailyTotal, resetDate, budgetExceeded, reached := 0.0, today, false, false;
        perUser := Retained(perUser, today);
      }
      books := RolledTo(books, today);
    }

    method AddCost(cost: real)
      requires FlagOk(limits, dailyTotal, budgetExceeded, reached) && 0.0 <= dailyTotal && 0.0 <= cost
      modifies this`dailyTotal, this`budgetExceeded, this`reached
      ensures dailyTotal == old(dailyTotal) + cost && FlagOk(limits, dailyTotal, budgetExceeded, reached)
      ensures reached == (old(reached) || BudgetExcess(limits, dailyTotal).Some?)
    {
      dailyTotal := dailyTotal + cost;
      if limits.perDayCents.Some? && ToCents(dailyTotal) >= limits.perDayCents.value {
        budgetExceeded, reached := true, true;
      }
    }

    /** The body of `record_llm_call`, on the books. */
    method PostToBooks(call: Call)
      requires Matches(books) && clock <= call.time && 0.0 <= call.cost && call.user.None?
      modifies this`dailyTotal, this`resetDate, this`budgetExceeded, this`perUser, this`window, this`modelCost, this`books, this`clock, this`reached
      ensures books == Post(old(books), call) && Matches(books) && clock == call.time && resetDate == call.date
      ensures reached ==
        ((old(books).date == Some(call.date) && old(reached)) || BudgetExcess(limits, books.total).Some?)
    {
      RollOver(call.date);
      AddCost(call.cost);
      WindowGrows(books.times, clock, window, pruned, call.time);
      window := window + [call.time];
      modelCost := Charge(modelCost, call.model, call.cost);
      books, clock := Post(books, call), call.time;
    }

    /** Recording with the cost already known: the global books, then the user's entry. */
    method RecordCall(call: Call)
      requires Valid() && clock <= call.time && 0.0 <= call.cost
      modifies this
      ensures Valid() && clock == call.time && history == old(history) + [call]
    {
      OneMoreCall(limits, history, clock, call);
      history := history + [call];
      RecordOnBooks(call);
    }

    /** The running totals, the window and the ledgers, with no look at the history. */
    method RecordOnBooks(call: Call)
      requires Matches(books) && clock <= call.time && 0.0 <= call.cost
      modifies this`dailyTotal, this`resetDate, this`budgetExceeded, this`perUser, this`window, this`modelCost, this`books, this`clock, this`reached
      ensures books == Post(old(books), call) && Matches(books) && clock == call.time
      ensures reached ==
        ((old(books).date == Some(call.date) && old(reached)) || BudgetExcess(limits, books.total).Some?)
    {
      PostToBooks(call.(user := None));
      if call.user.Some? { ChargeUser(call.user.value, call.cost, call.date); }
    }

    /** `record_llm_call`: the only place where a new day resets the totals. */
    method RecordLlmCall(model: string, usage: Usage, rates: Rates, today: int, now: real) returns (cost: real)
      requires Valid() && clock <= now && NonNegative(rates)
      modifies this
      ensures Valid() && clock == now && cost == CallCost(usage, rates)
      ensures history == old(history) + [Call(now, today, cost, model, None)]
    {
      cost := CallCost(usage, rates);
      RecordCall(Call(now, today, cost, model, None));
    }

    /** `record_llm_call_for_user`: the same, charged to the user's own daily ledger as well. */
    method RecordLlmCallForUser(user: string, model: string, usage: Usage, rates: Rates, today: int, now: real)
      returns (cost: real)
      requires Valid() && clock <= now && NonNegative(rates)
      modifies this
      ensures Valid() && clock == now && cost == CallCost(usage, rates)
      ensures history == old(history) + [Call(now, today, cost, model, Some(user))]
    {
      cost := CallCost(usage, rates);
      RecordCall(Call(now, today, cost, model, Some(user)));
    }

    method ChargeUser(user: string, cost: real, today: int)
      requires Matches(books) && books.date == Some(today)
      modifies this`perUser, this`books
      ensures books == old(books).(users := Charge(old(books).users, user, cost)) && Matches(books)
    {
      var entry := if user in perUser then perUser[user] else DailyCost(0.0, today);
      if today != entry.resetDate { entry := DailyCost(0.0, today); }
      DatedCharge(books.users, user, cost, today);
      perUser := perUser[user := DailyCost(entry.total + cost, entry.resetDate)];
      books := books.(users := Charge(books.users, user, cost));
    }

    /** `check_allowed_for_user`: the global limits first, then the user's own daily budget. */
    method CheckAllowedForUser(user: string, now: real, today: int) returns (r: Result<(), Exceeded>)
      requires Valid() && clock <= now
      modifies this`budgetExceeded, this`window, this`pruned, this`clock
      ensures Valid() && clock == now
      ensures r == PlainUserCheck(limits, history, user, now, today)
    {
      r := CheckAllowed(now);
      UsersMean(history, resetDate, user, today);
      if r.Ok? && limits.perUserPerDayCents.Some? && user in perUser && perUser[user].resetDate == today {
        var spent := ToCents(perUser[user].total);
        if spent >= limits.perUserPerDayCents.value {
          r := Err(UserDailyBudget(user, spent, limits.perUserPerDayCents.value));
        }
      }
    }

    method DailySpend(today: int) returns (spent: real)
      requires Valid()
      ensures spent == Sum(EarlierOn(history, today))
    {
      BooksMean(history);
      spent := if today != resetDate then 0.0 else dailyTotal;
    }

    method DailySpendForUser(user: string, today: int) returns (spent: real)
      requires Valid()
      ensures spent == KeySum(EarlierOn(history, today), UserOf, user)
    {
      UsersMean(history, resetDate, user, today);
      spent := if user in perUser && perUser[user].resetDate == today then perUser[user].total else 0.0;
    }

    ghost function UserTotals(): map<string, real>
      reads this`perUser
    {
      map u | u in perUser :: perUser[u].total
    }

    /**
     * In every reachable state the per-user entries carry the global reset date and add up, with
     * the unattributed calls, to the daily total; the per-model costs add up to all costs ever.
     */
    lemma LedgersConserve()
      requires Valid()
      ensures forall u :: u in perUser ==> perUser[u].resetDate == resetDate
      ensures SumValues(UserTotals()) + Unkeyed(TodaysCalls(history), UserOf) == dailyTotal
      ensures SumValues(modelCost) == Sum(history)
    {
      BooksMean(history);
      assert UserTotals() == books.users;
      LedgerConserves(TodaysCalls(history), UserOf);
      LedgerConserves(history, ModelOf);
      EveryCallHasAModel(history);
    }

    /** When every call went through the per-user entry point, nothing is unattributed. */
    lemma UserLedgerIsDailyTotal()
      requires Valid() && forall i :: 0 <= i < |history| ==> history[i].user.Some?
      ensures SumValues(UserTotals()) == dailyTotal
    {
      LedgersConserve();
      AllAttributed(history);
    }
  }

  /** What a dated ledger says about one user today. */
  lemma UsersMean(h: seq<Call>, resetDate: int, user: string, today: int)
    requires h != [] ==> resetDate == h[|h| - 1].date
    ensures var perUser := Dated(BooksOf(h).users, resetDate);
      var current := user in perUser && perUser[user].resetDate == today;
      && (current <==> HasKey(EarlierOn(h, today), UserOf, user))
      && KeySum(EarlierOn(h, today), UserOf, user) == if current then perUser[user].total else 0.0
  {
    BooksMean(h);
    LedgerEntry(TodaysCalls(h), UserOf, user);
  }

  lemma {:induction false} EveryCallHasAModel(h: seq<Call>)
    ensures Unkeyed(h, ModelOf) == 0.0
  {
    if h == [] {
    } else {
      EveryCallHasAModel(h[..|h| - 1]);
    }
  }

  lemma {:induction false} AllAttributed(h: seq<Call>)
    requires forall i :: 0 <= i < |h| ==> h[i].user.Some?
    ensures Unkeyed(TodaysCalls(h), UserOf) == 0.0
  {
    if h == [] {
    } else {
      var rest, c := h[..|h| - 1], h[|h| - 1];
      AllAttributed(rest);
      assert h == rest + [c];
      TodaysCallsPush(rest, c);
      var earlier := EarlierOn(rest, c.date);
      assert (earlier + [c])[..|earlier|] == earlier;
    }
  }

  /** A pruned window with no expired front is exactly the calls of the last hour. */
  lemma WindowIsLastHour(h: seq<Call>, now: real, window: seq<real>, pruned: nat)
    requires HistoryOk(h, now) && WindowOk(BooksOf(h).times, now, window, pruned)
    requires now >= HOUR && |window| > 0 ==> window[0] >= now - HOUR
    ensures |window| == Recent(h, now)
  {
    TimesMean(h);
    forall i | 0 <= i < |h| ensures 0.0 <= h[i].time { TimesInRange(h, now, i); }
    RecentIsSuffix(h, now, pruned, now);
  }

  lemma {:induction false} TimesInRange(h: seq<Call>, clock: real, i: nat)
    requires HistoryOk(h, clock) && i < |h|
    ensures 0.0 <= h[i].time <= clock
  {
    var rest, last := h[..|h| - 1], h[|h| - 1];
    if i == |rest| {
    } else {
      TimesInRange(rest, last.time, i);
    }
    if rest == [] {
    } else {
      TimesInRange(rest, last.time, 0);
    }
  }

  /** If the p-th call is the first of the last hour, the last hour holds the calls from p on. */
  lemma {:induction false} RecentIsSuffix(h: seq<Call>, clock: real, p: nat, now: real)
    requires HistoryOk(h, clock) && p <= |h|
    requires p > 0 ==> h[p - 1].time < now - HOUR
    requires p < |h| ==> h[p].time >= now - HOUR
    ensures Recent(h, now) == |h| - p
    ensures p < |h| ==> h[|h| - 1].time >= now - HOUR
  {
    if h == [] {
    } else {
      var rest, last := h[..|h| - 1], h[|h| - 1];
      RecentIsSuffix(rest, last.time, if p == |h| then p - 1 else p, now);
    }
  }
}
