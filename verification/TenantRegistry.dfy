/**
 * `TenantRateRegistry::get_or_create` under concurrency: a read-locked lookup, then a
 * write-locked second lookup and insertion, interleaved over any number of callers.
 */
module TenantRegistry {
  import opened Wrappers

  /** Where one caller is. `Inserting` holds the write lock. */
  datatype Progress = Started | Missed | Inserting | Returned(state: nat)

  datatype Caller = Caller(user: string, progress: Progress)

  /** The shared map, the number of states created so far, the write lock and the callers. */
  datatype Registry = Registry(states: map<string, nat>, created: nat, writer: Option<nat>, callers: map<nat, Caller>)

  /** A caller arrives, or some caller takes its next step. */
  datatype Action = Arrive(id: nat, user: string) | Step(id: nat)

  function Moved(r: Registry, c: nat, p: Progress): Registry
    requires c in r.callers
  {
    r.(callers := r.callers[c := r.callers[c].(progress := p)])
  }

  /** One action; an action that is not enabled, such as a lookup behind a writer, waits. */
  function Next(r: Registry, a: Action): Registry {
    match a
    case Arrive(c, user) =>
      if c in r.callers then r else r.(callers := r.callers[c := Caller(user, Started)])
    case Step(c) =>
      if c !in r.callers then r else
        var user := r.callers[c].user;
        match r.callers[c].progress
        case Started =>
          if r.writer.Some? then r
          else if user in r.states then Moved(r, c, Returned(r.states[user])) else Moved(r, c, Missed)
        case Missed =>
          if r.writer.Some? then r
          else if user in r.states then Moved(r, c, Returned(r.states[user])) else Moved(r.(writer := Some(c)), c, Inserting)
        case Inserting =>
          Moved(r.(states := r.states[user := r.created], created := r.created + 1, writer := None), c, Returned(r.created))
        case Returned(_) => r
  }

  function Run(actions: seq<Action>): Registry {
    if actions == [] then Registry(map[], 0, None, map[])
    else Next(Run(actions[..|actions| - 1]), actions[|actions| - 1])
  }

  /** States are numbered as created, one per user. */
  ghost predicate StatesOk(r: Registry) {
    && (forall u :: u in r.states ==> r.states[u] < r.created)
    && (forall u, v :: u in r.states && v in r.states && r.states[u] == r.states[v] ==> u == v)
  }

  /** Whoever is inserting holds the lock and has no entry; whoever returned has its user's state. */
  ghost predicate CallerOk(r: Registry, c: nat)
    requires c in r.callers
  {
    var Caller(user, progress) := r.callers[c];
    && (progress == Inserting <==> r.writer == Some(c))
    && (progress == Inserting ==> user !in r.states)
    && (progress.Returned? ==> user in r.states && r.states[user] == progress.state)
  }

  ghost predicate Inv(r: Registry) {
    StatesOk(r) && (r.writer.Some? ==> r.writer.value in r.callers) && forall c :: c in r.callers ==> CallerOk(r, c)
  }

  lemma NextKeepsInv(r: Registry, a: Action)
    requires Inv(r)
    ensures Inv(Next(r, a))
    ensures forall u :: u in r.states ==> u in Next(r, a).states && Next(r, a).states[u] == r.states[u]
  {
    var r' := Next(r, a);
    if a.id in r.callers { assert CallerOk(r, a.id); }
    forall c | c in r'.callers ensures CallerOk(r', c) {
      if c in r.callers { assert CallerOk(r, c); }
    }
  }

  lemma {:induction false} RunKeepsInv(actions: seq<Action>)
    ensures Inv(Run(actions))
  {
    if actions == [] {
    } else {
      RunKeepsInv(actions[..|actions| - 1]);
      NextKeepsInv(Run(actions[..|actions| - 1]), actions[|actions| - 1]);
    }
  }

  /** An entry once inserted is never replaced, however the run goes on. */
  lemma {:induction false} EntriesAreNeverReplaced(actions: seq<Action>, n: nat, user: string)
    requires n <= |actions| && user in Run(actions[..n]).states
    ensures user in Run(actions).states && Run(actions).states[user] == Run(actions[..n]).states[user]
    decreases |actions|
  {
    if n == |actions| {
      assert actions[..n] == actions;
    } else {
      var before := actions[..|actions| - 1];
      assert before[..n] == actions[..n];
      EntriesAreNeverReplaced(before, n, user);
      RunKeepsInv(before);
      NextKeepsInv(Run(before), actions[|actions| - 1]);
    }
  }

  /** In every interleaving, two callers get the same state exactly when they ask for one user. */
  lemma CallersShareByUser(actions: seq<Action>, c: nat, e: nat)
    requires var r := Run(actions);
      && c in r.callers && r.callers[c].progress.Returned?
      && e in r.callers && r.callers[e].progress.Returned?
    ensures var r := Run(actions);
      r.callers[c].progress.state == r.callers[e].progress.state <==> r.callers[c].user == r.callers[e].user
  {
    RunKeepsInv(actions);
    assert CallerOk(Run(actions), c) && CallerOk(Run(actions), e);
  }

  /** The lock is never stuck: while some caller has not returned, some step changes the registry. */
  lemma SomeoneCanMove(actions: seq<Action>, c: nat)
    requires var r := Run(actions); c in r.callers && !r.callers[c].progress.Returned?
    ensures var r := Run(actions); exists e :: e in r.callers && Next(r, Step(e)) != r
  {
    var r := Run(actions);
    RunKeepsInv(actions);
    var e := if r.writer.Some? then r.writer.value else c;
    assert CallerOk(r, e);
    assert Next(r, Step(e)).callers[e].progress != r.callers[e].progress;
  }
}
