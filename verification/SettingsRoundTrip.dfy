/** `to_db_map` and `from_db_map`: what a settings tree becomes after a trip through the database. */
module SettingsRoundTrip {
  import opened Wrappers
  import opened JsonTree
  import opened DottedPaths
  import opened SettingsDb

  const OWNER := "owner_id"

  // ---- the leaves of a tree ----

  function Lookup(t: Json, p: Path): Option<Json> {
    if p == [] then Some(t)
    else if Field(t, p[0]).None? then None
    else Lookup(t.fields[p[0]], p[1..])
  }

  lemma LookupKey(t: Json, k: string)
    ensures Lookup(t, [k]) == Field(t, k)
  {
    assert [k][1..] == [];
  }

  predicate IsLeafPath(t: Json, p: Path) {
    Lookup(t, p).Some? && !Lookup(t, p).value.Obj?
  }

  /** Keys that dotted names can express: not empty and without dots, at every level. */
  ghost predicate WellKeyed(t: Json) {
    t.Obj? ==> forall k :: k in t.fields ==> k != "" && DotFree(k) && WellKeyed(t.fields[k])
  }

  ghost predicate WellKeyedPath(p: Path) {
    DotFreePath(p) && (p != [] ==> p[0] != "")
  }

  lemma {:induction false} LeafPathsWellKeyed(t: Json, p: Path)
    requires WellKeyed(t) && IsLeafPath(t, p)
    ensures WellKeyedPath(p)
    decreases |p|
  {
    if p == [] {
    } else {
      LeafPathsWellKeyed(t.fields[p[0]], p[1..]);
    }
  }

  lemma {:induction false} LeafPathsPrefixFree(t: Json, p: Path, q: Path)
    requires IsLeafPath(t, p) && IsLeafPath(t, q)
    ensures !(p < q)
    decreases |p|
  {
    if p != [] && p < q { LeafPathsPrefixFree(t.fields[p[0]], p[1..], q[1..]); }
  }

  // ---- flattening ----

  /** The dotted name s leads from `at` to a leaf of `value`. */
  predicate NamesLeaf(value: Json, at: Path, s: string) {
    at <= Split(s) && IsLeafPath(value, Split(s)[|at|..])
  }

  /** `out` is `results` overwritten by one row per leaf of `value`, named by its path from `at`. */
  ghost predicate Collected(out: map<string, Json>, results: map<string, Json>, value: Json, at: Path) {
    && (forall s :: s in out <==> s in results || NamesLeaf(value, at, s))
    && (forall s :: s in out ==>
          out[s] == if NamesLeaf(value, at, s) then Lookup(value, Split(s)[|at|..]).value else results[s])
  }

  function Restrict(t: Json, keys: set<string>): Json
    requires t.Obj?
  {
    Obj(map k | k in t.fields && k in keys :: t.fields[k])
  }

  /** Where dotted names can express the position of a value. */
  ghost predicate Nameable(value: Json, prefix: string, at: Path) {
    WellKeyed(value) && WellKeyedPath(at) && prefix == Join(at) && (at == [] ==> value.Obj?)
  }

  /** `collect_settings_json`, visiting the keys of an object in any order. */
  method CollectSettingsJson(value: Json, prefix: string, results: map<string, Json>, ghost at: Path)
    returns (out: map<string, Json>)
    ensures Nameable(value, prefix, at) ==> Collected(out, results, value, at)
    decreases value
  {
    if !value.Obj? {
      if Nameable(value, prefix, at) { CollectedLeaf(results, value, at); }
      return results[prefix := value];
    }
    ghost var ok := Nameable(value, prefix, at);
    out := results;
    var todo := value.fields.Keys;
    CollectedNothing(results, value, at);
    while todo != {}
      invariant todo <= value.fields.Keys
      invariant ok ==> Collected(out, results, Restrict(value, value.fields.Keys - todo), at)
      decreases todo
    {
      var key :| key in todo;
      ghost var before := out;
      out := CollectSettingsJson(value.fields[key], Extend(prefix, key), out, at + [key]);
      if ok { CollectedOneMore(out, before, results, value, prefix, todo, key, at); }
      todo := todo - {key};
    }
    assert Restrict(value, value.fields.Keys - todo) == value;
  }

  function Extend(prefix: string, key: string): string {
    if prefix == "" then key else prefix + "." + key
  }

  lemma CollectedOneMore(out: map<string, Json>, before: map<string, Json>, results: map<string, Json>,
                         value: Json, prefix: string, todo: set<string>, key: string, at: Path)
    requires value.Obj? && key in value.fields && key in todo && Nameable(value, prefix, at)
    requires Collected(before, results, Restrict(value, value.fields.Keys - todo), at)
    requires Nameable(value.fields[key], Extend(prefix, key), at + [key]) ==>
      Collected(out, before, value.fields[key], at + [key])
    ensures Collected(out, results, Restrict(value, value.fields.Keys - (todo - {key})), at)
  {
    NameableBelow(value, prefix, at, key);
    CollectedStep(out, before, results, value, value.fields.Keys - todo, key, at);
    assert value.fields.Keys - (todo - {key}) == (value.fields.Keys - todo) + {key};
  }

  lemma NameableBelow(value: Json, prefix: string, at: Path, key: string)
    requires Nameable(value, prefix, at) && value.Obj? && key in value.fields
    ensures Nameable(value.fields[key], Extend(prefix, key), at + [key])
  {
    if at == [] { assert at + [key] == [key]; } else { JoinPush(at, key); JoinNonEmpty(at); }
  }

  lemma CollectedLeaf(results: map<string, Json>, value: Json, at: Path)
    requires !value.Obj? && Nameable(value, Join(at), at)
    ensures Collected(results[Join(at) := value], results, value, at)
  {
    SplitJoin(at);
    forall s ensures NamesLeaf(value, at, s) <==> s == Join(at) {
      JoinSplit(s);
      LeafHasNoPaths(value, at, Split(s));
    }
  }

  lemma LeafHasNoPaths(value: Json, at: Path, p: Path)
    requires !value.Obj?
    ensures at <= p && IsLeafPath(value, p[|at|..]) <==> p == at
  {
    if at <= p {
      assert p == at + p[|at|..];
      assert IsLeafPath(value, p[|at|..]) <==> p[|at|..] == [];
    }
  }

  lemma CollectedNothing(results: map<string, Json>, value: Json, at: Path)
    requires value.Obj?
    ensures Collected(results, results, Restrict(value, value.fields.Keys - value.fields.Keys), at)
  {
  }

  lemma CollectedStep(out: map<string, Json>, before: map<string, Json>, results: map<string, Json>,
                      value: Json, done: set<string>, key: string, at: Path)
    requires value.Obj? && key in value.fields && key !in done
    requires Collected(before, results, Restrict(value, done), at)
    requires Collected(out, before, value.fields[key], at + [key])
    ensures Collected(out, results, Restrict(value, done + {key}), at)
  {
    var sub, first, both := value.fields[key], Restrict(value, done), Restrict(value, done + {key});
    forall s ensures NamesLeaf(both, at, s) <==> NamesLeaf(first, at, s) || NamesLeaf(sub, at + [key], s) {
      BelowOneKey(value, done, key, at, Split(s));
    }
    forall s | s in out
      ensures out[s] == if NamesLeaf(both, at, s) then Lookup(both, Split(s)[|at|..]).value else results[s]
    {
      BelowOneKey(value, done, key, at, Split(s));
    }
  }

  /** A path from `at` into the restriction with one more key. */
  lemma BelowOneKey(value: Json, done: set<string>, key: string, at: Path, p: Path)
    requires value.Obj? && key in value.fields && key !in done
    ensures at + [key] <= p <==> at <= p && |p| > |at| && p[|at|] == key
    ensures at + [key] <= p ==>
      Lookup(Restrict(value, done + {key}), p[|at|..]) == Lookup(value.fields[key], p[|at| + 1..])
    ensures at <= p && !(at + [key] <= p) ==>
      (IsLeafPath(Restrict(value, done + {key}), p[|at|..]) <==> IsLeafPath(Restrict(value, done), p[|at|..]))
      && (IsLeafPath(Restrict(value, done), p[|at|..]) ==>
            Lookup(Restrict(value, done + {key}), p[|at|..]) == Lookup(Restrict(value, done), p[|at|..]))
    ensures at + [key] <= p ==> !IsLeafPath(Restrict(value, done), p[|at|..])
  {
    if at <= p {
      var q := p[|at|..];
      if at + [key] <= p {
        assert q[0] == key && q[1..] == p[|at| + 1..];
      } else if q != [] {
        assert q[0] != key;
      }
    }
  }

  /** `to_db_map`. */
  method ToDbMap(t: Json) returns (db: map<string, Json>)
    ensures WellKeyed(t) && t.Obj? ==> IsDbMapOf(db, t)
  {
    var all := CollectSettingsJson(t, "", map[], []);
    db := all - {OWNER};
  }

  /** One row per leaf except the owner's, under the leaf's dotted name. */
  ghost predicate IsDbMapOf(db: map<string, Json>, t: Json) {
    && (forall s :: s in db <==> s != OWNER && IsLeafPath(t, Split(s)))
    && (forall s :: s in db ==> db[s] == Lookup(t, Split(s)).value)
  }

  // ---- rebuilding ----

  ghost function ByPath(db: map<string, Json>): (rows: Rows)
    ensures forall p :: p in rows <==> Join(p) in db && Split(Join(p)) == p
    ensures forall p :: p in rows ==> rows[p] == db[Join(p)]
  {
    assert forall s :: s in db ==> Join(Split(s)) == s by {
      forall s | s in db ensures Join(Split(s)) == s { JoinSplit(s); }
    }
    map p | p in (set s | s in db :: Split(s)) :: db[Join(p)]
  }

  lemma ByPathPush(done: map<string, Json>, key: string, v: Json)
    requires key !in done
    ensures Split(key) !in ByPath(done)
    ensures ByPath(done[key := v]) == ByPath(done)[Split(key) := v]
  {
    JoinSplit(key);
  }

  lemma ByPathMonotone(done: map<string, Json>, all: map<string, Json>)
    requires forall s :: s in done ==> s in all
    ensures PrefixFree(ByPath(all).Keys) ==> PrefixFree(ByPath(done).Keys)
  {
    assert forall p :: p in ByPath(done) ==> p in ByPath(all);
  }

  /** The rows applied so far, whatever their order. */
  ghost function Applied(db: map<string, Json>, todo: set<string>): map<string, Json> {
    map s | s in db && s !in todo && s != OWNER :: db[s]
  }

  /** Deserializing a tree and serializing it again; None if it does not fit the struct. */
  type Loader = Json -> Option<Json>

  ghost predicate PartOf(rows: Rows, all: Rows) {
    forall p :: p in rows ==> p in all && rows[p] == all[p]
  }

  /** Whichever of the rows have been applied, the struct holds the tree as it is. */
  ghost predicate Settles(codec: Codec, load: Loader, d: Json, all: Rows) {
    forall rows: Rows :: PartOf(rows, all) ==> load(Overlay(codec, d, [], rows)) == Some(Overlay(codec, d, [], rows))
  }

  /**
   * `from_db_map`, taking the rows in any order. Unless one row's name continues another's or the
   * struct does not hold what the rows say, the result does not depend on the order: it is the
   * overlay of all rows on the defaults.
   */
  method FromDbMap(codec: Codec, load: Loader, defaults: Json, db: map<string, Json>) returns (t: Json)
    ensures Orderless(codec, load, defaults, db) ==> Rebuilt(codec, defaults, db, {}, t)
  {
    ghost var ok := Orderless(codec, load, defaults, db);
    t := defaults;
    var todo := db.Keys;
    NothingApplied(codec, defaults, db);
    while todo != {}
      invariant todo <= db.Keys && (ok ==> Rebuilt(codec, defaults, db, todo, t))
      decreases todo
    {
      var key :| key in todo;
      if ok { LoadedStep(codec, load, defaults, db, todo, key, t); }
      todo := todo - {key};
      if key != OWNER { t := ApplyRow(codec, load, t, Split(key), db[key]); }
    }
  }

  /** No row's name continues another's, and the struct holds what any of the rows say. */
  ghost predicate Orderless(codec: Codec, load: Loader, d: Json, db: map<string, Json>) {
    PrefixFree(ByPath(Applied(db, {})).Keys) && Settles(codec, load, d, ByPath(Applied(db, {})))
  }

  /** The tree is the overlay of all rows but those still to do. */
  ghost predicate Rebuilt(codec: Codec, d: Json, db: map<string, Json>, todo: set<string>, t: Json) {
    t == Overlay(codec, d, [], ByPath(Applied(db, todo)))
  }

  /** One row set and loaded: nulls, failing sets and trees that do not load change nothing. */
  function ApplyLoaded(codec: Codec, load: Loader, t: Json, path: Path, v: Json): Json
    requires path != []
  {
    if v.Null? then t else
      match SetAt(codec, t, path, TextOf(codec, v))
      case Ok(t') => if load(t').Some? then load(t').value else t
      case Err(_) => t
  }

  lemma LoadedStep(codec: Codec, load: Loader, d: Json, db: map<string, Json>, todo: set<string>, key: string, t: Json)
    requires key in db && key in todo
    ensures Orderless(codec, load, d, db) && Rebuilt(codec, d, db, todo, t) ==>
      Rebuilt(codec, d, db, todo - {key}, if key == OWNER then t else ApplyLoaded(codec, load, t, Split(key), db[key]))
  {
    if Orderless(codec, load, d, db) && Rebuilt(codec, d, db, todo, t) {
      RowStep(codec, d, db, todo, key);
      if key != OWNER {
        AppliedSettles(codec, load, d, db, todo - {key});
        SettledApply(codec, load, t, Split(key), db[key]);
      }
    }
  }

  lemma AppliedSettles(codec: Codec, load: Loader, d: Json, db: map<string, Json>, todo: set<string>)
    requires Orderless(codec, load, d, db)
    ensures var t := Overlay(codec, d, [], ByPath(Applied(db, todo))); load(t) == Some(t)
  {
    AppliedIsPart(db, todo);
  }

  lemma AppliedIsPart(db: map<string, Json>, todo: set<string>)
    ensures PartOf(ByPath(Applied(db, todo)), ByPath(Applied(db, {})))
  {
  }

  /** Loading leaves a row's effect alone if the struct holds the tree. */
  lemma SettledApply(codec: Codec, load: Loader, t: Json, path: Path, v: Json)
    requires path != [] && load(Apply(codec, t, path, v)) == Some(Apply(codec, t, path, v))
    ensures ApplyLoaded(codec, load, t, path, v) == Apply(codec, t, path, v)
  {
  }

  lemma NothingApplied(codec: Codec, d: Json, db: map<string, Json>)
    ensures Rebuilt(codec, d, db, db.Keys, d)
  {
    assert Applied(db, db.Keys) == map[];
    OverlayNothing(codec, d, [], ByPath(Applied(db, db.Keys)));
  }

  method ApplyRow(codec: Codec, load: Loader, t: Json, path: Path, v: Json) returns (t': Json)
    requires path != []
    ensures t' == ApplyLoaded(codec, load, t, path, v)
  {
    t' := t;
    if !v.Null? {
      match SetAt(codec, t, path, TextOf(codec, v))
      case Ok(set_) =>
        var loaded := load(set_);
        if loaded.Some? { t' := loaded.value; }
      case Err(_) =>
    }
  }

  /** Taking one key off the list: the owner changes nothing, any other key applies its row. */
  lemma RowStep(codec: Codec, d: Json, db: map<string, Json>, todo: set<string>, key: string)
    requires key in db && key in todo && PrefixFree(ByPath(Applied(db, {})).Keys)
    ensures var t := Overlay(codec, d, [], ByPath(Applied(db, todo)));
      Overlay(codec, d, [], ByPath(Applied(db, todo - {key}))) ==
      if key == OWNER then t else Apply(codec, t, Split(key), db[key])
  {
    var done := Applied(db, todo);
    if key == OWNER {
      assert Applied(db, todo - {key}) == done;
    } else {
      assert Applied(db, todo - {key}) == done[key := db[key]];
      ByPathMonotone(done[key := db[key]], Applied(db, {}));
      OneMoreRow(codec, d, done, key, db[key]);
    }
  }

  lemma OneMoreRow(codec: Codec, d: Json, done: map<string, Json>, key: string, v: Json)
    requires key !in done && PrefixFree(ByPath(done[key := v]).Keys)
    ensures Apply(codec, Overlay(codec, d, [], ByPath(done)), Split(key), v) ==
            Overlay(codec, d, [], ByPath(done[key := v]))
  {
    var rows, p := ByPath(done), Split(key);
    var more := rows[p := v];
    ByPathPush(done, key, v);
    assert ByPath(done[key := v]) == more;
    assert [] + p == p;
    assert rows.Keys + {p} == more.Keys;
    ApplyExtendsOverlay(codec, d, [], rows, p, v);
  }

  /** Where one row's name continues another's, the order of the rows can decide. */
  lemma ContinuedNamesDependOnOrder(codec: Codec, whole: Json)
    requires whole == Obj(map["b" := Str("y")]) && codec.parse(codec.render(whole)) == Some(whole)
    ensures var d, part := Obj(map["a" := Obj(map["b" := Str("x")])]), Str("z");
      Apply(codec, Apply(codec, d, ["a"], whole), ["a", "b"], part) !=
      Apply(codec, Apply(codec, d, ["a", "b"], part), ["a"], whole)
  {
    var inner, part := Obj(map["b" := Str("x")]), Str("z");
    var d := Obj(map["a" := inner]);
    assert ["a", "b"][1..] == ["b"];
    assert Apply(codec, d, ["a"], whole) == Obj(map["a" := whole]);
    assert inner.fields["b" := part] == map["b" := part] && whole.fields["b" := part] == map["b" := part];
    assert SetAt(codec, inner, ["b"], "z") == Ok(Obj(map["b" := part]));
    assert SetAt(codec, whole, ["b"], "z") == Ok(Obj(map["b" := part]));
    assert Apply(codec, d, ["a", "b"], part) == Obj(map["a" := Obj(map["b" := part])]);
    assert whole.fields["b"] != part;
  }

  // ---- the round trip ----

  /** What the trip makes of a tree, key by key, with no rows and no order in sight. */
  function Restore(codec: Codec, d: Json, t: Json): Json
    decreases d, 1
  {
    if !d.Obj? || !t.Obj? then d else
      Obj(map k | k in d.fields.Keys + t.fields.Keys && RestoreAt(codec, d, t, k).Some? :: RestoreAt(codec, d, t, k).value)
  }

  function RestoreAt(codec: Codec, d: Json, t: Json, k: string): Option<Json>
    requires d.Obj? && t.Obj?
    decreases d, 0
  {
    if k in t.fields && !t.fields[k].Obj? then Entry(codec, Field(d, k), t.fields[k])
    else if k !in d.fields then None
    else if k in t.fields then Some(Restore(codec, d.fields[k], t.fields[k]))
    else Some(d.fields[k])
  }

  lemma RestoreField(codec: Codec, d: Json, t: Json, k: string)
    requires d.Obj? && t.Obj?
    ensures Field(Restore(codec, d, t), k) == RestoreAt(codec, d, t, k)
  {
  }

  /** The rows below `at` are exactly the leaves of t. */
  ghost predicate RowsAreLeaves(rows: Rows, at: Path, t: Json) {
    && (forall q :: q != [] ==> (at + q in rows <==> IsLeafPath(t, q)))
    && (forall q :: q != [] && IsLeafPath(t, q) ==> rows[at + q] == Lookup(t, q).value)
  }

  lemma RowsBelowKey(rows: Rows, at: Path, t: Json, k: string)
    requires RowsAreLeaves(rows, at, t) && t.Obj? && k in t.fields
    ensures at + [k] in rows <==> !t.fields[k].Obj?
    ensures at + [k] in rows ==> rows[at + [k]] == t.fields[k]
    ensures RowsAreLeaves(rows, at + [k], t.fields[k])
  {
    LookupKey(t, k);
    forall q | q != [] ensures at + [k] + q in rows <==> IsLeafPath(t.fields[k], q) {
      assert at + [k] + q == at + ([k] + q) && ([k] + q)[1..] == q;
    }
    forall q | q != [] && IsLeafPath(t.fields[k], q) ensures rows[at + [k] + q] == Lookup(t.fields[k], q).value {
      assert at + [k] + q == at + ([k] + q) && ([k] + q)[1..] == q;
    }
  }

  lemma NoRowsBelowMissingKey(rows: Rows, at: Path, t: Json, k: string)
    requires RowsAreLeaves(rows, at, t) && Field(t, k).None?
    ensures at + [k] !in rows && forall p :: at + [k] < p ==> p !in rows
  {
    LookupKey(t, k);
    forall p | at + [k] < p ensures p !in rows {
      var q := p[|at|..];
      assert p == at + q && q[0] == k;
      assert !IsLeafPath(t, q);
    }
  }

  lemma {:induction false} OverlayOfLeavesIsRestore(codec: Codec, d: Json, at: Path, rows: Rows, t: Json)
    requires RowsAreLeaves(rows, at, t)
    ensures Overlay(codec, d, at, rows) == Restore(codec, d, t)
    decreases d
  {
    if d.Obj? && t.Obj? {
      forall k ensures Field(Overlay(codec, d, at, rows), k) == Field(Restore(codec, d, t), k) {
        OverlayField(codec, d, at, rows, k);
        RestoreField(codec, d, t, k);
        if k in t.fields {
          RowsBelowKey(rows, at, t, k);
          if k in d.fields { OverlayOfLeavesIsRestore(codec, d.fields[k], at + [k], rows, t.fields[k]); }
        } else {
          NoRowsBelowMissingKey(rows, at, t, k);
          if k in d.fields { OverlayNothing(codec, d.fields[k], at + [k], rows); }
        }
      }
      SameFields(Overlay(codec, d, at, rows), Restore(codec, d, t));
    } else if d.Obj? {
      forall p | at < p ensures p !in rows {
        assert p == at + p[|at|..] && !IsLeafPath(t, p[|at|..]);
      }
      OverlayNothing(codec, d, at, rows);
    }
  }

  /** The tree without its owner, which is never stored. */
  function Ownerless(t: Json): Json {
    if t.Obj? && OWNER in t.fields && !t.fields[OWNER].Obj? then Obj(t.fields - {OWNER}) else t
  }

  lemma DbRowsAreLeaves(db: map<string, Json>, t: Json)
    requires WellKeyed(t) && t.Obj? && IsDbMapOf(db, t)
    ensures RowsAreLeaves(ByPath(Applied(db, {})), [], Ownerless(t))
    ensures PrefixFree(ByPath(Applied(db, {})).Keys)
  {
    var rows := ByPath(Applied(db, {}));
    forall q | q != [] ensures [] + q in rows <==> IsLeafPath(Ownerless(t), q)
    {
      assert [] + q == q;
      OwnerlessLeaves(t, q);
      if IsLeafPath(t, q) { LeafPathsWellKeyed(t, q); SplitJoin(q); }
      if q == [OWNER] { assert Join(q) == OWNER; }
      if Join(q) == OWNER { SplitOnePart(OWNER); }
    }
    forall q | q != [] && IsLeafPath(Ownerless(t), q) ensures rows[[] + q] == Lookup(Ownerless(t), q).value {
      assert [] + q == q;
      OwnerlessLeaves(t, q);
    }
    forall p, q | p in rows && q in rows ensures !(p < q) {
      LeafPathsPrefixFree(t, p, q);
    }
  }

  lemma OwnerlessLeaves(t: Json, q: Path)
    requires t.Obj? && q != []
    ensures IsLeafPath(Ownerless(t), q) <==> IsLeafPath(t, q) && q != [OWNER]
    ensures IsLeafPath(Ownerless(t), q) ==> Lookup(Ownerless(t), q) == Lookup(t, q)
  {
    if q[0] == OWNER && OWNER in t.fields && !t.fields[OWNER].Obj? {
      assert q[1..] == [] <==> q == [OWNER];
      assert Lookup(t.fields[OWNER], q[1..]).None? <==> q[1..] != [];
    } else if q == [OWNER] {
      LookupKey(t, OWNER);
    }
  }

  // ---- exactly which trees survive ----

  /** What the libraries promise: parsing inverts printing, and a bare string is not JSON for itself. */
  ghost predicate Faithful(codec: Codec) {
    && (forall v: Json :: !v.Str? ==> codec.parse(codec.render(v)) == Some(v))
    && (forall s :: codec.parse(s) != Some(Str(s)))
    && codec.render(Bool(true)) == "true" && codec.render(Bool(false)) == "false"
    && (forall u: U64 :: codec.parseU64(codec.render(Num(PosInt(u)))) == Some(u))
    && (forall i: NegI64 :: codec.parseI64(codec.render(Num(NegInt(i)))) == Some(i))
    && (forall u: U64 :: u < 0x8000_0000_0000_0000 ==> codec.parseI64(codec.render(Num(PosInt(u)))) == Some(u))
    && (forall f: U64 :: codec.parseF64(codec.render(Num(Float(f)))) == Some(Some(f)))
  }

  /** A leaf survives if its type fits what the defaults hold in its place. */
  predicate LeafSurvives(codec: Codec, existing: Option<Json>, v: Json) {
    var open := existing.None? || existing.value.Null?;
    var structured := existing.Some? && (existing.value.Arr? || existing.value.Obj?);
    match v
    case Null => existing == Some(Null)
    case Bool(_) => open || structured || existing.value.Bool?
    case Arr(_) => open || structured
    case Obj(_) => false
    case Str(s) =>
      if open then codec.parse(s).None?
      else existing.value.Str? || (existing.value.Num? && existing.value.n.Float? && codec.parseF64(s) == Some(None))
    case Num(n) =>
      open || structured || (existing.value.Num? &&
        match existing.value.n
        case PosInt(_) => n.PosInt?
        case NegInt(_) => n.NegInt? || (n.PosInt? && n.u < 0x8000_0000_0000_0000)
        case Float(_) => n.Float?)
  }

  lemma LeafSurvivesIff(codec: Codec, existing: Option<Json>, v: Json)
    requires Faithful(codec) && !v.Obj?
    ensures LeafSurvives(codec, existing, v) <==> Entry(codec, existing, v) == Some(v)
  {
    if !v.Str? { assert codec.parse(codec.render(v)) == Some(v); }
  }

  /** Every default key is present, objects sit where the defaults have objects, leaves fit. */
  predicate Survives(codec: Codec, d: Json, t: Json)
    decreases d, 1
  {
    d.Obj? && t.Obj? && forall k :: k in d.fields.Keys + t.fields.Keys ==> KeySurvives(codec, d, t, k)
  }

  predicate KeySurvives(codec: Codec, d: Json, t: Json, k: string)
    requires d.Obj? && t.Obj?
    decreases d, 0
  {
    k in t.fields &&
    if t.fields[k].Obj? then k in d.fields && Survives(codec, d.fields[k], t.fields[k])
    else LeafSurvives(codec, Field(d, k), t.fields[k])
  }

  /** A tree comes back unchanged exactly when it survives. */
  lemma {:induction false} RestoreIsIdentityIff(codec: Codec, d: Json, t: Json)
    requires Faithful(codec) && t.Obj?
    ensures Restore(codec, d, t) == t <==> Survives(codec, d, t)
    decreases d, 1
  {
    if d.Obj? {
      forall k | k in d.fields.Keys + t.fields.Keys
        ensures Field(Restore(codec, d, t), k) == Field(t, k) <==> KeySurvives(codec, d, t, k)
      {
        KeyRestoredIff(codec, d, t, k);
        RestoreField(codec, d, t, k);
      }
      if Survives(codec, d, t) { SameFields(Restore(codec, d, t), t); }
    }
  }

  lemma {:induction false} KeyRestoredIff(codec: Codec, d: Json, t: Json, k: string)
    requires Faithful(codec) && d.Obj? && t.Obj? && k in d.fields.Keys + t.fields.Keys
    ensures RestoreAt(codec, d, t, k) == Field(t, k) <==> KeySurvives(codec, d, t, k)
    decreases d, 0
  {
    if k in t.fields {
      if !t.fields[k].Obj? {
        LeafSurvivesIff(codec, Field(d, k), t.fields[k]);
      } else if k in d.fields {
        RestoreIsIdentityIff(codec, d.fields[k], t.fields[k]);
      }
    }
  }

  /** The owner comes back as the default says, whatever was stored before. */
  function WithOwnerOf(t: Json, d: Json): Json
    requires t.Obj? && d.Obj?
  {
    Obj(if OWNER in d.fields then t.fields[OWNER := d.fields[OWNER]] else t.fields - {OWNER})
  }

  lemma OwnerExcepted(codec: Codec, d: Json, t: Json)
    requires Faithful(codec) && d.Obj? && t.Obj? && !(OWNER in t.fields && t.fields[OWNER].Obj?)
    ensures Restore(codec, d, Ownerless(t)) == WithOwnerOf(t, d) <==>
      forall k :: k in d.fields.Keys + t.fields.Keys && k != OWNER ==> KeySurvives(codec, d, t, k)
  {
    var r, w := Restore(codec, d, Ownerless(t)), WithOwnerOf(t, d);
    forall k ensures k != OWNER ==> RestoreAt(codec, d, Ownerless(t), k) == RestoreAt(codec, d, t, k) && Field(w, k) == Field(t, k) {
    }
    forall k ensures Field(r, k) == RestoreAt(codec, d, Ownerless(t), k) { RestoreField(codec, d, Ownerless(t), k); }
    forall k | k in d.fields.Keys + t.fields.Keys && k != OWNER
      ensures Field(r, k) == Field(w, k) <==> KeySurvives(codec, d, t, k)
    {
      KeyRestoredIff(codec, d, t, k);
    }
    if forall k :: k in d.fields.Keys + t.fields.Keys && k != OWNER ==> KeySurvives(codec, d, t, k) {
      forall k ensures Field(r, k) == Field(w, k) {
        if k != OWNER && k !in d.fields.Keys + t.fields.Keys { assert Field(w, k) == None; }
      }
      SameFields(r, w);
    }
  }

  /** Dotted names can express the keys, and the struct holds what any of the stored leaves make of the defaults. */
  ghost predicate Savable(codec: Codec, load: Loader, d: Json, t: Json) {
    WellKeyed(t) && t.Obj? && forall rows: Rows :: RowsAreLeaves(rows, [], Ownerless(t)) ==> Settles(codec, load, d, rows)
  }

  /**
   * Save with `to_db_map`, load with `from_db_map`, rows in any order. Every tree with
   * expressible keys comes back as `Restore` says; and it comes back unchanged, owner excepted,
   * exactly when each of its keys survives.
   */
  method SaveAndLoad(codec: Codec, load: Loader, defaults: Json, t: Json) returns (loaded: Json)
    ensures Savable(codec, load, defaults, t) ==> loaded == Restore(codec, defaults, Ownerless(t))
    ensures Savable(codec, load, defaults, t) && defaults.Obj? && Faithful(codec) && !(OWNER in t.fields && t.fields[OWNER].Obj?) ==>
      (loaded == WithOwnerOf(t, defaults) <==>
       forall k :: k in defaults.fields.Keys + t.fields.Keys && k != OWNER ==> KeySurvives(codec, defaults, t, k))
  {
    var db := ToDbMap(t);
    loaded := FromDbMap(codec, load, defaults, db);
    if Savable(codec, load, defaults, t) {
      DbRowsAreLeaves(db, t);
      OverlayOfLeavesIsRestore(codec, defaults, [], ByPath(Applied(db, {})), Ownerless(t));
      if defaults.Obj? && Faithful(codec) && !(OWNER in t.fields && t.fields[OWNER].Obj?) {
        OwnerExcepted(codec, defaults, t);
      }
    }
  }
}
