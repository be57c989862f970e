/** `merge_non_default`: layering settings so that only values that differ from the defaults win. */
module SettingsMerge {
  import opened Wrappers
  import opened JsonTree
  import opened DottedPaths
  import opened SettingsDb
  import opened SettingsRoundTrip

  function DefaultAt(d: Json, k: string): Json {
    if Field(d, k).Some? then Field(d, k).value else Null
  }

  /** The merge of one overlay, key by key. */
  function Merge(t: Json, o: Json, d: Json): Json
    decreases o, 1
  {
    if t.Obj? && o.Obj? && d.Obj? then
      Obj(map k | k in t.fields.Keys + o.fields.Keys && MergeAt(t, o, d, k).Some? :: MergeAt(t, o, d, k).value)
    else if o != d then o else t
  }

  function MergeAt(t: Json, o: Json, d: Json, k: string): Option<Json>
    requires t.Obj? && o.Obj? && d.Obj?
    decreases o, 0
  {
    if k !in o.fields then Field(t, k)
    else if k in t.fields then Some(Merge(t.fields[k], o.fields[k], DefaultAt(d, k)))
    else if o.fields[k] != DefaultAt(d, k) then Some(o.fields[k])
    else None
  }

  lemma MergeField(t: Json, o: Json, d: Json, k: string)
    requires t.Obj? && o.Obj? && d.Obj?
    ensures Field(Merge(t, o, d), k) == MergeAt(t, o, d, k)
  {
  }

  /** `merge_non_default`, visiting the overlay's keys in any order. */
  method MergeNonDefault(target: Json, other: Json, defaults: Json) returns (merged: Json)
    ensures merged == Merge(target, other, defaults)
    decreases other
  {
    if !(target.Obj? && other.Obj? && defaults.Obj?) {
      return if other != defaults then other else target;
    }
    var fields, todo := target.fields, other.fields.Keys;
    while todo != {}
      invariant todo <= other.fields.Keys
      invariant forall k ::
        Field(Obj(fields), k) ==
        if k in other.fields && k !in todo then MergeAt(target, other, defaults, k) else Field(target, k)
      decreases todo
    {
      var key :| key in todo;
      var otherVal, defaultVal := other.fields[key], DefaultAt(defaults, key);
      ghost var before := fields;
      assert Field(Obj(before), key) == Field(target, key);
      if key in fields {
        var sub := MergeNonDefault(fields[key], otherVal, defaultVal);
        fields := fields[key := sub];
      } else if otherVal != defaultVal {
        fields := fields[key := otherVal];
      }
      todo := todo - {key};
      assert forall k :: k != key ==> Field(Obj(fields), k) == Field(Obj(before), k);
    }
    merged := Obj(fields);
    forall k ensures Field(merged, k) == Field(Merge(target, other, defaults), k) {
      MergeField(target, other, defaults, k);
    }
    SameFields(merged, Merge(target, other, defaults));
  }

  // ---- laws on all trees ----

  /** An overlay of pure defaults changes nothing. */
  lemma {:induction false} MergeDefaultsIsIdentity(t: Json, d: Json)
    ensures Merge(t, d, d) == t
    decreases d
  {
    if !t.Obj? || !d.Obj? {
    } else {
      forall k ensures Field(Merge(t, d, d), k) == Field(t, k) {
        MergeField(t, d, d, k);
        if k in t.fields && k in d.fields { MergeDefaultsIsIdentity(t.fields[k], d.fields[k]); }
      }
      SameFields(Merge(t, d, d), t);
    }
  }

  lemma {:induction false} MergeOntoItself(o: Json, d: Json)
    ensures Merge(o, o, d) == o
    decreases o
  {
    if !o.Obj? || !d.Obj? {
    } else {
      forall k ensures Field(Merge(o, o, d), k) == Field(o, k) {
        MergeField(o, o, d, k);
        if k in o.fields { MergeOntoItself(o.fields[k], DefaultAt(d, k)); }
      }
      SameFields(Merge(o, o, d), o);
    }
  }

  /** Merging the same overlay twice is merging it once. */
  lemma {:induction false} MergeIsIdempotent(t: Json, o: Json, d: Json)
    ensures Merge(Merge(t, o, d), o, d) == Merge(t, o, d)
    decreases o
  {
    var once := Merge(t, o, d);
    if t.Obj? && o.Obj? && d.Obj? {
      forall k ensures Field(Merge(once, o, d), k) == Field(once, k) {
        MergeField(t, o, d, k);
        MergeField(once, o, d, k);
        if k in o.fields {
          if k in t.fields { MergeIsIdempotent(t.fields[k], o.fields[k], DefaultAt(d, k)); }
          else { MergeOntoItself(o.fields[k], DefaultAt(d, k)); }
        }
      }
      SameFields(Merge(once, o, d), once);
    } else {
      MergeOntoItself(o, d);
    }
  }

  // ---- laws on trees with the defaults' object skeleton ----

  /** Wherever the defaults have an object, so has the tree. */
  predicate Skeleton(d: Json, t: Json) {
    d.Obj? ==> t.Obj? && forall k :: k in d.fields && d.fields[k].Obj? ==> k in t.fields && Skeleton(d.fields[k], t.fields[k])
  }

  /** At positions where the defaults have no object, the overlay's non-default value wins. */
  function Prefer(below: Option<Json>, above: Option<Json>, dv: Json): Option<Json> {
    if above.Some? && above.value != dv then above else below
  }

  lemma MergeAtLeaf(t: Json, o: Json, d: Json, k: string)
    requires t.Obj? && o.Obj? && d.Obj? && !DefaultAt(d, k).Obj?
    ensures MergeAt(t, o, d, k) == Prefer(Field(t, k), Field(o, k), DefaultAt(d, k))
  {
  }

  lemma {:induction false} MergeKeepsSkeleton(t: Json, o: Json, d: Json)
    requires Skeleton(d, t) && Skeleton(d, o)
    ensures Skeleton(d, Merge(t, o, d))
    decreases d
  {
    if !d.Obj? {
    } else {
      forall k | k in d.fields && d.fields[k].Obj?
        ensures k in Merge(t, o, d).fields && Skeleton(d.fields[k], Merge(t, o, d).fields[k])
      {
        MergeField(t, o, d, k);
        MergeKeepsSkeleton(t.fields[k], o.fields[k], d.fields[k]);
      }
    }
  }

  /** Layers can be grouped in any way. */
  lemma {:induction false} MergeIsAssociative(a: Json, b: Json, c: Json, d: Json)
    requires Skeleton(d, a) && Skeleton(d, b) && Skeleton(d, c)
    ensures Merge(Merge(a, b, d), c, d) == Merge(a, Merge(b, c, d), d)
    decreases d
  {
    if !d.Obj? {
    } else {
      var ab, bc := Merge(a, b, d), Merge(b, c, d);
      forall k ensures Field(Merge(ab, c, d), k) == Field(Merge(a, bc, d), k) {
        MergeField(a, b, d, k);
        MergeField(b, c, d, k);
        MergeField(ab, c, d, k);
        MergeField(a, bc, d, k);
        if DefaultAt(d, k).Obj? {
          MergeIsAssociative(a.fields[k], b.fields[k], c.fields[k], d.fields[k]);
        } else {
          MergeAtLeaf(a, b, d, k);
          MergeAtLeaf(b, c, d, k);
          MergeAtLeaf(ab, c, d, k);
          MergeAtLeaf(a, bc, d, k);
        }
      }
      SameFields(Merge(ab, c, d), Merge(a, bc, d));
    }
  }

  /** On other JSON trees, which no `Settings` serializes to, the same recursion is not associative. */
  lemma GroupingMattersWithoutSkeleton()
    ensures exists a, b, c, d ::
      Skeleton(d, a) && !Skeleton(d, b) && Skeleton(d, c) && Merge(Merge(a, b, d), c, d) != Merge(a, Merge(b, c, d), d)
  {
    var d := Obj(map[]);
    var a, b, c := Obj(map["y" := Bool(true)]), Null, Obj(map["z" := Bool(true)]);
    assert "z" in c.fields && c != d;
    assert Merge(a, b, d) == Null && Merge(Null, c, d) == c && Merge(b, c, d) == c;
    MergeField(a, c, d, "y");
    assert Field(Merge(a, c, d), "y") == Some(Bool(true)) && Field(c, "y") == None;
    assert !Skeleton(d, b);
  }

  /** A path into the defaults' objects that does not itself end in one. */
  predicate IsChoice(d: Json, p: Path) {
    p != [] && d.Obj? &&
    if |p| == 1 then !DefaultAt(d, p[0]).Obj? else DefaultAt(d, p[0]).Obj? && IsChoice(d.fields[p[0]], p[1..])
  }

  function DefaultOf(d: Json, p: Path): Json {
    if Lookup(d, p).Some? then Lookup(d, p).value else Null
  }

  /** What one merge does at a choice, however deep. */
  lemma {:induction false} MergeAtChoice(t: Json, o: Json, d: Json, p: Path)
    requires IsChoice(d, p) && Skeleton(d, t) && Skeleton(d, o)
    ensures Lookup(Merge(t, o, d), p) == Prefer(Lookup(t, p), Lookup(o, p), DefaultOf(d, p))
    decreases |p|
  {
    var k := p[0];
    MergeField(t, o, d, k);
    if |p| == 1 {
      assert p == [k];
      LookupKey(t, k);
      LookupKey(o, k);
      LookupKey(d, k);
      LookupKey(Merge(t, o, d), k);
      MergeAtLeaf(t, o, d, k);
    } else {
      MergeAtChoice(t.fields[k], o.fields[k], d.fields[k], p[1..]);
    }
  }

  function MergeAll(base: Json, overlays: seq<Json>, d: Json): Json {
    if overlays == [] then base
    else Merge(MergeAll(base, overlays[..|overlays| - 1], d), overlays[|overlays| - 1], d)
  }

  /** The value of the last overlay that has a non-default one there, else the base's. */
  function LastChoice(base: Json, overlays: seq<Json>, d: Json, p: Path): Option<Json> {
    if overlays == [] then Lookup(base, p)
    else
      var top := Lookup(overlays[|overlays| - 1], p);
      if top.Some? && top.value != DefaultOf(d, p) then top
      else LastChoice(base, overlays[..|overlays| - 1], d, p)
  }

  /** Any stack of layers gives, at every choice, the last layer's non-default value. */
  lemma {:induction false} LastChoiceWins(base: Json, overlays: seq<Json>, d: Json, p: Path)
    requires IsChoice(d, p) && Skeleton(d, base) && forall i :: 0 <= i < |overlays| ==> Skeleton(d, overlays[i])
    ensures Lookup(MergeAll(base, overlays, d), p) == LastChoice(base, overlays, d, p)
    ensures Skeleton(d, MergeAll(base, overlays, d))
  {
    if overlays == [] {
    } else {
      var rest, top := overlays[..|overlays| - 1], overlays[|overlays| - 1];
      LastChoiceWins(base, rest, d, p);
      MergeAtChoice(MergeAll(base, rest, d), top, d, p);
      MergeKeepsSkeleton(MergeAll(base, rest, d), top, d);
    }
  }

  /**
   * The wizard: settings after step 1, the database on top, step 1 again. Its choices win, and
   * where it made none the database value is recovered.
   */
  lemma WizardKeepsItsChoices(step1: Json, db: Json, d: Json, p: Path)
    requires IsChoice(d, p) && Skeleton(d, step1) && Skeleton(d, db)
    ensures var settings := Merge(Merge(step1, db, d), step1, d);
      Lookup(settings, p) ==
        if Lookup(step1, p).Some? && Lookup(step1, p).value != DefaultOf(d, p) then Lookup(step1, p)
        else Prefer(Lookup(step1, p), Lookup(db, p), DefaultOf(d, p))
  {
    MergeAtChoice(step1, db, d, p);
    MergeKeepsSkeleton(step1, db, d);
    MergeAtChoice(Merge(step1, db, d), step1, d, p);
  }
}
