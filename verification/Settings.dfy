/** The `Settings` object, as its serialized tree: reading, setting and merging in place. */
module Settings {
  import opened Wrappers
  import opened JsonTree
  import opened DottedPaths
  import opened SettingsDb
  import opened SettingsRoundTrip
  import opened SettingsMerge

  /** Setting a path puts the value read from the text there. */
  lemma {:induction false} SetThenLookup(codec: Codec, t: Json, path: Path, text: string)
    requires path != [] && SetAt(codec, t, path, text).Ok?
    ensures Lookup(SetAt(codec, t, path, text).value, path).Some?
    ensures Lookup(SetAt(codec, t, path, text).value, path) == Read(codec, Lookup(t, path), text)
    decreases |path|
  {
    var key, after := path[0], SetAt(codec, t, path, text).value;
    if |path| == 1 {
      assert path == [key];
      LookupKey(t, key);
      LookupKey(after, key);
    } else {
      SetThenLookup(codec, t.fields[key], path[1..], text);
    }
  }

  /** The object that the last key of a path belongs to. */
  function ParentOf(t: Json, path: Path): Option<Json>
    requires path != []
  {
    Lookup(t, path[..|path| - 1])
  }

  /** `set` fails exactly if the parent is missing, is no object, or the text does not fit the value there. */
  lemma {:induction false} SetFailsIff(codec: Codec, t: Json, path: Path, text: string)
    requires path != []
    ensures var r, parent := SetAt(codec, t, path, text), ParentOf(t, path);
      && (r == Err(PathNotFound) <==> parent.None?)
      && (r == Err(ParentNotObject) <==> parent.Some? && !parent.value.Obj?)
      && (r == Err(BadValue) <==> parent.Some? && parent.value.Obj? && !FitsTypeOf(codec, Lookup(t, path), text))
      && (r.Ok? <==> parent.Some? && parent.value.Obj? && FitsTypeOf(codec, Lookup(t, path), text))
    decreases |path|
  {
    var key, front := path[0], path[..|path| - 1];
    if |path| == 1 {
      assert path == [key] && front == [];
      LookupKey(t, key);
      ReadIff(codec, Field(t, key), text);
    } else {
      assert front[0] == key && front[1..] == path[1..][..|path| - 2];
      if Field(t, key).Some? { SetFailsIff(codec, t.fields[key], path[1..], text); }
    }
  }

  /** Setting a path leaves every path alone that neither continues it nor leads to it. */
  lemma {:induction false} SetElsewhere(codec: Codec, t: Json, path: Path, text: string, q: Path)
    requires path != [] && SetAt(codec, t, path, text).Ok? && !(path <= q) && !(q <= path)
    ensures Lookup(SetAt(codec, t, path, text).value, q) == Lookup(t, q)
    decreases |path|
  {
    if |path| > 1 && q[0] == path[0] { SetElsewhere(codec, t.fields[path[0]], path[1..], text, q[1..]); }
  }

  /** The instance: setting a key that the struct does not know succeeds, and the key is gone. */
  lemma UnknownKeyIsDropped(codec: Codec, load: Loader, t: Json)
    requires t.Obj? && "no_such_key" !in t.fields
    requires forall u: Json :: u.Obj? && u.fields - {"no_such_key"} == t.fields ==> load(u) == Some(t)
    ensures var after := SetAt(codec, t, ["no_such_key"], "1");
      after.Ok? && load(after.value).Some? && Lookup(load(after.value).value, ["no_such_key"]).None?
  {
    LookupKey(t, "no_such_key");
    var after := SetAt(codec, t, ["no_such_key"], "1");
    assert after.value.fields - {"no_such_key"} == t.fields;
  }

  class Settings {
    /** Deserializing into the struct and serializing again. */
    const load: Loader
    var tree: Json

    constructor (tree: Json, load: Loader)
      ensures this.tree == tree && this.load == load
    {
      this.tree, this.load := tree, load;
    }

    /** The struct keeps the tree exactly as it was set. */
    ghost predicate Keeps(after: Result<Json, SetError>) {
      after.Ok? && load(after.value) == Some(after.value)
    }

    /** The struct keeps the value at the path that was set. */
    ghost predicate KeepsAt(after: Json, path: Path) {
      load(after).Some? && Lookup(load(after).value, path) == Lookup(after, path)
    }

    method Set(codec: Codec, path: string, value: string) returns (r: Result<(), SetError>)
      modifies this
      ensures var after := SetAt(codec, old(tree), Split(path), value);
        && (r.Ok? <==> after.Ok? && load(after.value).Some?)
        && (r.Err? ==> tree == old(tree)) && (r.Ok? ==> Some(tree) == load(after.value))
      ensures r.Ok? ==>
        (Lookup(tree, Split(path)) == Read(codec, Lookup(old(tree), Split(path)), value) <==>
         KeepsAt(SetAt(codec, old(tree), Split(path), value).value, Split(path)))
      ensures Keeps(SetAt(codec, old(tree), Split(path), value)) ==>
        && Lookup(tree, Split(path)).Some?
        && Lookup(tree, Split(path)) == Read(codec, Lookup(old(tree), Split(path)), value)
        && forall q :: !(Split(path) <= q) && !(q <= Split(path)) ==> Lookup(tree, q) == Lookup(old(tree), q)
    {
      var parts := Split(path);
      match SetAt(codec, tree, parts, value) {
        case Err(e) => r := Err(e);
        case Ok(after) =>
          var loaded := load(after);
          if loaded.None? { return Err(NotASetting); }
          SetThenLookup(codec, tree, parts, value);
          forall q | !(parts <= q) && !(q <= parts) ensures Lookup(after, q) == Lookup(tree, q) {
            SetElsewhere(codec, tree, parts, value, q);
          }
          tree := loaded.value;
          r := Ok(());
      }
    }

    method Get(codec: Codec, path: string) returns (text: Option<string>)
      ensures text == match Lookup(tree, Split(path)) { case Some(v) => Some(TextOf(codec, v)) case None => None }
    {
      var parts, current := Split(path), tree;
      for i := 0 to |parts|
        invariant Lookup(current, parts[i..]) == Lookup(tree, parts)
      {
        assert parts[i..][1..] == parts[i + 1..];
        var next := Field(current, parts[i]);
        if next.None? { return None; }
        current := next.value;
      }
      text := Some(TextOf(codec, current));
    }

    /** A merge that does not deserialize is dropped as a whole. */
    method MergeFrom(other: Json, defaults: Json)
      modifies this
      ensures var loaded := load(Merge(old(tree), other, defaults));
        tree == if loaded.Some? then loaded.value else old(tree)
    {
      var merged := MergeNonDefault(tree, other, defaults);
      var loaded := load(merged);
      if loaded.Some? { tree := loaded.value; }
    }
  }
}
