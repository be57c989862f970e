/**
 * Settings as a serialized tree: setting one value by dotted path, flattening the tree into
 * database rows, and rebuilding it from rows that arrive in no particular order.
 */
module SettingsDb {
  import opened Wrappers
  import opened JsonTree
  import opened DottedPaths

  /** Printing and parsing, as the JSON and number libraries do them. */
  datatype Codec = Codec(
    render: Json -> string,
    parse: string -> Option<Json>,
    parseU64: string -> Option<U64>,
    parseI64: string -> Option<I64>,
    parseF64: string -> Option<Option<U64>>)  // Some(None) is a float that JSON cannot hold

  function Field(t: Json, key: string): Option<Json> {
    if t.Obj? && key in t.fields then Some(t.fields[key]) else None
  }

  /** The value a text is read as, given the value it replaces; None is a type error. */
  function Read(codec: Codec, existing: Option<Json>, text: string): Option<Json> {
    match existing
    case Some(Bool(_)) => if text == "true" then Some(Bool(true)) else if text == "false" then Some(Bool(false)) else None
    case Some(Num(PosInt(_))) =>
      (match codec.parseU64(text) case Some(u) => Some(Num(PosInt(u))) case None => None)
    case Some(Num(NegInt(_))) =>
      (match codec.parseI64(text) case Some(i) => Some(Num(if i < 0 then NegInt(i) else PosInt(i))) case None => None)
    case Some(Num(Float(_))) =>
      (match codec.parseF64(text) case Some(Some(f)) => Some(Num(Float(f))) case Some(None) => Some(Str(text)) case None => None)
    case Some(Str(_)) => Some(Str(text))
    case Some(Arr(_)) => codec.parse(text)
    case Some(Obj(_)) => codec.parse(text)
    case _ => if codec.parse(text).Some? then codec.parse(text) else Some(Str(text))
  }

  datatype SetError = PathNotFound | ParentNotObject | BadValue | NotASetting

  /** `Settings::set` on the tree: every error leaves it as it was. */
  function SetAt(codec: Codec, t: Json, path: Path, text: string): Result<Json, SetError>
    requires path != []
    decreases |path|
  {
    var key := path[0];
    if |path| == 1 then
      if !t.Obj? then Err(ParentNotObject)
      else match Read(codec, Field(t, key), text)
           case Some(v) => Ok(Obj(t.fields[key := v]))
           case None => Err(BadValue)
    else if Field(t, key).None? then Err(PathNotFound)
    else match SetAt(codec, t.fields[key], path[1..], text)
         case Ok(sub) => Ok(Obj(t.fields[key := sub]))
         case Err(e) => Err(e)
  }

  /** The text parses as the type of the value already there; where there is none, every text does. */
  ghost predicate FitsTypeOf(codec: Codec, existing: Option<Json>, text: string) {
    match existing
    case Some(Bool(_)) => text in {"true", "false"}
    case Some(Num(PosInt(_))) => codec.parseU64(text).Some?
    case Some(Num(NegInt(_))) => codec.parseI64(text).Some?
    case Some(Num(Float(_))) => codec.parseF64(text).Some?
    case Some(Arr(_)) => codec.parse(text).Some?
    case Some(Obj(_)) => codec.parse(text).Some?
    case _ => true
  }

  /** A text is read exactly if it fits, and then as a value of the type there or as the JSON it is. */
  lemma ReadIff(codec: Codec, existing: Option<Json>, text: string)
    ensures Read(codec, existing, text).Some? <==> FitsTypeOf(codec, existing, text)
    ensures Read(codec, existing, text).Some? ==>
      var v := Read(codec, existing, text).value;
      match existing
      case Some(Bool(_)) => v.Bool? && (v.b <==> text == "true")
      case Some(Str(_)) => v == Str(text)
      case Some(Num(PosInt(_))) => v.Num? && v.n.PosInt? && Some(v.n.u) == codec.parseU64(text)
      case Some(Num(NegInt(_))) => v.Num? && !v.n.Float? && Some(if v.n.NegInt? then v.n.i else v.n.u) == codec.parseI64(text)
      case Some(Num(Float(_))) =>
        if codec.parseF64(text) == Some(None) then v == Str(text)
        else v.Num? && v.n.Float? && codec.parseF64(text) == Some(Some(v.n.bits))
      case _ => codec.parse(text) == Some(v) || (v == Str(text) && codec.parse(text).None? && (existing.None? || existing.value.Null?))
  {
  }

  function TextOf(codec: Codec, v: Json): string {
    if v.Str? then v.s else codec.render(v)
  }

  /** One database row applied to a tree: nulls and failing sets change nothing. */
  function Apply(codec: Codec, t: Json, path: Path, v: Json): Json
    requires path != []
  {
    if v.Null? then t else
      match SetAt(codec, t, path, TextOf(codec, v))
      case Ok(t') => t'
      case Err(_) => t
  }

  // ---- many rows at once ----

  type Rows = map<Path, Json>

  /** What a row does to the value at its own position. */
  function Entry(codec: Codec, existing: Option<Json>, v: Json): Option<Json> {
    if v.Null? then existing else
      var read := Read(codec, existing, TextOf(codec, v));
      if read.Some? then read else existing
  }

  /** The keys that rows put directly below `at`. */
  ghost function RowKeys(rows: Rows, at: Path): set<string> {
    set p | p in rows && |p| == |at| + 1 && at <= p :: p[|at|]
  }

  /**
   * The order-free meaning of a set of rows: each position below a default object takes its own
   * row's value, positions without a row keep the default, and rows with no place are dropped.
   */
  ghost function Overlay(codec: Codec, d: Json, at: Path, rows: Rows): Json
    decreases d, 1
  {
    if !d.Obj? then d else
      Obj(map k | k in d.fields.Keys + RowKeys(rows, at) && OverlayAt(codec, d, at, rows, k).Some?
          :: OverlayAt(codec, d, at, rows, k).value)
  }

  ghost function OverlayAt(codec: Codec, d: Json, at: Path, rows: Rows, k: string): Option<Json>
    requires d.Obj?
    decreases d, 0
  {
    if at + [k] in rows then Entry(codec, Field(d, k), rows[at + [k]])
    else if k in d.fields then Some(Overlay(codec, d.fields[k], at + [k], rows))
    else None
  }

  lemma OverlayField(codec: Codec, d: Json, at: Path, rows: Rows, k: string)
    requires d.Obj?
    ensures Field(Overlay(codec, d, at, rows), k) == OverlayAt(codec, d, at, rows, k)
  {
    if at + [k] in rows {
      assert (at + [k])[|at|] == k;
      assert k in RowKeys(rows, at);
    }
  }

  lemma SameFields(t: Json, u: Json)
    requires t.Obj? && u.Obj? && forall k :: Field(t, k) == Field(u, k)
    ensures t == u
  {
    forall k ensures k in t.fields <==> k in u.fields { assert Field(t, k) == Field(u, k); }
    forall k | k in t.fields ensures t.fields[k] == u.fields[k] { assert Field(t, k) == Field(u, k); }
    assert t.fields == u.fields;
  }

  /** Two row sets that agree below `at`. */
  ghost predicate AgreeBelow(rows: Rows, rows': Rows, at: Path) {
    forall p :: at < p ==> (p in rows <==> p in rows') && (p in rows ==> rows[p] == rows'[p])
  }

  /** Only the rows below a position matter to it. */
  lemma {:induction false} OverlayLocal(codec: Codec, d: Json, at: Path, rows: Rows, rows': Rows)
    requires AgreeBelow(rows, rows', at)
    ensures Overlay(codec, d, at, rows) == Overlay(codec, d, at, rows')
    decreases d
  {
    if !d.Obj? {
    } else {
      forall k ensures OverlayAt(codec, d, at, rows, k) == OverlayAt(codec, d, at, rows', k) {
        assert at < at + [k];
        if k in d.fields { OverlayLocal(codec, d.fields[k], at + [k], rows, rows'); }
      }
      forall k ensures Field(Overlay(codec, d, at, rows), k) == Field(Overlay(codec, d, at, rows'), k) {
        OverlayField(codec, d, at, rows, k);
        OverlayField(codec, d, at, rows', k);
      }
      SameFields(Overlay(codec, d, at, rows), Overlay(codec, d, at, rows'));
    }
  }

  lemma {:induction false} OverlayNothing(codec: Codec, d: Json, at: Path, rows: Rows)
    requires forall p :: at < p ==> p !in rows
    ensures Overlay(codec, d, at, rows) == d
    decreases d
  {
    if !d.Obj? {
    } else {
      forall k ensures Field(Overlay(codec, d, at, rows), k) == Field(d, k) {
        OverlayField(codec, d, at, rows, k);
        assert at < at + [k];
        if k in d.fields { OverlayNothing(codec, d.fields[k], at + [k], rows); }
      }
      SameFields(Overlay(codec, d, at, rows), d);
    }
  }

  /** No row's path continues another's. */
  ghost predicate PrefixFree(paths: set<Path>) {
    forall p, q :: p in paths && q in paths ==> !(p < q)
  }

  /** Applying one more row turns the meaning of the old rows into that of the new ones. */
  lemma {:induction false} ApplyExtendsOverlay(codec: Codec, d: Json, at: Path, rows: Rows, rest: Path, v: Json)
    requires rest != [] && at + rest !in rows && PrefixFree(rows.Keys + {at + rest})
    ensures Apply(codec, Overlay(codec, d, at, rows), rest, v) == Overlay(codec, d, at, rows[at + rest := v])
    decreases |rest|
  {
    var p := at + rest;
    var rows', t := rows[p := v], Overlay(codec, d, at, rows);
    if !d.Obj? {
    } else {
      var k := rest[0];
      OtherKeysKeep(codec, d, at, rows, rest, v);
      OverlayField(codec, d, at, rows, k);
      OverlayField(codec, d, at, rows', k);
      if |rest| == 1 {
        assert p == at + [k];
        if k in d.fields { OverlayNothing(codec, d.fields[k], p, rows); }
        assert OverlayAt(codec, d, at, rows, k) == Field(d, k);
      } else {
        assert at + [k] < p;
        assert at + [k] !in rows';
        if k in d.fields {
          assert (at + [k]) + rest[1..] == p;
          ApplyExtendsOverlay(codec, d.fields[k], at + [k], rows, rest[1..], v);
        }
      }
      ApplyTouchesOneKey(codec, t, rest, v);
      forall j ensures Field(Apply(codec, t, rest, v), j) == Field(Overlay(codec, d, at, rows'), j) {
      }
      SameFields(Apply(codec, t, rest, v), Overlay(codec, d, at, rows'));
    }
  }

  lemma OtherKeysKeep(codec: Codec, d: Json, at: Path, rows: Rows, rest: Path, v: Json)
    requires rest != [] && d.Obj?
    ensures forall j :: j != rest[0] ==>
      Field(Overlay(codec, d, at, rows), j) == Field(Overlay(codec, d, at, rows[at + rest := v]), j)
  {
    var rows' := rows[at + rest := v];
    forall j | j != rest[0]
      ensures Field(Overlay(codec, d, at, rows), j) == Field(Overlay(codec, d, at, rows'), j)
    {
      OverlayField(codec, d, at, rows, j);
      OverlayField(codec, d, at, rows', j);
      assert (at + [j])[|at|] != (at + rest)[|at|];
      if j in d.fields { OverlayLocal(codec, d.fields[j], at + [j], rows, rows'); }
    }
  }

  /** A row changes at most the first key of its path; the value there is set recursively. */
  lemma ApplyTouchesOneKey(codec: Codec, t: Json, path: Path, v: Json)
    requires path != [] && t.Obj?
    ensures Apply(codec, t, path, v).Obj?
    ensures forall j :: j != path[0] ==> Field(Apply(codec, t, path, v), j) == Field(t, j)
    ensures Field(Apply(codec, t, path, v), path[0]) ==
      if |path| == 1 then Entry(codec, Field(t, path[0]), v)
      else if Field(t, path[0]).None? then None
      else Some(Apply(codec, t.fields[path[0]], path[1..], v))
  {
  }
}
