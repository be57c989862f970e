/** JSON values as `serde_json::Value` holds them. */
module JsonTree {
  type U64 = x: int | 0 <= x < 0x1_0000_0000_0000_0000
  type I64 = x: int | -0x8000_0000_0000_0000 <= x < 0x8000_0000_0000_0000
  type NegI64 = x: I64 | x < 0 witness -1

  /** `serde_json::Number`: a non-negative integer, a negative integer or a finite float, by its bits. */
  datatype Number = PosInt(u: U64) | NegInt(i: NegI64) | Float(bits: U64)

  datatype Json =
    | Null
    | Bool(b: bool)
    | Num(n: Number)
    | Str(s: string)
    | Arr(items: seq<Json>)
    | Obj(fields: map<string, Json>)
}
