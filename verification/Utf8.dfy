/** UTF-8 as section 4 of RFC 3629 defines it, and cutting byte strings at character boundaries. */
module Utf8 {
  type Bytes = seq<bv8>

  predicate IsTail(b: bv8) { 0x80 <= b <= 0xBF }

  /** The length of the character at the front, by the UTF8-1 to UTF8-4 productions; 0 if none. */
  function CharLength(s: Bytes): (n: nat)
    ensures n <= 4 && n <= |s|
    ensures n > 0 ==> !IsTail(s[0]) && forall i :: 1 <= i < n ==> IsTail(s[i])
  {
    if |s| >= 1 && s[0] <= 0x7F then 1
    else if |s| >= 2 && 0xC2 <= s[0] <= 0xDF && IsTail(s[1]) then 2
    else if |s| >= 3 && IsTail(s[2]) && (
           || (s[0] == 0xE0 && 0xA0 <= s[1] <= 0xBF)
           || (0xE1 <= s[0] <= 0xEC && IsTail(s[1]))
           || (s[0] == 0xED && 0x80 <= s[1] <= 0x9F)
           || (0xEE <= s[0] <= 0xEF && IsTail(s[1]))) then 3
    else if |s| >= 4 && IsTail(s[2]) && IsTail(s[3]) && (
           || (s[0] == 0xF0 && 0x90 <= s[1] <= 0xBF)
           || (0xF1 <= s[0] <= 0xF3 && IsTail(s[1]))
           || (s[0] == 0xF4 && 0x80 <= s[1] <= 0x8F)) then 4
    else 0
  }

  predicate Valid(s: Bytes) {
    s == [] || (CharLength(s) > 0 && Valid(s[CharLength(s)..]))
  }

  // ---- characters are Unicode scalar values in their shortest form ----

  predicate IsScalar(v: int) { 0 <= v <= 0x10FFFF && !(0xD800 <= v <= 0xDFFF) }

  /** The number of bytes that a scalar value needs. */
  function ShortestForm(v: int): nat {
    if v < 0x80 then 1 else if v < 0x800 then 2 else if v < 0x1_0000 then 3 else 4
  }

  /** The first byte announces n bytes by its leading bits. */
  predicate Announces(a: int, n: nat) {
    match n
    case 1 => 0 <= a < 0x80
    case 2 => 0xC0 <= a < 0xE0
    case 3 => 0xE0 <= a < 0xF0
    case 4 => 0xF0 <= a < 0xF8
    case _ => false
  }

  /** The first n of four bytes are the shortest form of a scalar value, six bits per continuation byte. */
  predicate IsCharOf(n: nat, a: int, b: int, c: int, d: int) {
    && Announces(a, n)
    && (n >= 2 ==> TailNumber(b)) && (n >= 3 ==> TailNumber(c)) && (n >= 4 ==> TailNumber(d))
    && ShortScalar(match n
                   case 1 => a
                   case 2 => (a - 0xC0) * 64 + (b - 0x80)
                   case 3 => (a - 0xE0) * 4096 + (b - 0x80) * 64 + (c - 0x80)
                   case _ => (a - 0xF0) * 262144 + (b - 0x80) * 4096 + (c - 0x80) * 64 + (d - 0x80), n)
  }

  predicate ShortScalar(v: int, n: nat) { IsScalar(v) && ShortestForm(v) == n }

  predicate StartsWithChar(s: Bytes, n: nat) {
    n <= |s| && IsCharOf(n, NumberAt(s, 0), NumberAt(s, 1), NumberAt(s, 2), NumberAt(s, 3))
  }

  /** The table of byte ranges accepts exactly the scalar values in their shortest forms. */
  lemma CharLengthIff(s: Bytes, n: nat)
    requires n > 0
    ensures CharLength(s) == n <==> StartsWithChar(s, n)
  {
    LengthInNumbers(s);
    if n <= |s| { TableMeansScalar(|s|, n, NumberAt(s, 0), NumberAt(s, 1), NumberAt(s, 2), NumberAt(s, 3)); }
  }

  predicate TailNumber(b: int) { 0x80 <= b <= 0xBF }

  /** The same table on the numbers of the first four bytes. */
  function LengthOfNumbers(size: nat, a: int, b: int, c: int, d: int): nat {
    if size >= 1 && a <= 0x7F then 1
    else if size >= 2 && 0xC2 <= a <= 0xDF && TailNumber(b) then 2
    else if size >= 3 && TailNumber(c) && (
           || (a == 0xE0 && 0xA0 <= b <= 0xBF)
           || (0xE1 <= a <= 0xEC && TailNumber(b))
           || (a == 0xED && 0x80 <= b <= 0x9F)
           || (0xEE <= a <= 0xEF && TailNumber(b))) then 3
    else if size >= 4 && TailNumber(c) && TailNumber(d) && (
           || (a == 0xF0 && 0x90 <= b <= 0xBF)
           || (0xF1 <= a <= 0xF3 && TailNumber(b))
           || (a == 0xF4 && 0x80 <= b <= 0x8F)) then 4
    else 0
  }

  function NumberAt(s: Bytes, i: nat): int { if i < |s| then s[i] as int else 0 }

  lemma LengthInNumbers(s: Bytes)
    ensures CharLength(s) == LengthOfNumbers(|s|, NumberAt(s, 0), NumberAt(s, 1), NumberAt(s, 2), NumberAt(s, 3))
  {
    if |s| >= 1 { LeadRanges(s[0]); }
    if |s| >= 2 { SecondRanges(s[1]); TailRange(s[1]); }
    if |s| >= 3 { TailRange(s[2]); }
    if |s| >= 4 { TailRange(s[3]); }
  }

  lemma TailRange(b: bv8)
    ensures IsTail(b) <==> TailNumber(b as int)
  {
  }

  lemma LeadRanges(b: bv8)
    ensures b <= 0x7F <==> b as int <= 0x7F
    ensures 0xC2 <= b <= 0xDF <==> 0xC2 <= b as int <= 0xDF
    ensures (b == 0xE0 <==> b as int == 0xE0) && (b == 0xED <==> b as int == 0xED)
    ensures 0xE1 <= b <= 0xEC <==> 0xE1 <= b as int <= 0xEC
    ensures 0xEE <= b <= 0xEF <==> 0xEE <= b as int <= 0xEF
    ensures (b == 0xF0 <==> b as int == 0xF0) && (b == 0xF4 <==> b as int == 0xF4)
    ensures 0xF1 <= b <= 0xF3 <==> 0xF1 <= b as int <= 0xF3
  {
  }

  lemma SecondRanges(b: bv8)
    ensures 0xA0 <= b <= 0xBF <==> 0xA0 <= b as int <= 0xBF
    ensures 0x80 <= b <= 0x9F <==> 0x80 <= b as int <= 0x9F
    ensures 0x90 <= b <= 0xBF <==> 0x90 <= b as int <= 0xBF
    ensures 0x80 <= b <= 0x8F <==> 0x80 <= b as int <= 0x8F
  {
  }

  lemma TwoNumbers(size: nat, a: int, b: int, c: int, d: int)
    requires size >= 2 && 0 <= a < 256
    ensures LengthOfNumbers(size, a, b, c, d) == 2 <==> IsCharOf(2, a, b, c, d)
  {
  }

  lemma ThreeNumbers(size: nat, a: int, b: int, c: int, d: int)
    requires size >= 3 && 0 <= a < 256
    ensures LengthOfNumbers(size, a, b, c, d) == 3 <==> IsCharOf(3, a, b, c, d)
  {
  }

  lemma FourNumbers(size: nat, a: int, b: int, c: int, d: int)
    requires size >= 4 && 0 <= a < 256
    ensures LengthOfNumbers(size, a, b, c, d) == 4 <==> IsCharOf(4, a, b, c, d)
  {
  }

  lemma TableMeansScalar(size: nat, n: nat, a: int, b: int, c: int, d: int)
    requires 1 <= n <= size && 0 <= a < 256
    ensures LengthOfNumbers(size, a, b, c, d) == n <==> IsCharOf(n, a, b, c, d)
  {
    match n
    case 2 => TwoNumbers(size, a, b, c, d);
    case 3 => ThreeNumbers(size, a, b, c, d);
    case 4 => FourNumbers(size, a, b, c, d);
    case _ =>
  }

  // ---- concatenation and boundaries ----

  lemma CharLengthOfFront(s: Bytes, rest: Bytes)
    requires CharLength(s) > 0
    ensures CharLength(s + rest) == CharLength(s)
  {
  }

  lemma {:induction false} ValidConcat(s: Bytes, t: Bytes)
    requires Valid(s) && Valid(t)
    ensures Valid(s + t)
  {
    if s == [] {
      assert s + t == t;
    } else {
      var n := CharLength(s);
      CharLengthOfFront(s, t);
      assert (s + t)[n..] == s[n..] + t;
      ValidConcat(s[n..], t);
    }
  }

  /** A position where the bytes before and after are each a sequence of whole characters. */
  predicate Boundary(s: Bytes, i: nat) {
    i <= |s| && Valid(s[..i]) && Valid(s[i..])
  }

  /**
   * In valid UTF-8 the character boundaries are exactly the positions whose byte is not a
   * continuation byte, which is what `is_char_boundary` and `utf8_floor` look at; and no
   * four bytes in a row are all continuation bytes.
   */
  lemma BoundaryIff(s: Bytes, i: nat)
    requires Valid(s) && i < |s|
    ensures Boundary(s, i) <==> !IsTail(s[i])
    ensures i >= 3 && IsTail(s[i]) && IsTail(s[i - 1]) && IsTail(s[i - 2]) ==> !IsTail(s[i - 3])
  {
    BoundaryIsNoTail(s, i);
    if i >= 3 { NoFourTails(s, i); }
  }

  lemma {:induction false} BoundaryIsNoTail(s: Bytes, i: nat)
    requires Valid(s) && i < |s|
    ensures Boundary(s, i) <==> !IsTail(s[i])
  {
    var n := CharLength(s);
    var rest := s[n..];
    if i == 0 {
      assert s[..0] == [] && s[0..] == s;
    } else if i < n {
      assert s[i..][0] == s[i];
    } else {
      BoundaryIsNoTail(rest, i - n);
      assert rest[i - n] == s[i] && rest[i - n..] == s[i..];
      PrefixValidIff(s, i);
    }
  }

  lemma {:induction false} NoFourTails(s: Bytes, i: nat)
    requires Valid(s) && 3 <= i < |s|
    ensures !(IsTail(s[i]) && IsTail(s[i - 1]) && IsTail(s[i - 2]) && IsTail(s[i - 3]))
  {
    var n := CharLength(s);
    var rest := s[n..];
    if i - 3 < n {
      if n <= i { FirstIsNoTail(rest); }
    } else {
      NoFourTails(rest, i - n);
    }
  }

  /** Dropping the first whole character does not change which longer prefixes are valid. */
  lemma PrefixValidIff(s: Bytes, i: nat)
    requires CharLength(s) > 0 && CharLength(s) <= i <= |s|
    ensures Valid(s[..i]) <==> Valid(s[CharLength(s)..][..i - CharLength(s)])
  {
    SlicesAgree(s, CharLength(s), i);
    FrontIsAChar(s, i);
  }

  lemma SlicesAgree(s: Bytes, n: nat, i: nat)
    requires n <= i <= |s|
    ensures s[n..][..i - n] == s[n..i] == s[..i][n..]
  {
  }

  lemma FrontIsAChar(s: Bytes, i: nat)
    requires CharLength(s) > 0 && CharLength(s) <= i <= |s|
    ensures CharLength(s[..i]) == CharLength(s)
  {
  }

  lemma FirstIsNoTail(s: Bytes)
    requires Valid(s) && s != []
    ensures !IsTail(s[0])
  {
  }

  lemma IsTailBits(b: bv8)
    ensures b & 0xC0 == 0x80 <==> IsTail(b)
  {
  }

  /** The cut is the largest boundary not above the cap. */
  ghost predicate IsFloor(s: Bytes, cap: nat, cut: nat) {
    cut <= cap && Boundary(s, cut) && forall j :: cut < j <= cap && j <= |s| ==> !Boundary(s, j)
  }

  /** `utf8_floor`: on valid UTF-8 the largest boundary not above the cap, at most 3 bytes below. */
  method Utf8Floor(bytes: Bytes, pos: nat) returns (i: nat)
    requires pos < |bytes|
    ensures i <= pos
    ensures Valid(bytes) ==> IsFloor(bytes, pos, i) && pos - i <= 3
  {
    i := pos;
    while i > 0 && bytes[i] & 0xC0 == 0x80
      invariant i <= pos
      invariant forall j :: i < j <= pos ==> IsTail(bytes[j])
    {
      IsTailBits(bytes[i]);
      i := i - 1;
    }
    IsTailBits(bytes[i]);
    if Valid(bytes) { FloorOf(bytes, pos, i); }
  }

  /** `floor_char_boundary`, with `is_char_boundary` as the standard library decides it. */
  method FloorCharBoundary(s: Bytes, pos: nat) returns (i: nat)
    requires Valid(s)
    ensures pos >= |s| ==> i == |s|
    ensures pos < |s| ==> IsFloor(s, pos, i) && pos - i <= 3
  {
    if pos >= |s| { return |s|; }
    i := pos;
    while i > 0 && IsTail(s[i])
      invariant i <= pos
      invariant forall j :: i < j <= pos ==> IsTail(s[j])
    {
      i := i - 1;
    }
    FloorOf(s, pos, i);
  }

  lemma FloorOf(s: Bytes, pos: nat, i: nat)
    requires Valid(s) && i <= pos < |s| && (i == 0 || !IsTail(s[i]))
    requires forall j :: i < j <= pos ==> IsTail(s[j])
    ensures IsFloor(s, pos, i) && pos - i <= 3
  {
    BoundaryIff(s, i);
    forall j | i < j <= pos ensures !Boundary(s, j) { BoundaryIff(s, j); }
    if pos - i > 3 { BoundaryIff(s, pos); }
  }

  /** The two functions agree on every valid string and every cap below its length. */
  lemma FloorsAgree(s: Bytes, cap: nat, a: nat, b: nat)
    requires cap < |s| && IsFloor(s, cap, a) && IsFloor(s, cap, b)
    ensures a == b
  {
  }

  // ---- the event buffer ----

  function Digit(d: nat): (b: bv8)
    requires d < 10
    ensures 0x30 <= b <= 0x39 && b as int == 0x30 + d
  {
    if d == 0 then 0x30 else if d == 1 then 0x31 else if d == 2 then 0x32 else if d == 3 then 0x33 else if d == 4 then 0x34
    else if d == 5 then 0x35 else if d == 6 then 0x36 else if d == 7 then 0x37 else if d == 8 then 0x38 else 0x39
  }

  function Digits(n: nat): (s: Bytes)
    ensures s != [] && forall i :: 0 <= i < |s| ==> 0x30 <= s[i] <= 0x39
  {
    if n < 10 then [Digit(n)] else Digits(n / 10) + [Digit(n % 10)]
  }

  function Decimal(s: Bytes): int {
    if s == [] then 0 else 10 * Decimal(s[..|s| - 1]) + (s[|s| - 1] as int - 0x30)
  }

  /** The suffix names the true length. */
  lemma {:induction false} DigitsAreDecimal(n: nat)
    ensures Decimal(Digits(n)) == n
  {
    if n >= 10 {
      DigitsAreDecimal(n / 10);
      var front := Digits(n / 10);
      assert Digits(n)[..|front|] == front;
    }
  }

  /** "...[", the length, "B total]" and a newline. */
  function Suffix(total: nat): Bytes {
    [0x2E, 0x2E, 0x2E, 0x5B] + Digits(total) + [0x42, 0x20, 0x74, 0x6F, 0x74, 0x61, 0x6C, 0x5D, 0x0A]
  }

  lemma {:induction false} AsciiIsValid(s: Bytes)
    requires forall i :: 0 <= i < |s| ==> s[i] <= 0x7F
    ensures Valid(s)
  {
    if s == [] {
    } else {
      AsciiIsValid(s[1..]);
    }
  }

  /** Removing a trailing newline from valid UTF-8 leaves valid UTF-8. */
  lemma DropNewline(s: Bytes)
    requires Valid(s) && s != [] && s[|s| - 1] == 0x0A
    ensures Valid(s[..|s| - 1])
  {
    BoundaryIff(s, |s| - 1);
  }

  class EventBuffer {
    var buf: Bytes
    const maxBytes: nat

    constructor (maxBytes: nat)
      ensures buf == [] && this.maxBytes == maxBytes
    {
      buf, this.maxBytes := [], maxBytes;
    }

    method Write(data: Bytes) returns (n: nat)
      modifies this
      ensures buf == old(buf) + data && n == |data|
    {
      buf := buf + data;
      n := |data|;
    }

    /** `drop`: the bytes sent to stderr. Short events pass unchanged; long ones are cut whole. */
    method Drop() returns (output: Bytes)
      ensures |buf| <= maxBytes ==> output == buf
      ensures |buf| > maxBytes ==> exists cut: nat ::
        && cut <= maxBytes && (Valid(buf) ==> IsFloor(buf, maxBytes, cut))
        && output == (if cut > 0 && buf[cut - 1] == 0x0A then buf[..cut - 1] else buf[..cut]) + Suffix(|buf|)
      ensures Valid(buf) ==> Valid(output)
    {
      if |buf| <= maxBytes { return buf; }
      var cut := Utf8Floor(buf, maxBytes);
      var kept := buf[..cut];
      if Valid(buf) && cut > 0 && buf[cut - 1] == 0x0A { DropNewline(kept); }
      var trimmed := if cut > 0 && kept[cut - 1] == 0x0A then kept[..cut - 1] else kept;
      output := trimmed + Suffix(|buf|);
      AsciiIsValid(Suffix(|buf|));
      if Valid(buf) { ValidConcat(trimmed, Suffix(|buf|)); }
      assert cut > 0 ==> kept[..cut - 1] == buf[..cut - 1];
    }
  }
}
