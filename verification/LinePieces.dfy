/**
 * What masking means, independently of the lexer: a line written as a list of pieces keeps the
 * code characters in their columns and loses every literal and comment as a whole.
 */
module LinePieces {
  import opened LineMask

  /** The inside of a block comment, which may hold further block comments. */
  datatype Remark =
    | End
    | Letter(c: char, rest: Remark)
    | Nested(inner: Remark, rest: Remark)

  /** The pieces of a line of Rust. Lifetimes and loop labels are code, like plain characters. */
  datatype Piece =
    | Plain(c: char)
    | Lifetime(name: string)
    | Quoted(quote: char, body: string)
    | Raw(hashes: string, body: string)
    | Block(remark: Remark)

  function RemarkText(r: Remark): string {
    match r
    case End => ""
    case Letter(c, rest) => [c] + RemarkText(rest)
    case Nested(inner, rest) => "/*" + (RemarkText(inner) + ("*/" + RemarkText(rest)))
  }

  /** The piece as it is written, followed by the rest of the line. */
  function Write(p: Piece, after: string): string {
    match p
    case Plain(c) => [c] + after
    case Lifetime(name) => "'" + (name + after)
    case Quoted(quote, body) => [quote] + (body + ([quote] + after))
    case Raw(hashes, body) => ("r" + hashes + "\"") + (body + (("\"" + hashes) + after))
    case Block(r) => "/*" + (RemarkText(r) + ("*/" + after))
  }

  function Width(p: Piece): nat {
    match p
    case Plain(_) => 1
    case Lifetime(name) => |name| + 1
    case Quoted(_, body) => |body| + 2
    case Raw(hashes, body) => |body| + 2 * |hashes| + 3
    case Block(r) => |RemarkText(r)| + 4
  }

  function Shown(p: Piece): string {
    match p
    case Plain(c) => [c]
    case Lifetime(name) => "'" + name
    case _ => Blanks(Width(p))
  }

  function WriteAll(pieces: seq<Piece>, after: string): string {
    if pieces == [] then after else Write(pieces[0], WriteAll(pieces[1..], after))
  }

  function ShownAll(pieces: seq<Piece>): string {
    if pieces == [] then "" else Shown(pieces[0]) + ShownAll(pieces[1..])
  }

  /** Every backslash escapes a character, and no bare quote occurs. */
  predicate LiteralBody(s: string, quote: char) {
    s == "" || if s[0] == '\\' then |s| >= 2 && LiteralBody(s[2..], quote) else s[0] != quote && LiteralBody(s[1..], quote)
  }

  /** The inside of a character literal: one character, or one escape. */
  predicate CharBody(s: string) {
    if |s| == 1 then s[0] != '\'' && s[0] != '\\'
    else |s| >= 2 && s[0] == '\\' && (|s| == 2 || (forall k :: 1 <= k < |s| ==> NameChar(s[k]) || s[k] == '{' || s[k] == '}'))
  }

  /** Rust ends a raw string at the first quote with at least n hashes, so its body holds none. */
  predicate RawBody(s: string, n: nat) {
    forall k :: 0 <= k < |s| && s[k] == '"' ==> SkipHashes(s, k + 1) < k + 1 + n
  }

  /** The masker ends one only at a quote with exactly n hashes. */
  predicate NeverCloses(s: string, n: nat) {
    forall k :: 0 <= k < |s| && s[k] == '"' ==> SkipHashes(s, k + 1) != k + 1 + n
  }

  predicate NameChar(c: char) {
    'a' <= c <= 'z' || 'A' <= c <= 'Z' || '0' <= c <= '9' || c == '_' || c >= 128 as char
  }

  predicate AllHashes(s: string) {
    forall k :: 0 <= k < |s| ==> s[k] == '#'
  }

  predicate StartsWith(s: string, c: char) {
    s != "" && s[0] == c
  }

  /** No letter of the comment starts a delimiter. */
  predicate RemarkOk(r: Remark, after: string) {
    match r
    case End => true
    case Letter(c, rest) =>
      && !(c == '/' && StartsWith(RemarkText(rest) + after, '*'))
      && !(c == '*' && StartsWith(RemarkText(rest) + after, '/'))
      && RemarkOk(rest, after)
    case Nested(inner, rest) => RemarkOk(inner, "*/") && RemarkOk(rest, after)
  }

  /**
   * The piece is well written, and can stand before the given text in Rust. A lifetime ends with
   * its name, and a quote behind it would make it a character literal. A name ending in `r` cannot
   * stand directly before a string, since such prefixes are reserved.
   */
  predicate PieceOk(p: Piece, after: string) {
    match p
    case Plain(c) => c != '"' && c != '\'' && !OpensComment([c] + after, 0) && !OpensRawString([c] + after, 0)
    case Lifetime(name) =>
      && name != "" && (forall k :: 0 <= k < |name| ==> NameChar(name[k]))
      && (after != "" ==> !NameChar(after[0]) && after[0] != '\'')
    case Quoted(quote, body) => if quote == '"' then LiteralBody(body, quote) else quote == '\'' && CharBody(body)
    case Raw(hashes, body) => AllHashes(hashes) && RawBody(body, |hashes|)
    case Block(r) => RemarkOk(r, "*/")
  }

  predicate PiecesOk(pieces: seq<Piece>, after: string) {
    pieces == [] || (PieceOk(pieces[0], WriteAll(pieces[1..], after)) && PiecesOk(pieces[1..], after))
  }

  /** The masker reads the piece as Rust does. */
  predicate ReadRightly(p: Piece, after: string) {
    !p.Lifetime? && !(p.Raw? && StartsWith(after, '#'))
  }

  /** No lifetimes, and no raw string directly followed by a hash. */
  predicate AllReadRightly(pieces: seq<Piece>, after: string) {
    pieces == [] || (ReadRightly(pieces[0], WriteAll(pieces[1..], after)) && AllReadRightly(pieces[1..], after))
  }

  // ---- masking depends only on the rest of the line ----

  lemma {:induction false} HashesShift(line: string, i: nat, k: nat)
    requires i <= k <= |line|
    ensures SkipHashes(line, k) == i + SkipHashes(line[i..], k - i)
    decreases |line| - k
  {
    if k < |line| && line[k] == '#' { HashesShift(line, i, k + 1); }
  }

  lemma StepShift(line: string, i: nat, rest: string, k: nat, mode: Mode)
    requires i <= k < |line| && rest == line[i..]
    ensures var t, u := Step(line, k, mode), Step(rest, k - i, mode); t == u.(next := i + u.next)
  {
    HashesShift(line, i, k + 1);
  }

  /** The same turn on the same rest gives the same mask. */
  lemma SameTurn(line: string, i: nat, line': string, i': nat, mode: Mode, t: Turn, t': Turn)
    requires i < |line| && i' < |line'| && line[i] == line'[i']
    requires t == Step(line, i, mode) && t' == Step(line', i', mode)
    requires t.keep == t'.keep && t.next - i == t'.next - i'
    requires Mask(line, t.next, t.mode) == Mask(line', t'.next, t'.mode)
    ensures Mask(line, i, mode) == Mask(line', i', mode)
  {
  }

  /** One turn reduces the claim at k to the claim where the turn ends. */
  lemma TurnShift(line: string, i: nat, rest: string, k: nat, mode: Mode, t: Turn)
    requires i <= k < |line| && rest == line[i..] && t == Step(line, k, mode)
    requires Mask(line, t.next, t.mode) == Mask(rest, t.next - i, t.mode)
    ensures Mask(line, k, mode) == Mask(rest, k - i, mode)
  {
    StepShift(line, i, rest, k, mode);
    SameTurn(line, k, rest, k - i, mode, t, Step(rest, k - i, mode));
  }

  lemma {:induction false} MaskShift(line: string, i: nat, k: nat, mode: Mode)
    requires i <= k <= |line|
    ensures Mask(line, k, mode) == Mask(line[i..], k - i, mode)
    decreases |line| - k
  {
    if k == |line| {
    } else {
      var t := Step(line, k, mode);
      MaskShift(line, i, t.next, t.mode);
      TurnShift(line, i, line[i..], k, mode, t);
    }
  }

  /** The lexer reads a first part of s, shows it so, and goes on with the rest in the given mode. */
  ghost predicate Reads(s: string, mode: Mode, shown: string, rest: string, after: Mode) {
    Mask(s, 0, mode) == (shown + Mask(rest, 0, after).0, Mask(rest, 0, after).1)
  }

  lemma ReadsNothing(s: string, mode: Mode)
    ensures Reads(s, mode, Blanks(0), s, mode)
  {
    assert Blanks(0) + Mask(s, 0, mode).0 == Mask(s, 0, mode).0;
  }

  /** A text read to its end is masked as shown. */
  lemma ReadsAll(s: string, mode: Mode, shown: string, after: Mode)
    requires Reads(s, mode, shown, "", after)
    ensures Mask(s, 0, mode) == (shown, after)
  {
    assert shown + "" == shown;
  }

  lemma ReadsOn(s: string, mode: Mode, a: string, t: string, mode': Mode, b: string, u: string, mode'': Mode)
    requires Reads(s, mode, a, t, mode') && Reads(t, mode', b, u, mode'')
    ensures Reads(s, mode, a + b, u, mode'')
  {
    assert a + (b + Mask(u, 0, mode'').0) == (a + b) + Mask(u, 0, mode'').0;
  }

  lemma SkipsOn(s: string, mode: Mode, m: nat, t: string, mode': Mode, n: nat, u: string, mode'': Mode)
    requires Reads(s, mode, Blanks(m), t, mode') && Reads(t, mode', Blanks(n), u, mode'')
    ensures Reads(s, mode, Blanks(m + n), u, mode'')
  {
    ReadsOn(s, mode, Blanks(m), t, mode', Blanks(n), u, mode'');
    assert Blanks(m) + Blanks(n) == Blanks(m + n);
  }

  lemma TurnBlanks(s: string, mode: Mode, n: nat, after: Mode)
    requires 0 < n <= |s| && Step(s, 0, mode) == Turn(after, n, false)
    ensures Mask(s, 0, mode) == (Blanks(n) + Mask(s, n, after).0, Mask(s, n, after).1)
  {
    assert [' '] + Blanks(n - 1) == Blanks(n);
  }

  /** One turn of the lexer blanks the head it steps over. */
  lemma TurnSkips(s: string, mode: Mode, head: string, rest: string, after: Mode)
    requires s == head + rest && head != ""
    requires Step(s, 0, mode) == Turn(after, |head|, false)
    ensures Reads(s, mode, Blanks(|head|), rest, after)
  {
    TurnBlanks(s, mode, |head|, after);
    MaskShift(s, |head|, |head|, after);
    assert s[|head|..] == rest;
  }

  // ---- strings and characters ----

  function Inside(quote: char, escape: bool): Mode {
    if quote == '"' then String(escape) else Character(escape)
  }

  /** A literal's body is blanked and leaves the lexer inside the literal, also across lines. */
  lemma {:induction false} BodySkipped(body: string, quote: char, after: string)
    requires (quote == '"' || quote == '\'') && LiteralBody(body, quote)
    ensures Reads(body + after, Inside(quote, false), Blanks(|body|), after, Inside(quote, false))
    decreases |body|
  {
    var mode := Inside(quote, false);
    if body == "" {
      assert body + after == after;
      ReadsNothing(after, mode);
    } else if body[0] == '\\' {
      var mid, rest := body[1..] + after, body[2..] + after;
      assert body + after == [body[0]] + mid && mid == [body[1]] + rest;
      TurnSkips(body + after, mode, [body[0]], mid, Inside(quote, true));
      TurnSkips(mid, Inside(quote, true), [body[1]], rest, mode);
      SkipsOn(body + after, mode, 1, mid, Inside(quote, true), 1, rest, mode);
      BodySkipped(body[2..], quote, after);
      SkipsOn(body + after, mode, 2, rest, mode, |body| - 2, after, mode);
    } else {
      var rest := body[1..] + after;
      assert body + after == [body[0]] + rest;
      TurnSkips(body + after, mode, [body[0]], rest, mode);
      BodySkipped(body[1..], quote, after);
      SkipsOn(body + after, mode, 1, rest, mode, |body| - 1, after, mode);
    }
  }

  lemma {:induction false} BodyClosed(body: string, quote: char, after: string)
    requires (quote == '"' || quote == '\'') && LiteralBody(body, quote)
    ensures Reads(body + ([quote] + after), Inside(quote, false), Blanks(|body| + 1), after, Code)
  {
    var closing, mode := [quote] + after, Inside(quote, false);
    BodySkipped(body, quote, closing);
    TurnSkips(closing, mode, [quote], after, Code);
    SkipsOn(body + closing, mode, |body|, closing, mode, 1, after, Code);
  }

  lemma {:induction false} QuotedIsBlanked(quote: char, body: string, after: string)
    requires (quote == '"' || quote == '\'') && LiteralBody(body, quote)
    ensures Reads(Write(Quoted(quote, body), after), Code, Blanks(|body| + 2), after, Code)
  {
    var s, t := Write(Quoted(quote, body), after), body + ([quote] + after);
    TurnSkips(s, Code, [quote], t, Inside(quote, false));
    BodyClosed(body, quote, after);
    SkipsOn(s, Code, 1, t, Inside(quote, false), |body| + 1, after, Code);
  }

  // ---- raw strings ----

  /** The run of hashes ends where the hashes do. */
  lemma {:induction false} RunOfHashes(s: string, i: nat, j: nat)
    requires i <= j <= |s| && (forall k :: i <= k < j ==> s[k] == '#') && (j < |s| ==> s[j] != '#')
    ensures SkipHashes(s, i) == j
    decreases j - i
  {
    if i == j {
    } else {
      RunOfHashes(s, i + 1, j);
    }
  }

  lemma {:induction false} HashesRun(s: string, i: nat)
    requires i <= |s|
    ensures var j := SkipHashes(s, i);
      (j < |s| ==> s[j] != '#') && forall k :: i <= k < j ==> s[k] == '#'
    decreases |s| - i
  {
    if i < |s| && s[i] == '#' { HashesRun(s, i + 1); }
  }

  lemma {:induction false} RawBodySkipped(body: string, n: nat, after: string)
    requires NeverCloses(body, n) && !StartsWith(after, '#')
    ensures Reads(body + after, RawString(n), Blanks(|body|), after, RawString(n))
    decreases |body|
  {
    if body == "" {
      assert body + after == after;
      ReadsNothing(after, RawString(n));
    } else {
      var s, tail, rest := body + after, body[1..], body[1..] + after;
      assert s == [body[0]] + rest;
      var j := SkipHashes(body, 1);
      HashesRun(body, 1);
      RunOfHashes(s, 1, j);
      TurnSkips(s, RawString(n), [body[0]], rest, RawString(n));
      forall k | 0 <= k < |tail| && tail[k] == '"' ensures SkipHashes(tail, k + 1) != k + 1 + n {
        HashesShift(body, 1, k + 2);
        assert body[k + 1] == '"';
      }
      RawBodySkipped(tail, n, after);
      SkipsOn(s, RawString(n), 1, rest, RawString(n), |tail|, after, RawString(n));
    }
  }

  lemma RawOpens(s: string, hashes: string, rest: string)
    requires AllHashes(hashes) && s == ("r" + hashes + "\"") + rest
    ensures Reads(s, Code, Blanks(|hashes| + 2), rest, RawString(|hashes|))
  {
    RunOfHashes(s, 1, |hashes| + 1);
    TurnSkips(s, Code, "r" + hashes + "\"", rest, RawString(|hashes|));
  }

  lemma RawCloses(s: string, hashes: string, rest: string)
    requires AllHashes(hashes) && !StartsWith(rest, '#') && s == ("\"" + hashes) + rest
    ensures Reads(s, RawString(|hashes|), Blanks(|hashes| + 1), rest, Code)
  {
    RunOfHashes(s, 1, |hashes| + 1);
    TurnSkips(s, RawString(|hashes|), "\"" + hashes, rest, Code);
  }

  lemma RawEnds(body: string, closing: string, hashes: string, after: string)
    requires AllHashes(hashes) && NeverCloses(body, |hashes|) && !StartsWith(after, '#') && closing == ("\"" + hashes) + after
    ensures Reads(body + closing, RawString(|hashes|), Blanks(|body| + (|hashes| + 1)), after, Code)
  {
    var mode := RawString(|hashes|);
    RawBodySkipped(body, |hashes|, closing);
    RawCloses(closing, hashes, after);
    SkipsOn(body + closing, mode, |body|, closing, mode, |hashes| + 1, after, Code);
  }

  lemma RawIsBlanked(s: string, closing: string, hashes: string, body: string, after: string)
    requires AllHashes(hashes) && NeverCloses(body, |hashes|) && !StartsWith(after, '#')
    requires closing == ("\"" + hashes) + after && s == ("r" + hashes + "\"") + (body + closing)
    ensures Reads(s, Code, Blanks(|body| + 2 * |hashes| + 3), after, Code)
  {
    RawOpens(s, hashes, body + closing);
    RawEnds(body, closing, hashes, after);
    SkipsTwice(s, |hashes| + 2, body + closing, RawString(|hashes|), |body| + (|hashes| + 1), after, Code);
  }

  /** One character of a raw string that is not its closing quote. */
  lemma RawCharSkipped(s: string, n: nat)
    requires s != "" && (s[0] == '"' ==> SkipHashes(s, 1) != n + 1)
    ensures Reads(s, RawString(n), Blanks(1), s[1..], RawString(n))
  {
    assert s == [s[0]] + s[1..];
    TurnSkips(s, RawString(n), [s[0]], s[1..], RawString(n));
  }

  lemma {:induction false} HashesSkipped(hashes: string, rest: string, n: nat)
    requires AllHashes(hashes)
    ensures Reads(hashes + rest, RawString(n), Blanks(|hashes|), rest, RawString(n))
  {
    if hashes == "" {
      assert hashes + rest == rest;
      ReadsNothing(rest, RawString(n));
    } else {
      var s, t := hashes + rest, hashes[1..] + rest;
      assert s[1..] == t;
      RawCharSkipped(s, n);
      HashesSkipped(hashes[1..], rest, n);
      SkipsOn(s, RawString(n), 1, t, RawString(n), |hashes| - 1, rest, RawString(n));
    }
  }

  /** With one more hash the closing quote is not taken for one. */
  lemma RawStaysOpen(s: string, hashes: string, rest: string)
    requires AllHashes(hashes) && s == ("\"" + hashes) + ("#" + rest)
    ensures Reads(s, RawString(|hashes|), Blanks(|hashes| + 2), rest, RawString(|hashes|))
  {
    var n, more := |hashes|, hashes + "#";
    var t := more + rest;
    assert s[1..] == t;
    HashesRun(s, 1);
    assert s[n + 1] == '#';
    RawCharSkipped(s, n);
    HashesSkipped(more, rest, n);
    SkipsOn(s, RawString(n), 1, t, RawString(n), n + 1, rest, RawString(n));
  }

  lemma RawBodyRunsOn(body: string, closing: string, hashes: string, rest: string)
    requires AllHashes(hashes) && NeverCloses(body, |hashes|) && closing == ("\"" + hashes) + ("#" + rest)
    ensures Reads(body + closing, RawString(|hashes|), Blanks(|body| + (|hashes| + 2)), rest, RawString(|hashes|))
  {
    var mode := RawString(|hashes|);
    RawBodySkipped(body, |hashes|, closing);
    RawStaysOpen(closing, hashes, rest);
    SkipsOn(body + closing, mode, |body|, closing, mode, |hashes| + 2, rest, mode);
  }

  /** A raw string directly followed by a hash: the masker goes on inside the string. */
  lemma RawRunsOn(s: string, closing: string, hashes: string, body: string, rest: string)
    requires AllHashes(hashes) && NeverCloses(body, |hashes|) && closing == ("\"" + hashes) + ("#" + rest)
    requires s == ("r" + hashes + "\"") + (body + closing)
    ensures Reads(s, Code, Blanks(|body| + 2 * |hashes| + 4), rest, RawString(|hashes|))
  {
    RawOpens(s, hashes, body + closing);
    RawBodyRunsOn(body, closing, hashes, rest);
    SkipsTwice(s, |hashes| + 2, body + closing, RawString(|hashes|), |body| + (|hashes| + 2), rest, RawString(|hashes|));
  }

  lemma SkipsTwice(s: string, m: nat, t: string, inside: Mode, n: nat, u: string, after: Mode)
    requires Reads(s, Code, Blanks(m), t, inside) && Reads(t, inside, Blanks(n), u, after)
    ensures Reads(s, Code, Blanks(m + n), u, after)
  {
    SkipsOn(s, Code, m, t, inside, n, u, after);
  }

  /** The first character of a text read as code is shown if it is a hash. */
  lemma HashIsShown(after: string)
    requires StartsWith(after, '#')
    ensures Mask(after, 0, Code).0[0] == '#'
  {
    assert Step(after, 0, Code) == Turn(Code, 1, true);
  }

  /** A whole raw string is blanked, with the lexer back in code, exactly if no hash follows it. */
  lemma RawIsBlankedIff(hashes: string, body: string, after: string)
    requires PieceOk(Raw(hashes, body), after)
    ensures var p := Raw(hashes, body);
      Reads(Write(p, after), Code, Blanks(Width(p)), after, Code) <==> !StartsWith(after, '#')
  {
    var p := Raw(hashes, body);
    var s := Write(p, after);
    if StartsWith(after, '#') {
      assert after == "#" + after[1..];
      RawRunsOn(s, ("\"" + hashes) + after, hashes, body, after[1..]);
      HashIsShown(after);
      ShownAt(s, Code, Width(p) + 1, after[1..], RawString(|hashes|), Width(p));
    } else {
      RawIsBlanked(s, ("\"" + hashes) + after, hashes, body, after);
    }
  }

  lemma ShownAt(s: string, mode: Mode, n: nat, rest: string, after: Mode, k: nat)
    requires Reads(s, mode, Blanks(n), rest, after) && k < n
    ensures k < |Mask(s, 0, mode).0| && Mask(s, 0, mode).0[k] == ' '
  {
  }

  /**
   * The instance: after `r#"a"##` the rest of the line is hidden, whatever code it holds, and so
   * are the following lines, as long as no quote with exactly one hash comes.
   */
  lemma CodeAfterRawIsHidden(code: string)
    requires NeverCloses(code, 1)
    ensures var line := Write(Raw("#", "a"), "#" + code);
      Mask(line, 0, Code) == (Blanks(|line|), RawString(1))
  {
    var line := Write(Raw("#", "a"), "#" + code);
    assert SkipHashes("a", 1) == 1;
    RawRunsOn(line, ("\"" + "#") + ("#" + code), "#", "a", code);
    RawBodySkipped(code, 1, "");
    assert code + "" == code;
    SkipsOn(line, Code, 7, code, RawString(1), |code|, "", RawString(1));
    ReadsAll(line, Code, Blanks(7 + |code|), RawString(1));
  }

  // ---- block comments ----

  /** A comment's text is blanked at any depth, with all comments nested in it. */
  lemma {:induction false} RemarkSkipped(r: Remark, after: string, depth: nat)
    requires RemarkOk(r, "*/") && StartsWith(after, '*') && depth > 0
    ensures Reads(RemarkText(r) + after, Comment(depth), Blanks(|RemarkText(r)|), after, Comment(depth))
    decreases r, 0
  {
    var s, mode := RemarkText(r) + after, Comment(depth);
    match r
    case End =>
      assert s == after;
      ReadsNothing(after, mode);
    case Letter(c, rest) =>
      var t := RemarkText(rest) + after;
      assert s == [c] + t;
      assert t[0] == (RemarkText(rest) + "*/")[0];
      TurnSkips(s, mode, [c], t, mode);
      RemarkSkipped(rest, after, depth);
      SkipsOn(s, mode, 1, t, mode, |RemarkText(rest)|, after, mode);
    case Nested(inner, rest) =>
      var u := RemarkText(rest) + after;
      CommentIsSkipped(s, inner, u, mode, depth + 1);
      RemarkSkipped(rest, after, depth);
      SkipsOn(s, mode, |RemarkText(inner)| + 4, u, mode, |RemarkText(rest)|, after, mode);
  }

  /** A whole comment, opened in code or at some depth, returns to where it was opened. */
  lemma CommentIsSkipped(s: string, r: Remark, after: string, mode: Mode, depth: nat)
    requires s == "/*" + (RemarkText(r) + ("*/" + after)) && RemarkOk(r, "*/")
    requires depth > 0 && mode == if depth == 1 then Code else Comment(depth - 1)
    ensures Reads(s, mode, Blanks(|RemarkText(r)| + 4), after, mode)
    decreases r, 1
  {
    var t, u := RemarkText(r) + ("*/" + after), "*/" + after;
    TurnSkips(s, mode, "/*", t, Comment(depth));
    RemarkSkipped(r, u, depth);
    SkipsOn(s, mode, 2, t, Comment(depth), |RemarkText(r)|, u, Comment(depth));
    TurnSkips(u, Comment(depth), "*/", after, mode);
    SkipsOn(s, mode, 2 + |RemarkText(r)|, u, Comment(depth), 2, after, mode);
  }

  // ---- whole lines ----

  lemma PlainIsKept(c: char, after: string)
    requires PieceOk(Plain(c), after)
    ensures Reads([c] + after, Code, [c], after, Code)
  {
    var s := [c] + after;
    assert Step(s, 0, Code) == Turn(Code, 1, true);
    MaskShift(s, 1, 1, Code);
    assert s[1..] == after && [c] + Blanks(0) == [c];
  }

  lemma PieceIsRead(p: Piece, after: string)
    requires PieceOk(p, after) && ReadRightly(p, after)
    ensures Reads(Write(p, after), Code, Shown(p), after, Code)
  {
    match p
    case Plain(c) =>
      PlainIsKept(c, after);
    case Quoted(quote, body) =>
      if quote == '\'' { CharBodyIsBody(body); }
      QuotedIsBlanked(quote, body, after);
    case Raw(hashes, body) => RawIsBlankedIff(hashes, body, after);
    case Block(r) => CommentIsSkipped(Write(p, after), r, after, Code, 1);
  }

  /** Masking keeps exactly the code: every other piece is blanked whole and the lexer is back in code. */
  lemma {:induction false} MaskKeepsExactlyTheCode(pieces: seq<Piece>, after: string)
    requires PiecesOk(pieces, after) && AllReadRightly(pieces, after)
    ensures Reads(WriteAll(pieces, after), Code, ShownAll(pieces), after, Code)
  {
    if pieces == [] {
      ReadsNothing(after, Code);
    } else {
      var rest := WriteAll(pieces[1..], after);
      PieceIsRead(pieces[0], rest);
      MaskKeepsExactlyTheCode(pieces[1..], after);
      ReadsOn(WriteAll(pieces, after), Code, Shown(pieces[0]), rest, Code, ShownAll(pieces[1..]), after, Code);
    }
  }

  /** It does so exactly on the lines with no lifetime and no raw string directly followed by a hash. */
  lemma MaskKeepsExactlyTheCodeIff(pieces: seq<Piece>, after: string)
    requires PiecesOk(pieces, after)
    ensures Reads(WriteAll(pieces, after), Code, ShownAll(pieces), after, Code) <==> AllReadRightly(pieces, after)
  {
    if AllReadRightly(pieces, after) {
      MaskKeepsExactlyTheCode(pieces, after);
    } else {
      Misread(pieces, after);
    }
  }

  lemma {:induction false} Misread(pieces: seq<Piece>, after: string)
    requires PiecesOk(pieces, after) && !AllReadRightly(pieces, after)
    ensures Mask(WriteAll(pieces, after), 0, Code).0 != ShownAll(pieces) + Mask(after, 0, Code).0
  {
    var p, rest := pieces[0], WriteAll(pieces[1..], after);
    var shown := ShownAll(pieces[1..]) + Mask(after, 0, Code).0;
    if p.Raw? && StartsWith(rest, '#') {
      FirstHashIsShown(pieces[1..], after);
    } else if ReadRightly(p, rest) {
      Misread(pieces[1..], after);
    }
    PieceMisread(p, rest, shown);
    ShownSplits(pieces, Mask(after, 0, Code).0);
  }

  lemma ShownSplits(pieces: seq<Piece>, m: string)
    requires pieces != []
    ensures ShownAll(pieces) + m == Shown(pieces[0]) + (ShownAll(pieces[1..]) + m)
  {
  }

  lemma PieceMisread(p: Piece, rest: string, shown: string)
    requires PieceOk(p, rest)
    requires p.Raw? && StartsWith(rest, '#') ==> StartsWith(shown, '#')
    requires ReadRightly(p, rest) ==> Mask(rest, 0, Code).0 != shown
    ensures Mask(Write(p, rest), 0, Code).0 != Shown(p) + shown
  {
    if p.Lifetime? {
      LifetimeMisread(p.name, rest, shown);
    } else if p.Raw? && StartsWith(rest, '#') {
      RawMisread(p, rest, shown);
    } else {
      RestMisread(p, rest, shown);
    }
  }

  /** Masked text holds no quote, so a lifetime is never shown. */
  lemma LifetimeMisread(name: string, rest: string, shown: string)
    ensures Mask(Write(Lifetime(name), rest), 0, Code).0 != Shown(Lifetime(name)) + shown
  {
    var line := Write(Lifetime(name), rest);
    MaskLeavesNoOpeners(line, 0, Code);
    assert (Shown(Lifetime(name)) + shown)[0] == '\'';
  }

  lemma RawMisread(p: Piece, rest: string, shown: string)
    requires p.Raw? && PieceOk(p, rest) && StartsWith(rest, '#') && StartsWith(shown, '#')
    ensures Mask(Write(p, rest), 0, Code).0 != Shown(p) + shown
  {
    assert rest == "#" + rest[1..];
    RawRunsOn(Write(p, rest), ("\"" + p.hashes) + rest, p.hashes, p.body, rest[1..]);
    ShownAt(Write(p, rest), Code, Width(p) + 1, rest[1..], RawString(|p.hashes|), Width(p));
    assert (Shown(p) + shown)[Width(p)] == '#';
  }

  lemma RestMisread(p: Piece, rest: string, shown: string)
    requires PieceOk(p, rest) && ReadRightly(p, rest) && Mask(rest, 0, Code).0 != shown
    ensures Mask(Write(p, rest), 0, Code).0 != Shown(p) + shown
  {
    PieceIsRead(p, rest);
    Cancel(Shown(p), Mask(rest, 0, Code).0, shown);
  }

  lemma Cancel(a: string, b: string, c: string)
    requires b != c
    ensures a + b != a + c
  {
    assert (a + b)[|a|..] == b && (a + c)[|a|..] == c;
  }

  lemma FirstHashIsShown(pieces: seq<Piece>, after: string)
    requires StartsWith(WriteAll(pieces, after), '#') && PiecesOk(pieces, after)
    ensures StartsWith(ShownAll(pieces) + Mask(after, 0, Code).0, '#')
  {
    if pieces == [] {
      HashIsShown(after);
    } else {
      var p := pieces[0];
      assert p.Plain? && p.c == '#';
      assert Shown(p) == ['#'];
    }
  }

  lemma LineEnd(pieces: seq<Piece>, end: string, shown: string, mode: Mode)
    requires PiecesOk(pieces, end) && AllReadRightly(pieces, end) && Reads(end, Code, shown, "", mode)
    ensures Mask(WriteAll(pieces, end), 0, Code) == (ShownAll(pieces) + shown, mode)
  {
    var line := WriteAll(pieces, end);
    MaskKeepsExactlyTheCode(pieces, end);
    ReadsOn(line, Code, ShownAll(pieces), end, Code, shown, "", mode);
    ReadsAll(line, Code, ShownAll(pieces) + shown, mode);
  }

  /** A line comment hides the rest of its line and nothing of the next. */
  lemma LineCommentIsBlanked(pieces: seq<Piece>, text: string)
    requires PiecesOk(pieces, "//" + text) && AllReadRightly(pieces, "//" + text)
    ensures Mask(WriteAll(pieces, "//" + text), 0, Code) == (ShownAll(pieces) + Blanks(|text| + 2), Code)
  {
    var end := "//" + text;
    TurnSkips(end, Code, end, "", Code);
    LineEnd(pieces, end, Blanks(|end|), Code);
  }

  /** A literal still open at the end of a line leaves the lexer inside it ... */
  lemma LiteralLeftOpen(pieces: seq<Piece>, quote: char, body: string)
    requires (quote == '"' || quote == '\'') && LiteralBody(body, quote)
    requires PiecesOk(pieces, [quote] + body) && AllReadRightly(pieces, [quote] + body)
    ensures Mask(WriteAll(pieces, [quote] + body), 0, Code) ==
      (ShownAll(pieces) + Blanks(|body| + 1), Inside(quote, false))
  {
    var end, mode := [quote] + body, Inside(quote, false);
    TurnSkips(end, Code, [quote], body, mode);
    BodySkipped(body, quote, "");
    assert body + "" == body;
    SkipsOn(end, Code, 1, body, mode, |body|, "", mode);
    LineEnd(pieces, end, Blanks(|body| + 1), mode);
  }

  /** ... and ends at its quote on a later line, whose other pieces are then read as code. */
  lemma LiteralClosedLater(quote: char, body: string, pieces: seq<Piece>)
    requires (quote == '"' || quote == '\'') && LiteralBody(body, quote)
    requires PiecesOk(pieces, "") && AllReadRightly(pieces, "")
    ensures Mask(body + ([quote] + WriteAll(pieces, "")), 0, Inside(quote, false)) ==
      (Blanks(|body| + 1) + ShownAll(pieces), Code)
  {
    var code, mode := WriteAll(pieces, ""), Inside(quote, false);
    var line := body + ([quote] + code);
    BodyClosed(body, quote, code);
    MaskKeepsExactlyTheCode(pieces, "");
    ReadsOn(line, mode, Blanks(|body| + 1), code, Code, ShownAll(pieces), "", Code);
    ReadsAll(line, mode, Blanks(|body| + 1) + ShownAll(pieces), Code);
  }

  // ---- what a lifetime hides ----

  lemma CharBodyIsBody(s: string)
    requires CharBody(s)
    ensures LiteralBody(s, '\'')
  {
    if |s| == 1 {
      assert s[1..] == "";
    } else {
      UnquotedIsBody(s[2..]);
    }
  }

  lemma {:induction false} NamesAreBodies(name: string, text: string)
    requires (forall k :: 0 <= k < |name| ==> NameChar(name[k])) && LiteralBody(text, '\'')
    ensures LiteralBody(name + text, '\'')
  {
    if name == "" {
      assert name + text == text;
    } else {
      NamesAreBodies(name[1..], text);
      assert (name + text)[1..] == name[1..] + text && NameChar(name[0]);
    }
  }

  /**
   * A lifetime is taken for the start of a character literal: it hides itself and everything up to
   * the next quote on its line ...
   */
  lemma {:induction false} LifetimeHidesToNextQuote(line: string, name: string, text: string, after: string, rest: string)
    requires (forall k :: 0 <= k < |name| ==> NameChar(name[k])) && LiteralBody(text, '\'')
    requires rest == text + (['\''] + after) && line == Write(Lifetime(name), rest)
    ensures Reads(line, Code, Blanks(|name| + |text| + 2), after, Code)
  {
    LifetimeOpens(line, name, rest);
    BodyClosed(text, '\'', after);
    SkipsTwice(line, |name| + 1, rest, Character(false), |text| + 1, after, Code);
  }

  lemma {:induction false} LifetimeOpens(line: string, name: string, rest: string)
    requires (forall k :: 0 <= k < |name| ==> NameChar(name[k])) && line == Write(Lifetime(name), rest)
    ensures Reads(line, Code, Blanks(|name| + 1), rest, Character(false))
  {
    UnquotedIsBody(name);
    TurnSkips(line, Code, "'", name + rest, Character(false));
    BodySkipped(name, '\'', rest);
    SkipsTwice(line, 1, name + rest, Character(false), |name|, rest, Character(false));
  }

  /** ... or, if there is none, the rest of the line, and leaves the lexer inside the literal ... */
  lemma {:induction false} LifetimeHidesTheLine(pieces: seq<Piece>, name: string, text: string)
    requires PieceOk(Lifetime(name), text) && LiteralBody(text, '\'')
    requires PiecesOk(pieces, "'" + (name + text)) && AllReadRightly(pieces, "'" + (name + text))
    ensures Mask(WriteAll(pieces, Write(Lifetime(name), text)), 0, Code) ==
      (ShownAll(pieces) + Blanks(|name| + |text| + 1), Character(false))
  {
    var body := name + text;
    NamesAreBodies(name, text);
    assert ['\''] + body == Write(Lifetime(name), text);
    LiteralLeftOpen(pieces, '\'', body);
  }

  /** ... where every following line is hidden whole until one has a quote. */
  lemma {:induction false} LinesStayHidden(text: string)
    requires LiteralBody(text, '\'')
    ensures Mask(text, 0, Character(false)) == (Blanks(|text|), Character(false))
  {
    BodySkipped(text, '\'', "");
    assert text + "" == text;
    ReadsAll(text, Character(false), Blanks(|text|), Character(false));
  }

  /** The instance: behind `<'a>` all code is hidden, on this line and on the next. */
  lemma CodeBehindLifetimeIsHidden(code: string, next: string)
    requires forall k :: 0 <= k < |code| ==> code[k] != '\'' && code[k] != '\\'
    requires forall k :: 0 <= k < |next| ==> next[k] != '\'' && next[k] != '\\'
    ensures Mask("<" + ("'a>" + code), 0, Code) == ("<" + Blanks(|code| + 3), Character(false))
    ensures Mask(next, 0, Character(false)) == (Blanks(|next|), Character(false))
  {
    var text, head := ">" + code, [Plain('<')];
    UnquotedIsBody(text);
    UnquotedIsBody(next);
    var end := "'" + ("a" + text);
    assert end == "'a>" + code;
    assert head[1..] == [] && WriteAll(head, end) == "<" + end;
    assert ShownAll(head) == "<";
    LifetimeHidesTheLine(head, "a", text);
    LinesStayHidden(next);
  }

  lemma {:induction false} UnquotedIsBody(text: string)
    requires forall k :: 0 <= k < |text| ==> text[k] != '\'' && text[k] != '\\'
    ensures LiteralBody(text, '\'')
  {
    if text == "" {
    } else {
      UnquotedIsBody(text[1..]);
    }
  }
}
