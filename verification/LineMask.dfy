/** `sanitize_line`: blanking comments, strings and characters out of a line of Rust. */
module LineMask {
  import opened Wrappers

  /** What the lexer is inside of at some point of a file. */
  datatype Mode =
    | Code
    | Comment(depth: nat)
    | RawString(hashes: nat)
    | String(escape: bool)
    | Character(escape: bool)

  /** The end of the run of '#' that starts at i. */
  function SkipHashes(line: string, i: nat): (j: nat)
    requires i <= |line|
    ensures i <= j <= |line|
    decreases |line| - i
  {
    if i < |line| && line[i] == '#' then SkipHashes(line, i + 1) else i
  }

  function NextIs(line: string, i: nat, c: char): bool {
    i + 1 < |line| && line[i + 1] == c
  }

  predicate OpensRawString(line: string, i: nat)
    requires i < |line|
  {
    line[i] == 'r' && SkipHashes(line, i + 1) < |line| && line[SkipHashes(line, i + 1)] == '"'
  }

  predicate OpensComment(line: string, i: nat)
    requires i < |line|
  {
    line[i] == '/' && (NextIs(line, i, '/') || NextIs(line, i, '*'))
  }

  /** One turn of the loop: the mode after it, where it continues, and whether column i is kept. */
  datatype Turn = Turn(mode: Mode, next: nat, keep: bool)

  function Step(line: string, i: nat, mode: Mode): (t: Turn)
    requires i < |line|
    ensures i < t.next <= |line|
    ensures t.keep ==>
      mode == Code && t == Turn(Code, i + 1, true) && line[i] != '"' && line[i] != '\'' && !OpensComment(line, i)
  {
    var ch := line[i];
    match mode
    case Comment(depth) =>
      if ch == '/' && NextIs(line, i, '*') then Turn(Comment(depth + 1), i + 2, false)
      else if ch == '*' && NextIs(line, i, '/') then Turn(if depth <= 1 then Code else Comment(depth - 1), i + 2, false)
      else Turn(mode, i + 1, false)
    case RawString(hashes) =>
      var j := SkipHashes(line, i + 1);
      if ch == '"' && j - i - 1 == hashes then Turn(Code, j, false) else Turn(mode, i + 1, false)
    case String(escape) =>
      Turn(if escape then String(false) else if ch == '\\' then String(true) else if ch == '"' then Code else mode, i + 1, false)
    case Character(escape) =>
      Turn(if escape then Character(false) else if ch == '\\' then Character(true) else if ch == '\'' then Code else mode, i + 1, false)
    case Code =>
      if ch == '/' && NextIs(line, i, '/') then Turn(Code, |line|, false)
      else if ch == '/' && NextIs(line, i, '*') then Turn(Comment(1), i + 2, false)
      else if OpensRawString(line, i) then
        var j := SkipHashes(line, i + 1);
        Turn(RawString(j - i - 1), j + 1, false)
      else if ch == '"' then Turn(String(false), i + 1, false)
      else if ch == '\'' then Turn(Character(false), i + 1, false)
      else Turn(Code, i + 1, true)
  }

  function Blanks(n: nat): (s: string)
    ensures |s| == n && forall k :: 0 <= k < n ==> s[k] == ' '
  {
    seq(n, _ => ' ')
  }

  /** The rest of the line from column i, masked, and the mode after it. */
  function Mask(line: string, i: nat, mode: Mode): (r: (string, Mode))
    requires i <= |line|
    ensures |r.0| == |line| - i
    decreases |line| - i
  {
    if i == |line| then ("", mode) else
      var t := Step(line, i, mode);
      var rest := Mask(line, t.next, t.mode);
      ([if t.keep then line[i] else ' '] + Blanks(t.next - i - 1) + rest.0, rest.1)
  }

  lemma MaskTurn(line: string, i: nat, mode: Mode, before: string, after: string)
    requires i < |line|
    requires var t := Step(line, i, mode);
      after == before + [if t.keep then line[i] else ' '] + Blanks(t.next - i - 1)
    ensures var t := Step(line, i, mode);
      before + Mask(line, i, mode).0 == after + Mask(line, t.next, t.mode).0
  {
  }

  /** Each column is blank or shows its own character. */
  lemma {:induction false} MaskKeepsColumns(line: string, i: nat, mode: Mode, k: nat)
    requires i <= k < |line|
    ensures Mask(line, i, mode).0[k - i] == ' ' || Mask(line, i, mode).0[k - i] == line[k]
    decreases |line| - i
  {
    var t := Step(line, i, mode);
    if k >= t.next { MaskKeepsColumns(line, t.next, t.mode, k); }
  }

  /** Nothing that opens a string, a character or a comment. */
  ghost predicate NoOpeners(s: string) {
    forall k :: 0 <= k < |s| ==> s[k] != '"' && s[k] != '\'' && !OpensComment(s, k)
  }

  lemma {:induction false} MaskLeavesNoOpeners(line: string, i: nat, mode: Mode)
    requires i <= |line|
    ensures NoOpeners(Mask(line, i, mode).0)
    decreases |line| - i
  {
    if i == |line| {
    } else {
      var t := Step(line, i, mode);
      var rest, out := Mask(line, t.next, t.mode).0, Mask(line, i, mode).0;
      MaskLeavesNoOpeners(line, t.next, t.mode);
      forall k | 0 <= k < |out| ensures out[k] != '"' && out[k] != '\'' && !OpensComment(out, k) {
        var skip := t.next - i;
        if k >= skip {
          assert out[k] == rest[k - skip];
          assert k + 1 < |out| ==> out[k + 1] == rest[k + 1 - skip];
          assert !OpensComment(rest, k - skip);
        } else if k == 0 && t.keep {
          assert !OpensComment(line, i);
        }
      }
    }
  }

  lemma {:induction false} CleanLinesAreKept(line: string, i: nat)
    requires NoOpeners(line) && i <= |line|
    ensures Mask(line, i, Code) == (line[i..], Code)
    decreases |line| - i
  {
    if i < |line| {
      assert !OpensComment(line, i);
      assert Step(line, i, Code) == Turn(Code, i + 1, true);
      CleanLinesAreKept(line, i + 1);
      assert Mask(line, i, Code).0 == [line[i]] + Blanks(0) + line[i + 1..] == line[i..];
    } else {
      assert line[i..] == "";
    }
  }

  /**
   * From any mode, masking a masked line again from fresh changes nothing and opens nothing:
   * no string, character, raw-string or comment opener survives.
   */
  lemma MaskingIsAFixpoint(line: string, mode: Mode)
    ensures Mask(Mask(line, 0, mode).0, 0, Code) == (Mask(line, 0, mode).0, Code)
  {
    var masked := Mask(line, 0, mode).0;
    MaskLeavesNoOpeners(line, 0, mode);
    CleanLinesAreKept(masked, 0);
  }

  /** `LexerState`, with the six fields the script keeps. */
  class LexerState {
    var blockCommentDepth: nat
    var inString: bool
    var stringEscape: bool
    var inChar: bool
    var charEscape: bool
    var rawStringHashes: Option<nat>

    constructor ()
      ensures OneMode() && CurrentMode() == Code
    {
      blockCommentDepth, inString, stringEscape, inChar, charEscape, rawStringHashes := 0, false, false, false, false, None;
    }

    /** At most one mode is active, and an escape only inside its literal. */
    ghost predicate OneMode()
      reads this
    {
      && (blockCommentDepth > 0 ==> rawStringHashes.None? && !inString && !inChar)
      && (rawStringHashes.Some? ==> !inString && !inChar)
      && (inString ==> !inChar)
      && (stringEscape ==> inString) && (charEscape ==> inChar)
    }

    ghost function CurrentMode(): Mode
      reads this
    {
      if blockCommentDepth > 0 then Comment(blockCommentDepth)
      else if rawStringHashes.Some? then RawString(rawStringHashes.value)
      else if inString then String(stringEscape)
      else if inChar then Character(charEscape)
      else Code
    }

    /** One turn of the loop on the fields; the column is kept only in code. */
    method Advance(line: string, i: nat) returns (next: nat, keep: bool)
      requires i < |line| && OneMode()
      modifies this
      ensures OneMode()
      ensures Turn(CurrentMode(), next, keep) == Step(line, i, old(CurrentMode()))
    {
      var ch := line[i];
      if blockCommentDepth > 0 {
        if ch == '/' && NextIs(line, i, '*') {
          blockCommentDepth := blockCommentDepth + 1;
          return i + 2, false;
        }
        if ch == '*' && NextIs(line, i, '/') {
          blockCommentDepth := blockCommentDepth - 1;
          return i + 2, false;
        }
        return i + 1, false;
      }
      if rawStringHashes.Some? {
        if ch == '"' {
          var j := HashesEnd(line, i + 1);
          if j - i - 1 == rawStringHashes.value {
            rawStringHashes := None;
            return j, false;
          }
        }
        return i + 1, false;
      }
      if inString {
        if stringEscape { stringEscape := false; }
        else if ch == '\\' { stringEscape := true; }
        else if ch == '"' { inString := false; }
        return i + 1, false;
      }
      if inChar {
        if charEscape { charEscape := false; }
        else if ch == '\\' { charEscape := true; }
        else if ch == '\'' { inChar := false; }
        return i + 1, false;
      }
      if ch == '/' && NextIs(line, i, '/') { return |line|, false; }
      if ch == '/' && NextIs(line, i, '*') {
        blockCommentDepth := blockCommentDepth + 1;
        return i + 2, false;
      }
      if ch == 'r' {
        var j := HashesEnd(line, i + 1);
        if j < |line| && line[j] == '"' {
          rawStringHashes := Some(j - i - 1);
          return j + 1, false;
        }
      }
      if ch == '"' {
        inString := true;
        return i + 1, false;
      }
      if ch == '\'' {
        inChar := true;
        return i + 1, false;
      }
      return i + 1, true;
    }

    method SanitizeLine(line: string) returns (masked: string)
      requires OneMode()
      modifies this
      ensures OneMode()
      ensures masked == Mask(line, 0, old(CurrentMode())).0
      ensures CurrentMode() == Mask(line, 0, old(CurrentMode())).1
    {
      var out := new char[|line|](_ => ' ');
      var i := 0;
      ghost var mode := CurrentMode();
      while i < |line|
        invariant i <= |line| && OneMode() && fresh(out)
        invariant forall k :: i <= k < |line| ==> out[k] == ' '
        invariant Mask(line, 0, mode).0 == out[..i] + Mask(line, i, CurrentMode()).0
        invariant Mask(line, 0, mode).1 == Mask(line, i, CurrentMode()).1
        decreases |line| - i
      {
        ghost var before, at, now := out[..i], i, CurrentMode();
        var next, keep := Advance(line, i);
        if keep { out[i] := line[i]; }
        i := next;
        MaskTurn(line, at, now, before, out[..i]);
      }
      masked := out[..];
      assert out[..] == out[..i];
    }
  }

  method HashesEnd(line: string, start: nat) returns (j: nat)
    requires start <= |line|
    ensures j == SkipHashes(line, start)
  {
    j := start;
    while j < |line| && line[j] == '#'
      invariant start <= j <= |line| && SkipHashes(line, j) == SkipHashes(line, start)
    {
      j := j + 1;
    }
  }
}
