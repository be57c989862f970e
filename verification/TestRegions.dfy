/**
 * Which lines are test code, by positions in the file alone: test attributes, items, the blocks
 * that items open, and the braces that are still open where a line starts.
 */
module TestRegions {
  import opened Wrappers
  import opened TestContexts

  /** The place of a character: its line and its column. */
  datatype Pos = Pos(line: nat, col: nat)

  // ---- items and attributes ----

  /** A line that a waiting attribute survives: no item, and blank or another attribute. */
  predicate LetsAttributeWait(p: Patterns, code: string) {
    p.item(code).None? && (p.strip(code) == "" || StartsWithAttribute(p.strip(code)))
  }

  /** A test attribute on line a still waits where line n starts. */
  ghost predicate Waits(p: Patterns, codes: seq<string>, a: int, n: nat)
    requires n <= |codes|
  {
    0 <= a < n && p.isTestAttribute(p.strip(codes[a])) && forall i :: a <= i < n ==> LetsAttributeWait(p, codes[i])
  }

  ghost predicate AttributeWaits(p: Patterns, codes: seq<string>, n: nat)
    requires n <= |codes|
  {
    exists a :: Waits(p, codes, a, n)
  }

  /** The line has an item that is `mod tests` or follows a test attribute, on its own line or above. */
  ghost predicate TestItem(p: Patterns, codes: seq<string>, j: nat)
    requires j < |codes|
  {
    && p.item(codes[j]).Some?
    && (p.item(codes[j]).value || p.isTestAttribute(p.strip(codes[j])) || AttributeWaits(p, codes, j))
  }

  /** The last line before n that has an item. */
  function LastItem(p: Patterns, codes: seq<string>, n: nat): (j: Option<nat>)
    requires n <= |codes|
    ensures j.Some? ==> j.value < n && p.item(codes[j.value]).Some?
    ensures forall i :: (if j.Some? then j.value + 1 else 0) <= i < n ==> p.item(codes[i]).None?
  {
    if n == 0 then None else if p.item(codes[n - 1]).Some? then Some(n - 1) else LastItem(p, codes, n - 1)
  }

  /** From line j to column c of line n no block opens, and no line before n ends in a semicolon. */
  ghost predicate Unbroken(p: Patterns, codes: seq<string>, j: nat, n: nat, c: nat)
    requires n <= |codes| && (n < |codes| ==> c <= |codes[n]|)
  {
    && (forall i :: j <= i < n ==> '{' !in codes[i] && !EndsWithSemicolon(p.strip(codes[i])))
    && (n < |codes| ==> '{' !in codes[n][..c])
  }

  /** The item whose block has still to open where line n starts. */
  ghost function AwaitedBefore(p: Patterns, codes: seq<string>, n: nat): (j: Option<nat>)
    requires n <= |codes|
    ensures j.Some? ==> j.value < n
  {
    var j := LastItem(p, codes, n);
    if j.Some? && Unbroken(p, codes, j.value, n, 0) then j else None
  }

  /** The item whose block has still to open at column c of line n, an item on the line included. */
  ghost function Awaited(p: Patterns, codes: seq<string>, n: nat, c: nat): (j: Option<nat>)
    requires n < |codes| && c <= |codes[n]|
    ensures j.Some? ==> j.value <= n
  {
    var j := LastItem(p, codes, n + 1);
    if j.Some? && Unbroken(p, codes, j.value, n, c) then j else None
  }

  // ---- open blocks ----

  /** A brace opens a block or closes the innermost; other characters leave the blocks alone. */
  function AfterChar(open: seq<Pos>, c: char, at: Pos): seq<Pos> {
    if c == '{' then open + [at] else if c == '}' && open != [] then open[..|open| - 1] else open
  }

  /** The blocks open after c characters of a line, from those open before it. */
  function OpenIn(open: seq<Pos>, code: string, line: nat, c: nat): seq<Pos>
    requires c <= |code|
  {
    if c == 0 then open else AfterChar(OpenIn(open, code, line, c - 1), code[c - 1], Pos(line, c - 1))
  }

  /** The blocks open where line n starts, the innermost last. */
  function OpenAt(codes: seq<string>, n: nat): seq<Pos>
    requires n <= |codes|
  {
    if n == 0 then [] else OpenIn(OpenAt(codes, n - 1), codes[n - 1], n - 1, |codes[n - 1]|)
  }

  /** The blocks open just before a place. */
  function OpenBefore(codes: seq<string>, b: Pos): seq<Pos>
    requires b.line < |codes| && b.col <= |codes[b.line]|
  {
    OpenIn(OpenAt(codes, b.line), codes[b.line], b.line, b.col)
  }

  ghost predicate IsBrace(codes: seq<string>, b: Pos) {
    b.line < |codes| && b.col < |codes[b.line]| && codes[b.line][b.col] == '{'
  }

  predicate Earlier(a: Pos, b: Pos) {
    a.line < b.line || (a.line == b.line && a.col < b.col)
  }

  /** Every open block was opened by a brace before. */
  lemma {:induction false} OpenedAt(codes: seq<string>, n: nat, k: nat)
    requires n <= |codes| && k < |OpenAt(codes, n)|
    ensures IsBrace(codes, OpenAt(codes, n)[k]) && OpenAt(codes, n)[k].line < n
    decreases n, 0
  {
    OpenedBefore(codes, Pos(n - 1, |codes[n - 1]|), k);
  }

  lemma {:induction false} OpenedBefore(codes: seq<string>, b: Pos, k: nat)
    requires b.line < |codes| && b.col <= |codes[b.line]| && k < |OpenBefore(codes, b)|
    ensures IsBrace(codes, OpenBefore(codes, b)[k]) && Earlier(OpenBefore(codes, b)[k], b)
    decreases b.line, b.col + 1
  {
    if b.col == 0 {
      OpenedAt(codes, b.line, k);
    } else {
      var before := OpenBefore(codes, b.(col := b.col - 1));
      if k < |before| { OpenedBefore(codes, b.(col := b.col - 1), k); }
    }
  }

  // ---- test blocks, by position ----

  /** A block is test code if its item is, or stands in test code; without an item, if the block around it is. */
  ghost predicate TestBlock(p: Patterns, codes: seq<string>, b: Pos)
    requires b.line < |codes| && b.col < |codes[b.line]|
    decreases b.line, b.col + 1
  {
    match Awaited(p, codes, b.line, b.col)
    case Some(j) => TestItem(p, codes, j) || InTest(p, codes, j)
    case None =>
      var around := OpenBefore(codes, b);
      around != [] && (OpenedBefore(codes, b, |around| - 1); TestBlock(p, codes, around[|around| - 1]))
  }

  /** Line n starts inside a test block. */
  ghost predicate InTest(p: Patterns, codes: seq<string>, n: nat)
    requires n <= |codes|
    decreases n, 0
  {
    var open := OpenAt(codes, n);
    open != [] && (OpenedAt(codes, n, |open| - 1); TestBlock(p, codes, open[|open| - 1]))
  }

  /** The item is a test, or stands in test code. */
  ghost predicate TestCode(p: Patterns, codes: seq<string>, j: nat)
    requires j < |codes|
  {
    TestItem(p, codes, j) || InTest(p, codes, j)
  }

  /** A line is test code if it starts in a test block or the block of a test item has still to open. */
  ghost predicate Marked(p: Patterns, codes: seq<string>, n: nat)
    requires n < |codes|
  {
    InTest(p, codes, n) || (Awaited(p, codes, n, 0).Some? && TestCode(p, codes, Awaited(p, codes, n, 0).value))
  }

  // ---- the tracker follows the positions ----

  ghost function Verdict(p: Patterns, codes: seq<string>, j: Option<nat>): Option<bool>
    requires j.Some? ==> j.value < |codes|
  {
    if j.None? then None else Some(TestCode(p, codes, j.value))
  }

  /** The stack holds the verdict on each open block. */
  ghost predicate StackOk(p: Patterns, codes: seq<string>, stack: seq<bool>, open: seq<Pos>) {
    && |stack| == |open|
    && forall k :: 0 <= k < |stack| ==> IsBrace(codes, open[k]) && stack[k] == TestBlock(p, codes, open[k])
  }

  ghost predicate LineOk(p: Patterns, codes: seq<string>, n: nat, t: Tracker)
    requires n <= |codes|
  {
    && StackOk(p, codes, t.stack, OpenAt(codes, n)) && (t.attr <==> AttributeWaits(p, codes, n))
    && t.pending == Verdict(p, codes, AwaitedBefore(p, codes, n))
  }

  ghost predicate MidOk(p: Patterns, codes: seq<string>, n: nat, c: nat, t: Tracker)
    requires n < |codes| && c <= |codes[n]|
  {
    && StackOk(p, codes, t.stack, OpenBefore(codes, Pos(n, c)))
    && t.pending == Verdict(p, codes, Awaited(p, codes, n, c))
  }

  lemma AttributeStep(p: Patterns, codes: seq<string>, n: nat)
    requires n < |codes|
    ensures AttributeWaits(p, codes, n + 1) <==>
      (AttributeWaits(p, codes, n) || p.isTestAttribute(p.strip(codes[n]))) && LetsAttributeWait(p, codes[n])
  {
    if AttributeWaits(p, codes, n + 1) {
      var a :| Waits(p, codes, a, n + 1);
      if a < n { assert Waits(p, codes, a, n); }
    }
    if LetsAttributeWait(p, codes[n]) {
      if AttributeWaits(p, codes, n) {
        var a :| Waits(p, codes, a, n);
        assert Waits(p, codes, a, n + 1);
      }
      if p.isTestAttribute(p.strip(codes[n])) { assert Waits(p, codes, n, n + 1); }
    }
  }

  lemma TopMeans(p: Patterns, codes: seq<string>, n: nat, stack: seq<bool>)
    requires n <= |codes| && StackOk(p, codes, stack, OpenAt(codes, n))
    ensures Top(stack) <==> InTest(p, codes, n)
  {
  }

  lemma HeaderStep(p: Patterns, codes: seq<string>, n: nat, t: Tracker)
    requires n < |codes| && LineOk(p, codes, n, t)
    ensures MidOk(p, codes, n, 0, Header(p, t, codes[n]))
    ensures Header(p, t, codes[n]).attr <==> AttributeWaits(p, codes, n + 1)
  {
    AttributeStep(p, codes, n);
    TopMeans(p, codes, n, t.stack);
    if p.item(codes[n]).Some? {
      assert LastItem(p, codes, n + 1) == Some(n);
    } else {
      assert LastItem(p, codes, n + 1) == LastItem(p, codes, n);
    }
  }

  lemma AwaitedStep(p: Patterns, codes: seq<string>, n: nat, c: nat)
    requires n < |codes| && c < |codes[n]|
    ensures Awaited(p, codes, n, c + 1) == if codes[n][c] == '{' then None else Awaited(p, codes, n, c)
  {
    var front, more := codes[n][..c], codes[n][..c + 1];
    assert more == front + [codes[n][c]];
    assert '{' in more <==> '{' in front || codes[n][c] == '{';
  }

  lemma BraceStep(p: Patterns, codes: seq<string>, n: nat, c: nat, t: Tracker)
    requires n < |codes| && c < |codes[n]| && MidOk(p, codes, n, c, t)
    ensures MidOk(p, codes, n, c + 1, Brace(t, codes[n][c]))
  {
    AwaitedStep(p, codes, n, c);
    if codes[n][c] == '{' { BlockStep(p, codes, n, c, t); }
  }

  lemma BlockStep(p: Patterns, codes: seq<string>, n: nat, c: nat, t: Tracker)
    requires n < |codes| && c < |codes[n]| && codes[n][c] == '{' && MidOk(p, codes, n, c, t)
    ensures TestBlock(p, codes, Pos(n, c)) == if t.pending.Some? then t.pending.value else Top(t.stack)
  {
    var j, around := Awaited(p, codes, n, c), OpenBefore(codes, Pos(n, c));
    if j.Some? {
      BlockWithItem(p, codes, Pos(n, c), j.value);
    } else {
      BlockWithoutItem(p, codes, Pos(n, c), around);
    }
  }

  lemma BlockWithItem(p: Patterns, codes: seq<string>, b: Pos, j: nat)
    requires b.line < |codes| && b.col < |codes[b.line]| && Awaited(p, codes, b.line, b.col) == Some(j)
    ensures TestBlock(p, codes, b) == TestCode(p, codes, j)
  {
  }

  lemma BlockWithoutItem(p: Patterns, codes: seq<string>, b: Pos, around: seq<Pos>)
    requires b.line < |codes| && b.col < |codes[b.line]| && Awaited(p, codes, b.line, b.col).None?
    requires around == OpenBefore(codes, b)
    ensures forall stack :: StackOk(p, codes, stack, around) ==> TestBlock(p, codes, b) == Top(stack)
  {
  }

  lemma {:induction false} BracesStep(p: Patterns, codes: seq<string>, n: nat, c: nat, t: Tracker)
    requires n < |codes| && c <= |codes[n]| && MidOk(p, codes, n, 0, t)
    ensures MidOk(p, codes, n, c, Braces(t, codes[n][..c]))
  {
    if c == 0 {
      assert codes[n][..c] == "";
    } else {
      BracesStep(p, codes, n, c - 1, t);
      BraceStep(p, codes, n, c - 1, Braces(t, codes[n][..c - 1]));
      assert codes[n][..c][..c - 1] == codes[n][..c - 1];
    }
  }

  lemma {:induction false} BracesKeepAttr(t: Tracker, code: string)
    ensures Braces(t, code).attr == t.attr
  {
    if code == "" {
    } else {
      BracesKeepAttr(t, code[..|code| - 1]);
    }
  }

  lemma LineStep(p: Patterns, codes: seq<string>, n: nat, t: Tracker)
    requires n < |codes| && LineOk(p, codes, n, t)
    ensures LineOk(p, codes, n + 1, Line(p, t, codes[n]))
  {
    var code, header := codes[n], Header(p, t, codes[n]);
    HeaderStep(p, codes, n, t);
    BracesStep(p, codes, n, |code|, header);
    BracesKeepAttr(header, code);
    assert code[..|code|] == code;
    AwaitedAtEnd(p, codes, n);
  }

  lemma AwaitedAtEnd(p: Patterns, codes: seq<string>, n: nat)
    requires n < |codes|
    ensures AwaitedBefore(p, codes, n + 1) ==
      if EndsWithSemicolon(p.strip(codes[n])) then None else Awaited(p, codes, n, |codes[n]|)
  {
    assert codes[n][..|codes[n]|] == codes[n];
  }

  lemma {:induction false} TrackerFollows(p: Patterns, codes: seq<string>, n: nat)
    requires n <= |codes|
    ensures LineOk(p, codes, n, TrackerAfter(p, codes[..n]))
  {
    if n == 0 {
      assert codes[..0] == [];
    } else {
      TrackerFollows(p, codes, n - 1);
      LineStep(p, codes, n - 1, TrackerAfter(p, codes[..n - 1]));
      assert codes[..n][..n - 1] == codes[..n - 1];
    }
  }

  lemma {:induction false} ContextAt(p: Patterns, codes: seq<string>, n: nat)
    requires n < |codes|
    ensures Contexts(p, codes)[n] == IsTestLine(p, TrackerAfter(p, codes[..n]), codes[n])
  {
    var last := |codes| - 1;
    if n == last {
    } else {
      ContextAt(p, codes[..last], n);
      assert codes[..last][..n] == codes[..n];
    }
  }

  /** A line is marked as test code exactly if it is, by position. */
  lemma MarkedIff(p: Patterns, codes: seq<string>, n: nat)
    requires n < |codes|
    ensures Contexts(p, codes)[n] <==> Marked(p, codes, n)
  {
    var t := TrackerAfter(p, codes[..n]);
    ContextAt(p, codes, n);
    TrackerFollows(p, codes, n);
    HeaderStep(p, codes, n, t);
    TopMeans(p, codes, n, t.stack);
  }

  // ---- open blocks are those whose brace is not yet closed ----

  /** Opening minus closing braces among the first c characters. */
  function Net(code: string, c: nat): int
    requires c <= |code|
  {
    if c == 0 then 0 else Net(code, c - 1) + (if code[c - 1] == '{' then 1 else if code[c - 1] == '}' then -1 else 0)
  }

  function NetOfLines(codes: seq<string>, n: nat): int
    requires n <= |codes|
  {
    if n == 0 then 0 else NetOfLines(codes, n - 1) + Net(codes[n - 1], |codes[n - 1]|)
  }

  /** Opening minus closing braces up to a place. */
  function Level(codes: seq<string>, at: Pos): int
    requires at.line < |codes| && at.col <= |codes[at.line]|
  {
    NetOfLines(codes, at.line) + Net(codes[at.line], at.col)
  }

  predicate Until(codes: seq<string>, b: Pos, at: Pos, end: Pos) {
    && at.line < |codes| && at.col <= |codes[at.line]|
    && Earlier(b, at)
    && (at.line < end.line || (at.line == end.line && at.col <= end.col))
  }

  /** Between the brace and the end, never more braces close than open. */
  ghost predicate StaysOpen(codes: seq<string>, b: Pos, end: Pos)
    requires IsBrace(codes, b)
  {
    forall at :: Until(codes, b, at, end) ==> Level(codes, at) > Level(codes, b)
  }

  /** What the open blocks are at a place: as many as the level rose since each, and all that stay open. */
  ghost predicate OpenOk(codes: seq<string>, at: Pos, open: seq<Pos>) {
    && at.line < |codes| && at.col <= |codes[at.line]|
    && (forall k :: 0 <= k < |open| ==>
          IsBrace(codes, open[k]) && Until(codes, open[k], at, at) && Level(codes, at) - Level(codes, open[k]) == |open| - k)
    && (forall b :: IsBrace(codes, b) && Until(codes, b, at, at) ==> (b in open <==> StaysOpen(codes, b, at)))
  }

  /** One character on, a brace stays open if it was and the level is still above it. */
  lemma StaysOpenStep(codes: seq<string>, b: Pos, at: Pos)
    requires IsBrace(codes, b) && at.line < |codes| && at.col < |codes[at.line]| && Until(codes, b, at, at)
    ensures var next := at.(col := at.col + 1);
      StaysOpen(codes, b, next) <==> StaysOpen(codes, b, at) && Level(codes, next) > Level(codes, b)
  {
    var next := at.(col := at.col + 1);
    assert Until(codes, b, next, next);
    forall q ensures Until(codes, b, q, next) <==> Until(codes, b, q, at) || q == next {
    }
  }

  lemma NewBlockIsOpen(codes: seq<string>, b: Pos)
    requires IsBrace(codes, b)
    ensures StaysOpen(codes, b, b.(col := b.col + 1)) && Level(codes, b.(col := b.col + 1)) == Level(codes, b) + 1
  {
    var next := b.(col := b.col + 1);
    forall q | Until(codes, b, q, next) ensures Level(codes, q) > Level(codes, b) {
      assert q == next;
    }
  }

  lemma OpenStep(codes: seq<string>, at: Pos, open: seq<Pos>)
    requires OpenOk(codes, at, open) && at.col < |codes[at.line]|
    ensures var c := codes[at.line][at.col];
      var after := AfterChar(open, c, at);
      OpenOk(codes, at.(col := at.col + 1), after)
  {
    var c, next := codes[at.line][at.col], at.(col := at.col + 1);
    var after := AfterChar(open, c, at);
    LevelsStep(codes, at, open, after);
    forall b | IsBrace(codes, b) && Until(codes, b, next, next) ensures b in after <==> StaysOpen(codes, b, next) {
      if b == at { NewBlockIsOpen(codes, b); } else { MemberStep(codes, at, open, after, b); }
    }
  }

  lemma LevelsStep(codes: seq<string>, at: Pos, open: seq<Pos>, after: seq<Pos>)
    requires OpenOk(codes, at, open) && at.col < |codes[at.line]|
    requires var c := codes[at.line][at.col];
      after == AfterChar(open, c, at)
    ensures var next := at.(col := at.col + 1);
      forall k :: 0 <= k < |after| ==>
        IsBrace(codes, after[k]) && Until(codes, after[k], next, next) && Level(codes, next) - Level(codes, after[k]) == |after| - k
  {
  }

  /** A block seen before stays in the list exactly if its brace stays open over the next character. */
  lemma MemberStep(codes: seq<string>, at: Pos, open: seq<Pos>, after: seq<Pos>, b: Pos)
    requires OpenOk(codes, at, open) && at.col < |codes[at.line]| && b != at
    requires var c := codes[at.line][at.col];
      after == AfterChar(open, c, at)
    requires IsBrace(codes, b) && Until(codes, b, at.(col := at.col + 1), at.(col := at.col + 1))
    ensures b in after <==> StaysOpen(codes, b, at.(col := at.col + 1))
  {
    assert Until(codes, b, at, at);
    StaysOpenStep(codes, b, at);
    if b in open {
      var k :| 0 <= k < |open| && open[k] == b;
      if codes[at.line][at.col] == '}' {
        var front := open[..|open| - 1];
        if k < |front| { assert front[k] == b; }
      }
    }
  }

  lemma NextLine(codes: seq<string>, n: nat, open: seq<Pos>)
    requires n + 1 < |codes| && OpenOk(codes, Pos(n, |codes[n]|), open)
    ensures OpenOk(codes, Pos(n + 1, 0), open)
  {
    var at, next := Pos(n, |codes[n]|), Pos(n + 1, 0);
    assert Level(codes, next) == Level(codes, at);
    forall b | IsBrace(codes, b) && Until(codes, b, next, next)
      ensures Until(codes, b, at, at) && (StaysOpen(codes, b, next) <==> StaysOpen(codes, b, at))
    {
      forall q ensures Until(codes, b, q, next) <==> Until(codes, b, q, at) || q == next {
      }
    }
  }

  lemma NothingOpenYet(codes: seq<string>)
    requires codes != []
    ensures OpenOk(codes, Pos(0, 0), [])
  {
  }

  /** What each character keeps holds after all of them. */
  lemma {:induction false} OverChars(holds: (nat, seq<Pos>) -> bool, start: seq<Pos>, code: string, line: nat, c: nat)
    requires c <= |code| && holds(0, start)
    requires forall k, open :: 0 <= k < c && holds(k, open) ==> holds(k + 1, AfterChar(open, code[k], Pos(line, k)))
    ensures holds(c, OpenIn(start, code, line, c))
  {
    if c == 0 {
    } else {
      OverChars(holds, start, code, line, c - 1);
    }
  }

  lemma AlongLine(codes: seq<string>, n: nat, start: seq<Pos>)
    requires n < |codes| && OpenOk(codes, Pos(n, 0), start)
    ensures OpenOk(codes, Pos(n, |codes[n]|), OpenIn(start, codes[n], n, |codes[n]|))
  {
    var holds := (k: nat, open: seq<Pos>) => OpenOk(codes, Pos(n, k), open);
    forall k, open | 0 <= k < |codes[n]| && holds(k, open) ensures holds(k + 1, AfterChar(open, codes[n][k], Pos(n, k))) {
      var more := OneMoreChar(codes, Pos(n, k), open);
    }
    OverChars(holds, start, codes[n], n, |codes[n]|);
  }

  lemma OneMoreChar(codes: seq<string>, at: Pos, open: seq<Pos>) returns (more: seq<Pos>)
    requires OpenOk(codes, at, open) && at.col < |codes[at.line]|
    ensures OpenOk(codes, Pos(at.line, at.col + 1), more) && more == AfterChar(open, codes[at.line][at.col], at)
  {
    OpenStep(codes, at, open);
    more := AfterChar(open, codes[at.line][at.col], at);
  }

  lemma LineChange(codes: seq<string>, n: nat, start: seq<Pos>)
    requires n + 1 < |codes| && start == OpenAt(codes, n) && OpenOk(codes, Pos(n, 0), start)
    ensures OpenOk(codes, Pos(n + 1, 0), OpenAt(codes, n + 1))
  {
    AlongLine(codes, n, start);
    NextLine(codes, n, OpenAt(codes, n + 1));
  }

  lemma {:induction false} AtLineStart(codes: seq<string>, n: nat)
    requires n < |codes|
    ensures OpenOk(codes, Pos(n, 0), OpenAt(codes, n))
  {
    if n == 0 {
      NothingOpenYet(codes);
    } else {
      AtLineStart(codes, n - 1);
      LineChange(codes, n - 1, OpenAt(codes, n - 1));
    }
  }

  /** A block is open where a line starts exactly if its brace has not been closed by then. */
  lemma OpenIff(codes: seq<string>, b: Pos, n: nat)
    requires n < |codes| && IsBrace(codes, b) && b.line < n
    ensures b in OpenAt(codes, n) <==> StaysOpen(codes, b, Pos(n, 0))
  {
    AtLineStart(codes, n);
  }

  // ---- what this means for test code ----

  /** A test item's own line is marked, ... */
  lemma TestItemIsMarked(p: Patterns, codes: seq<string>, j: nat)
    requires j < |codes| && TestItem(p, codes, j)
    ensures Contexts(p, codes)[j]
  {
    assert LastItem(p, codes, j + 1) == Some(j);
    MarkedIff(p, codes, j);
  }

  /** ... so are the lines until its block opens, ... */
  lemma LinesToTheBlockAreMarked(p: Patterns, codes: seq<string>, j: nat, n: nat)
    requires j <= n < |codes| && TestItem(p, codes, j) && Unbroken(p, codes, j, n, 0)
    requires forall i :: j < i <= n ==> p.item(codes[i]).None?
    ensures Contexts(p, codes)[n]
  {
    var last := LastItem(p, codes, n + 1);
    assert last == Some(j);
    MarkedIff(p, codes, n);
  }

  /** ... and so is every line that starts inside the block it opens, however deep. */
  lemma InsideTestItemIsMarked(p: Patterns, codes: seq<string>, j: nat, b: Pos, n: nat)
    requires b.line < n < |codes| && IsBrace(codes, b) && StaysOpen(codes, b, Pos(n, 0))
    requires Awaited(p, codes, b.line, b.col) == Some(j) && TestItem(p, codes, j)
    ensures Contexts(p, codes)[n]
  {
    OpenIff(codes, b, n);
    TrackerFollows(p, codes, n);
    var open := OpenAt(codes, n);
    var k :| 0 <= k < |open| && open[k] == b;
    InsideTestIsTest(p, codes, n, k);
  }

  /** Every marked line traces back to a test item at or above it. */
  lemma MarkedHasTestItem(p: Patterns, codes: seq<string>, n: nat)
    requires n < |codes| && Contexts(p, codes)[n]
    ensures exists j :: 0 <= j <= n && TestItem(p, codes, j)
  {
    MarkedIff(p, codes, n);
    var j := SourceOfMark(p, codes, n);
  }

  lemma SourceOfMark(p: Patterns, codes: seq<string>, n: nat) returns (j: nat)
    requires n < |codes| && Marked(p, codes, n)
    ensures j <= n && TestItem(p, codes, j)
  {
    if InTest(p, codes, n) {
      j := SourceOfTest(p, codes, n);
    } else {
      j := Awaited(p, codes, n, 0).value;
      if !TestItem(p, codes, j) { j := SourceOfTest(p, codes, j); }
    }
  }

  lemma {:induction false} SourceOfTest(p: Patterns, codes: seq<string>, n: nat) returns (j: nat)
    requires n <= |codes| && InTest(p, codes, n)
    ensures j < n && TestItem(p, codes, j)
    decreases n, 0, 0
  {
    var open := OpenAt(codes, n);
    OpenedAt(codes, n, |open| - 1);
    j := SourceOfBlock(p, codes, open[|open| - 1]);
  }

  lemma {:induction false} SourceOfBlock(p: Patterns, codes: seq<string>, b: Pos) returns (j: nat)
    requires b.line < |codes| && b.col < |codes[b.line]| && TestBlock(p, codes, b)
    ensures j <= b.line && TestItem(p, codes, j)
    decreases b.line, 1, b.col
  {
    match Awaited(p, codes, b.line, b.col)
    case Some(i) =>
      j := i;
      if !TestItem(p, codes, i) { j := SourceOfTest(p, codes, i); }
    case None =>
      var around := OpenBefore(codes, b);
      OpenedBefore(codes, b, |around| - 1);
      j := SourceOfBlock(p, codes, around[|around| - 1]);
  }

  /** A file without test items has no test code. */
  lemma NoTestItemNoTestCode(p: Patterns, codes: seq<string>)
    requires forall j :: 0 <= j < |codes| ==> !TestItem(p, codes, j)
    ensures forall n :: 0 <= n < |codes| ==> !Contexts(p, codes)[n]
  {
    forall n | 0 <= n < |codes| ensures !Contexts(p, codes)[n] {
      if Contexts(p, codes)[n] { MarkedHasTestItem(p, codes, n); }
    }
  }
}
