/** `line_test_contexts`: which lines of a file belong to test code. */
module TestContexts {
  import opened Wrappers
  import opened LineMask

  /** What the regular expressions and `strip` say about a masked line. */
  datatype Patterns = Patterns(
    strip: string -> string,
    isTestAttribute: string -> bool,
    item: string -> Option<bool>)  // an item, and whether it is `mod tests`

  /** The block stack, a test attribute waiting for its item, an item waiting for its block. */
  datatype Tracker = Tracker(stack: seq<bool>, attr: bool, pending: Option<bool>)

  predicate Top(stack: seq<bool>) { stack != [] && stack[|stack| - 1] }

  predicate StartsWithAttribute(s: string) { |s| >= 2 && s[0] == '#' && s[1] == '[' }
  predicate EndsWithSemicolon(s: string) { s != "" && s[|s| - 1] == ';' }

  /** What one line's item and attributes do before its braces are counted. */
  function Header(p: Patterns, t: Tracker, code: string): Tracker {
    var stripped := p.strip(code);
    var attr := t.attr || p.isTestAttribute(stripped);
    match p.item(code)
    case Some(namedTests) => t.(attr := false, pending := Some(attr || namedTests || Top(t.stack)))
    case None => t.(attr := attr && (stripped == "" || StartsWithAttribute(stripped)))
  }

  function Brace(t: Tracker, c: char): Tracker {
    if c == '{' then t.(stack := t.stack + [if t.pending.Some? then t.pending.value else Top(t.stack)], pending := None)
    else if c == '}' && t.stack != [] then t.(stack := t.stack[..|t.stack| - 1])
    else t
  }

  function Braces(t: Tracker, code: string): Tracker {
    if code == "" then t else Brace(Braces(t, code[..|code| - 1]), code[|code| - 1])
  }

  function Line(p: Patterns, t: Tracker, code: string): Tracker {
    var after := Braces(Header(p, t, code), code);
    if EndsWithSemicolon(p.strip(code)) then after.(pending := None) else after
  }

  function IsTestLine(p: Patterns, t: Tracker, code: string): bool {
    Top(t.stack) || Header(p, t, code).pending == Some(true)
  }

  /** The masked lines of a file and the lexer mode after it. */
  function MaskFile(lines: seq<string>): (r: (seq<string>, Mode))
    ensures |r.0| == |lines|
  {
    if lines == [] then ([], Code) else
      var before := MaskFile(lines[..|lines| - 1]);
      var last := Mask(lines[|lines| - 1], 0, before.1);
      (before.0 + [last.0], last.1)
  }

  /** The tracker after some masked lines. */
  function TrackerAfter(p: Patterns, codes: seq<string>): Tracker {
    if codes == [] then Tracker([], false, None)
    else Line(p, TrackerAfter(p, codes[..|codes| - 1]), codes[|codes| - 1])
  }

  /** The verdict on each masked line. */
  function Contexts(p: Patterns, codes: seq<string>): (r: seq<bool>)
    ensures |r| == |codes|
  {
    if codes == [] then [] else
      var before, last := codes[..|codes| - 1], codes[|codes| - 1];
      Contexts(p, before) + [IsTestLine(p, TrackerAfter(p, before), last)]
  }

  lemma OneMoreLine(p: Patterns, codes: seq<string>, code: string)
    ensures TrackerAfter(p, codes + [code]) == Line(p, TrackerAfter(p, codes), code)
    ensures Contexts(p, codes + [code]) == Contexts(p, codes) + [IsTestLine(p, TrackerAfter(p, codes), code)]
  {
    assert (codes + [code])[..|codes|] == codes;
  }

  lemma MaskOneMore(lines: seq<string>, line: string)
    ensures var (codes, mode) := MaskFile(lines);
      MaskFile(lines + [line]) == (codes + [Mask(line, 0, mode).0], Mask(line, 0, mode).1)
  {
    assert (lines + [line])[..|lines|] == lines;
  }

  method LineTestContexts(p: Patterns, lines: seq<string>) returns (contexts: seq<bool>)
    ensures contexts == Contexts(p, MaskFile(lines).0)
  {
    contexts := [];
    var lexer := new LexerState();
    var tracker := Tracker([], false, None);
    ghost var codes: seq<string> := [];
    for i := 0 to |lines|
      invariant fresh(lexer) && lexer.OneMode() && (codes, lexer.CurrentMode()) == MaskFile(lines[..i])
      invariant tracker == TrackerAfter(p, codes) && contexts == Contexts(p, codes)
    {
      MaskOneMore(lines[..i], lines[i]);
      assert lines[..i + 1] == lines[..i] + [lines[i]];
      var code := lexer.SanitizeLine(lines[i]);
      OneMoreLine(p, codes, code);
      var isTest;
      tracker, isTest := TrackLine(p, tracker, code);
      contexts, codes := contexts + [isTest], codes + [code];
    }
    assert lines[..|lines|] == lines;
  }

  /** The loop body: the line's header, its own context, its braces. */
  method TrackLine(p: Patterns, t: Tracker, code: string) returns (after: Tracker, isTest: bool)
    ensures after == Line(p, t, code) && isTest == IsTestLine(p, t, code)
  {
    var Tracker(stack, attr, pending) := t;
    var stripped := p.strip(code);
    var currentContext := Top(stack);
    if p.isTestAttribute(stripped) { attr := true; }
    var item := p.item(code);
    if item.Some? {
      pending := Some((attr || item.value) || currentContext);
      attr := false;
    } else if stripped != "" && !StartsWithAttribute(stripped) && attr {
      attr := false;
    }
    isTest := currentContext || pending == Some(true);
    ghost var header := Tracker(stack, attr, pending);
    for c := 0 to |code|
      invariant Tracker(stack, attr, pending) == Braces(header, code[..c])
    {
      assert code[..c + 1][..c] == code[..c];
      if code[c] == '{' {
        if pending.Some? {
          stack, pending := stack + [pending.value], None;
        } else {
          stack := stack + [Top(stack)];
        }
      } else if code[c] == '}' && stack != [] {
        stack := stack[..|stack| - 1];
      }
    }
    assert code[..|code|] == code;
    if EndsWithSemicolon(stripped) { pending := None; }
    after := Tracker(stack, attr, pending);
  }

  /** No production block above a test block, and a production item waits only outside tests. */
  ghost predicate Inherits(t: Tracker) {
    && (forall i, j :: 0 <= i < j < |t.stack| && t.stack[i] ==> t.stack[j])
    && (t.pending == Some(false) ==> forall i :: 0 <= i < |t.stack| ==> !t.stack[i])
  }

  lemma {:induction false} BracesInherit(t: Tracker, code: string)
    requires Inherits(t)
    ensures Inherits(Braces(t, code))
  {
    if code == "" {
    } else {
      BracesInherit(t, code[..|code| - 1]);
    }
  }

  lemma HeaderInherits(p: Patterns, t: Tracker, code: string)
    requires Inherits(t)
    ensures Inherits(Header(p, t, code))
  {
  }

  /** Over any file, the stack keeps test blocks on top at every line. */
  lemma {:induction false} TrackerInherits(p: Patterns, codes: seq<string>)
    ensures Inherits(TrackerAfter(p, codes))
  {
    if codes == [] {
    } else {
      var before, code := codes[..|codes| - 1], codes[|codes| - 1];
      TrackerInherits(p, before);
      LineInherits(p, TrackerAfter(p, before), code);
    }
  }

  lemma LineInherits(p: Patterns, t: Tracker, code: string)
    requires Inherits(t)
    ensures Inherits(Line(p, t, code))
  {
    HeaderInherits(p, t, code);
    BracesInherit(Header(p, t, code), code);
  }

  /** A line that starts inside a test block, at any depth, is marked as test code. */
  lemma {:induction false} InsideTestIsTest(p: Patterns, codes: seq<string>, i: nat, b: nat)
    requires i < |codes| && b < |TrackerAfter(p, codes[..i]).stack| && TrackerAfter(p, codes[..i]).stack[b]
    ensures Contexts(p, codes)[i]
    decreases |codes|
  {
    var before := codes[..|codes| - 1];
    if i < |before| {
      assert before[..i] == codes[..i];
      InsideTestIsTest(p, before, i, b);
    } else {
      TrackerInherits(p, before);
      InheritedTop(TrackerAfter(p, before), b);
    }
  }

  lemma InheritedTop(t: Tracker, b: nat)
    requires Inherits(t) && b < |t.stack| && t.stack[b]
    ensures Top(t.stack)
  {
  }
}
