/** The `.env` file: escaping values and updating single variables in the text. */
module EnvFile {
  import opened Wrappers

  // ---- values ----

  function Replace(s: string, c: char, sub: string): string {
    if s == "" then "" else (if s[0] == c then sub else [s[0]]) + Replace(s[1..], c, sub)
  }

  /** The two replacements, backslashes first. */
  function Escape(value: string): string {
    Replace(Replace(value, '\\', "\\\\"), '"', "\\\"")
  }

  /** One pass from the left; None if a quote stands bare or a backslash has nothing to escape. */
  function Unescape(s: string): Option<string> {
    if s == "" then Some("")
    else if s[0] == '"' || (s[0] == '\\' && |s| == 1) then None
    else
      var width := if s[0] == '\\' then 2 else 1;
      match Unescape(s[width..])
      case Some(rest) => Some([s[width - 1]] + rest)
      case None => None
  }

  lemma {:induction false} ReplaceConcat(s: string, t: string, c: char, sub: string)
    ensures Replace(s + t, c, sub) == Replace(s, c, sub) + Replace(t, c, sub)
  {
    if s == "" {
      assert s + t == t;
    } else {
      assert (s + t)[1..] == s[1..] + t;
      ReplaceConcat(s[1..], t, c, sub);
    }
  }

  /** What the two passes make of a single character. */
  function Escaped(c: char): string {
    if c == '\\' then "\\\\" else if c == '"' then "\\\"" else [c]
  }

  lemma EscapeStep(c: char, rest: string)
    ensures Escape([c] + rest) == Escaped(c) + Escape(rest)
  {
    var head := if c == '\\' then "\\\\" else [c];
    assert ([c] + rest)[1..] == rest;
    ReplaceConcat(head, Replace(rest, '\\', "\\\\"), '"', "\\\"");
    if c == '\\' {
      assert "\\\\"[1..] == "\\" && "\\"[1..] == "";
    } else {
      assert [c][1..] == "";
    }
  }

  lemma UnescapeStep(c: char, escaped: string)
    requires Unescape(escaped).Some?
    ensures Unescape(Escaped(c) + escaped) == Some([c] + Unescape(escaped).value)
  {
    var s := Escaped(c) + escaped;
    assert s[|Escaped(c)|..] == escaped;
  }

  /** Escaping can be undone, and leaves no quote that could end the value early. */
  lemma {:induction false} UnescapeEscape(value: string)
    ensures Unescape(Escape(value)) == Some(value)
  {
    if value == "" {
    } else {
      assert value == [value[0]] + value[1..];
      UnescapeEscape(value[1..]);
      EscapeStep(value[0], value[1..]);
      UnescapeStep(value[0], Escape(value[1..]));
    }
  }

  // ---- lines ----

  function StripCr(l: string): string {
    if l != "" && l[|l| - 1] == '\r' then l[..|l| - 1] else l
  }

  function LineEnd(s: string): (n: nat)
    ensures n <= |s| && '\n' !in s[..n]
    ensures n < |s| ==> s[n] == '\n'
  {
    if s == "" || s[0] == '\n' then 0 else
      assert s[..1 + LineEnd(s[1..])] == [s[0]] + s[1..][..LineEnd(s[1..])];
      1 + LineEnd(s[1..])
  }

  /** `str::lines`: a carriage return goes with the newline that follows it. */
  function Lines(s: string): (ls: seq<string>)
    ensures forall i :: 0 <= i < |ls| ==> '\n' !in ls[i]
    decreases |s|
  {
    if s == "" then []
    else
      var n := LineEnd(s);
      if n == |s| then [s] else [StripCr(s[..n])] + Lines(s[n + 1..])
  }

  function Unlines(ls: seq<string>): string {
    if ls == [] then "" else ls[0] + "\n" + Unlines(ls[1..])
  }

  function StripAll(ls: seq<string>): seq<string> {
    seq(|ls|, i requires 0 <= i < |ls| => StripCr(ls[i]))
  }

  ghost predicate NewlineFree(ls: seq<string>) { forall i :: 0 <= i < |ls| ==> '\n' !in ls[i] }

  predicate EndsInCr(l: string) { l != "" && l[|l| - 1] == '\r' }

  ghost predicate CrFree(ls: seq<string>) { forall i :: 0 <= i < |ls| ==> !EndsInCr(ls[i]) }

  lemma LineEndOf(l: string, rest: string)
    requires '\n' !in l
    ensures LineEnd(l + "\n" + rest) == |l|
  {
    var s := l + "\n" + rest;
    assert s[|l|] == '\n';
  }

  /** Reading written lines back drops one carriage return from each line end. */
  lemma {:induction false} LinesUnlines(ls: seq<string>)
    requires NewlineFree(ls)
    ensures Lines(Unlines(ls)) == StripAll(ls)
  {
    if ls == [] {
    } else {
      LinesUnlines(ls[1..]);
      FirstLine(ls[0], Unlines(ls[1..]));
      assert StripAll(ls) == [StripCr(ls[0])] + StripAll(ls[1..]);
    }
  }

  lemma FirstLine(l: string, rest: string)
    requires '\n' !in l
    ensures Lines(l + "\n" + rest) == [StripCr(l)] + Lines(rest)
  {
    var s := l + "\n" + rest;
    LineEndOf(l, rest);
    assert s[..|l|] == l && s[|l| + 1..] == rest;
  }

  /** A last line without a newline is a line too, and keeps its carriage return. */
  lemma {:induction false} LinesOfOpenEnd(ls: seq<string>, end: string)
    requires NewlineFree(ls) && '\n' !in end
    ensures Lines(Unlines(ls) + end) == StripAll(ls) + if end == "" then [] else [end]
  {
    if ls == [] {
      assert Unlines(ls) + end == end;
      OneOpenLine(end);
    } else {
      LinesOfOpenEnd(ls[1..], end);
      FirstOfLines(ls, end);
      StripFirst(ls, if end == "" then [] else [end]);
    }
  }

  lemma FirstOfLines(ls: seq<string>, end: string)
    requires ls != [] && NewlineFree(ls)
    ensures Lines(Unlines(ls) + end) == [StripCr(ls[0])] + Lines(Unlines(ls[1..]) + end)
  {
    assert Unlines(ls) + end == ls[0] + "\n" + (Unlines(ls[1..]) + end);
    FirstLine(ls[0], Unlines(ls[1..]) + end);
  }

  lemma StripFirst(ls: seq<string>, more: seq<string>)
    requires ls != []
    ensures StripAll(ls) + more == [StripCr(ls[0])] + (StripAll(ls[1..]) + more)
  {
    assert StripAll(ls) == [StripCr(ls[0])] + StripAll(ls[1..]);
  }

  lemma OneOpenLine(end: string)
    requires '\n' !in end
    ensures Lines(end) == if end == "" then [] else [end]
  {
  }

  lemma UnlinesFirst(l: string, ls: seq<string>, end: string)
    ensures Unlines([l] + ls) + end == l + "\n" + (Unlines(ls) + end)
  {
    assert ([l] + ls)[1..] == ls;
  }

  /** Every text is some finished lines and an open end, so the lines account for all of it. */
  lemma {:induction false} LinesAccountForAll(s: string) returns (ls: seq<string>, end: string)
    ensures NewlineFree(ls) && '\n' !in end && s == Unlines(ls) + end
    ensures Lines(s) == StripAll(ls) + if end == "" then [] else [end]
    decreases |s|
  {
    var n := LineEnd(s);
    if n == |s| {
      ls, end := [], s;
      assert s[..n] == s;
    } else {
      var rest: seq<string>;
      rest, end := LinesAccountForAll(s[n + 1..]);
      ls := [s[..n]] + rest;
      assert s == s[..n] + "\n" + s[n + 1..];
      UnlinesFirst(s[..n], rest, end);
    }
    LinesOfOpenEnd(ls, end);
  }

  lemma StripAllIsIdentityIff(ls: seq<string>)
    ensures StripAll(ls) == ls <==> CrFree(ls)
  {
    if StripAll(ls) == ls {
      forall i | 0 <= i < |ls| ensures !EndsInCr(ls[i]) { assert StripAll(ls)[i] == ls[i]; }
    }
  }

  // ---- one variable ----

  predicate GoodKey(key: string) { '=' !in key && '\n' !in key }

  predicate Sets(line: string, key: string) { key + "=" <= line }

  function NewLine(key: string, value: string): string {
    key + "=\"" + Escape(value) + "\""
  }

  /** The value that a written line carries for its key. */
  function Decode(line: string, key: string): Option<string> {
    var start := |key| + 2;
    if key + "=\"" <= line && start < |line| && line[|line| - 1] == '"' then Unescape(line[start..|line| - 1]) else None
  }

  lemma DecodeNewLine(key: string, value: string)
    ensures Decode(NewLine(key, value), key) == Some(value)
  {
    var line := NewLine(key, value);
    assert line == (key + "=\"") + (Escape(value) + "\"");
    assert line[|key| + 2..|line| - 1] == Escape(value);
    UnescapeEscape(value);
  }

  lemma {:induction false} ReplaceAddsNoNewline(s: string, c: char, sub: string)
    requires '\n' !in s && '\n' !in sub
    ensures '\n' !in Replace(s, c, sub)
  {
    if s == "" {
    } else {
      ReplaceAddsNoNewline(s[1..], c, sub);
    }
  }

  lemma NewLineIsALine(key: string, value: string)
    requires GoodKey(key) && '\n' !in value
    ensures '\n' !in NewLine(key, value) && !EndsInCr(NewLine(key, value)) && Sets(NewLine(key, value), key)
  {
    ReplaceAddsNoNewline(value, '\\', "\\\\");
    ReplaceAddsNoNewline(Replace(value, '\\', "\\\\"), '"', "\\\"");
    assert NewLine(key, value) == (key + "=") + ("\"" + Escape(value) + "\"");
  }

  /** A line sets at most one key: the text before its first '='. */
  lemma SetsOneKey(line: string, j: string, k: string)
    requires GoodKey(j) && GoodKey(k) && Sets(line, j) && Sets(line, k)
    ensures j == k
  {
    assert line[|j|] == '=' && line[|k|] == '=';
    assert j == line[..|j|] && k == line[..|k|];
    if |j| != |k| { assert false; }
  }

  // ---- the upsert on lines ----

  ghost predicate SetSomewhere(ls: seq<string>, key: string) { exists i :: 0 <= i < |ls| && Sets(ls[i], key) }

  /** The first line for the key replaced, later ones dropped. */
  ghost function Rewritten(ls: seq<string>, key: string, new_: string): seq<string> {
    if ls == [] then [] else
      var before, last := ls[..|ls| - 1], ls[|ls| - 1];
      Rewritten(before, key, new_) +
      if !Sets(last, key) then [last] else if SetSomewhere(before, key) then [] else [new_]
  }

  ghost function UpsertLines(ls: seq<string>, key: string, new_: string): seq<string> {
    Rewritten(ls, key, new_) + if SetSomewhere(ls, key) then [] else [new_]
  }

  lemma UnlinesPush(ls: seq<string>, l: string)
    ensures Unlines(ls + [l]) == Unlines(ls) + l + "\n"
  {
    if ls == [] {
      assert ls + [l] == [l];
    } else {
      assert (ls + [l])[1..] == ls[1..] + [l];
      UnlinesPush(ls[1..], l);
    }
  }

  lemma SetSomewherePush(ls: seq<string>, l: string, key: string)
    ensures SetSomewhere(ls + [l], key) <==> SetSomewhere(ls, key) || Sets(l, key)
  {
    if SetSomewhere(ls, key) {
      var i :| 0 <= i < |ls| && Sets(ls[i], key);
      assert Sets((ls + [l])[i], key);
    }
    if Sets(l, key) { assert Sets((ls + [l])[|ls|], key); }
  }

  /** `upsert_bootstrap_var_to`, from the old text of the file to the new. */
  method Upsert(existing: string, key: string, value: string) returns (result: string)
    ensures result == Unlines(UpsertLines(Lines(existing), key, NewLine(key, value)))
  {
    var newLine := key + "=\"" + Escape(value) + "\"";
    var prefix := key + "=";
    var lines, found := Lines(existing), false;
    result := "";
    ghost var written: seq<string> := [];
    for i := 0 to |lines|
      invariant written == Rewritten(lines[..i], key, newLine) && result == Unlines(written)
      invariant found <==> SetSomewhere(lines[..i], key)
    {
      assert lines[..i + 1] == lines[..i] + [lines[i]];
      SetSomewherePush(lines[..i], lines[i], key);
      if prefix <= lines[i] {
        if !found {
          UnlinesPush(written, newLine);
          result, written, found := result + newLine + "\n", written + [newLine], true;
        }
      } else {
        UnlinesPush(written, lines[i]);
        result, written := result + lines[i] + "\n", written + [lines[i]];
      }
    }
    assert lines[..|lines|] == lines;
    if !found {
      UnlinesPush(written, newLine);
      result := result + newLine + "\n";
    }
    assert written + [] == written;
  }

  // ---- the file as a map ----

  /** The lines that set a key. */
  function Entries(ls: seq<string>, key: string): seq<string> {
    if ls == [] then [] else
      Entries(ls[..|ls| - 1], key) + if Sets(ls[|ls| - 1], key) then [ls[|ls| - 1]] else []
  }

  ghost predicate SetsOneOf(line: string, keys: set<string>) { exists k :: k in keys && Sets(line, k) }

  /** The lines that set none of the keys. */
  ghost function Others(ls: seq<string>, keys: set<string>): seq<string> {
    if ls == [] then [] else
      Others(ls[..|ls| - 1], keys) + if SetsOneOf(ls[|ls| - 1], keys) then [] else [ls[|ls| - 1]]
  }

  lemma EntriesPush(ls: seq<string>, l: string, key: string)
    ensures Entries(ls + [l], key) == Entries(ls, key) + if Sets(l, key) then [l] else []
  {
    assert (ls + [l])[..|ls|] == ls;
  }

  lemma OthersPush(ls: seq<string>, l: string, keys: set<string>)
    ensures Others(ls + [l], keys) == Others(ls, keys) + if SetsOneOf(l, keys) then [] else [l]
  {
    assert (ls + [l])[..|ls|] == ls;
  }

  lemma {:induction false} RewrittenEntries(ls: seq<string>, key: string, new_: string, j: string)
    requires GoodKey(key) && GoodKey(j) && Sets(new_, key)
    ensures Entries(Rewritten(ls, key, new_), j) ==
      if j != key then Entries(ls, j) else if SetSomewhere(ls, key) then [new_] else []
  {
    if ls == [] {
    } else {
      var before, last := ls[..|ls| - 1], ls[|ls| - 1];
      assert ls == before + [last];
      RewrittenEntries(before, key, new_, j);
      SetSomewherePush(before, last, key);
      EntriesPush(before, last, j);
      var done := Rewritten(before, key, new_);
      if !Sets(last, key) {
        EntriesPush(done, last, j);
      } else {
        if Sets(last, j) { SetsOneKey(last, j, key); }
        if Sets(new_, j) { SetsOneKey(new_, j, key); }
        EntriesPush(done, new_, j);
        assert done + [] == done;
      }
    }
  }

  lemma {:induction false} RewrittenOthers(ls: seq<string>, key: string, new_: string, keys: set<string>)
    requires key in keys && Sets(new_, key)
    ensures Others(Rewritten(ls, key, new_), keys) == Others(ls, keys)
  {
    if ls == [] {
    } else {
      var before, last := ls[..|ls| - 1], ls[|ls| - 1];
      RewrittenOthers(before, key, new_, keys);
      OthersPush(Rewritten(before, key, new_), last, keys);
      OthersPush(Rewritten(before, key, new_), new_, keys);
      assert Rewritten(before, key, new_) + [] == Rewritten(before, key, new_);
    }
  }

  /** An upsert makes its key's only entry, and touches neither other keys nor other lines. */
  lemma UpsertLinesEffect(ls: seq<string>, key: string, new_: string, j: string, keys: set<string>)
    requires GoodKey(key) && GoodKey(j) && Sets(new_, key) && key in keys
    ensures Entries(UpsertLines(ls, key, new_), j) == if j == key then [new_] else Entries(ls, j)
    ensures Others(UpsertLines(ls, key, new_), keys) == Others(ls, keys)
  {
    RewrittenEntries(ls, key, new_, j);
    RewrittenOthers(ls, key, new_, keys);
    EntriesPush(Rewritten(ls, key, new_), new_, j);
    OthersPush(Rewritten(ls, key, new_), new_, keys);
    if j != key && Sets(new_, j) { SetsOneKey(new_, j, key); }
    assert Rewritten(ls, key, new_) + [] == Rewritten(ls, key, new_);
  }

  /** The new line takes the place of the key's first line, or comes last if there was none. */
  lemma {:induction false} UpsertInPlace(ls: seq<string>, key: string, new_: string, i: nat)
    requires i <= |ls| && (forall j :: 0 <= j < i ==> !Sets(ls[j], key)) && (i < |ls| ==> Sets(ls[i], key))
    ensures |UpsertLines(ls, key, new_)| > i && UpsertLines(ls, key, new_)[..i + 1] == ls[..i] + [new_]
    ensures i == |ls| ==> UpsertLines(ls, key, new_) == ls + [new_]
  {
    RewrittenInPlace(ls, key, new_, i);
    if i < |ls| {
      assert SetSomewhere(ls, key);
      assert Rewritten(ls, key, new_) + [] == Rewritten(ls, key, new_);
    } else {
      assert ls[..i] == ls && !SetSomewhere(ls, key);
    }
  }

  lemma {:induction false} RewrittenInPlace(ls: seq<string>, key: string, new_: string, i: nat)
    requires i <= |ls| && (forall j :: 0 <= j < i ==> !Sets(ls[j], key)) && (i < |ls| ==> Sets(ls[i], key))
    ensures i == |ls| ==> Rewritten(ls, key, new_) == ls
    ensures i < |ls| ==> |Rewritten(ls, key, new_)| > i && Rewritten(ls, key, new_)[..i + 1] == ls[..i] + [new_]
  {
    if ls == [] {
    } else {
      var last := |ls| - 1;
      var before := ls[..last];
      RewrittenInPlace(before, key, new_, if i < last then i else last);
      assert ls == before + [ls[last]];
      if i < last {
        assert before[..i] == ls[..i] && SetSomewhere(before, key);
      } else if i == last {
        assert before == ls[..i] && !SetSomewhere(before, key);
      }
    }
  }

  lemma {:induction false} UpsertLinesAreLines(ls: seq<string>, key: string, new_: string)
    requires NewlineFree(ls) && '\n' !in new_
    ensures NewlineFree(UpsertLines(ls, key, new_))
  {
    RewrittenAreLines(ls, key, new_);
  }

  lemma {:induction false} RewrittenAreLines(ls: seq<string>, key: string, new_: string)
    requires NewlineFree(ls) && '\n' !in new_
    ensures NewlineFree(Rewritten(ls, key, new_))
  {
    if ls == [] {
    } else {
      RewrittenAreLines(ls[..|ls| - 1], key, new_);
    }
  }

  datatype Assignment = Assignment(key: string, value: string)

  predicate GoodAssignment(a: Assignment) { GoodKey(a.key) && '\n' !in a.value }

  ghost function Keys(ops: seq<Assignment>): set<string> {
    set a | a in ops :: a.key
  }

  /** The last value assigned to a key. */
  function LastValue(ops: seq<Assignment>, key: string): Option<string> {
    if ops == [] then None
    else if ops[|ops| - 1].key == key then Some(ops[|ops| - 1].value)
    else LastValue(ops[..|ops| - 1], key)
  }

  /** The text after a sequence of upserts. */
  ghost function After(file: string, ops: seq<Assignment>): string {
    if ops == [] then file else
      var before, a := After(file, ops[..|ops| - 1]), ops[|ops| - 1];
      Unlines(UpsertLines(Lines(before), a.key, NewLine(a.key, a.value)))
  }

  method UpsertAll(file: string, ops: seq<Assignment>) returns (now: string)
    ensures now == After(file, ops)
  {
    now := file;
    for i := 0 to |ops|
      invariant now == After(file, ops[..i])
    {
      now := Upsert(now, ops[i].key, ops[i].value);
      assert ops[..i + 1][..i] == ops[..i];
    }
    assert ops[..|ops|] == ops;
  }

  lemma {:induction false} EntriesOfStripped(ls: seq<string>, key: string)
    ensures Entries(StripAll(ls), key) == StripAll(Entries(ls, key))
  {
    if ls == [] {
    } else {
      var before, last := ls[..|ls| - 1], ls[|ls| - 1];
      EntriesOfStripped(before, key);
      assert StripAll(ls)[..|ls| - 1] == StripAll(before);
      SetsStripped(last, key);
    }
  }

  lemma {:induction false} OthersOfStripped(ls: seq<string>, keys: set<string>)
    ensures Others(StripAll(ls), keys) == StripAll(Others(ls, keys))
  {
    if ls == [] {
    } else {
      var before, last := ls[..|ls| - 1], ls[|ls| - 1];
      OthersOfStripped(before, keys);
      assert StripAll(ls)[..|ls| - 1] == StripAll(before);
      forall k ensures Sets(StripCr(last), k) <==> Sets(last, k) { SetsStripped(last, k); }
      assert SetsOneOf(StripCr(last), keys) <==> SetsOneOf(last, keys);
    }
  }

  lemma SetsStripped(l: string, key: string)
    ensures Sets(StripCr(l), key) <==> Sets(l, key)
  {
    if Sets(l, key) { assert (key + "=")[|key|] == '=' && l[|key|] == '='; }
  }

  /** One upsert, as the file reads afterwards: every line that was kept has lost one carriage return at its end. */
  lemma UpsertReads(before: string, a: Assignment, k: string, keys: set<string>)
    requires GoodAssignment(a) && GoodKey(k) && a.key in keys
    ensures var now := Lines(Unlines(UpsertLines(Lines(before), a.key, NewLine(a.key, a.value))));
      && Entries(now, k) == (if k == a.key then [NewLine(k, a.value)] else StripAll(Entries(Lines(before), k)))
      && Others(now, keys) == StripAll(Others(Lines(before), keys))
  {
    var new_, ls := NewLine(a.key, a.value), Lines(before);
    var after := UpsertLines(ls, a.key, new_);
    NewLineIsALine(a.key, a.value);
    UpsertLinesAreLines(ls, a.key, new_);
    LinesUnlines(after);
    EntriesOfStripped(after, k);
    OthersOfStripped(after, keys);
    UpsertLinesEffect(ls, a.key, new_, k, keys);
    StripAllIsIdentityIff([new_]);
  }

  /** The key has exactly one line, and it decodes to the given value. */
  ghost predicate HoldsOnly(file: string, key: string, value: string) {
    Entries(Lines(file), key) == [NewLine(key, value)] && Decode(NewLine(key, value), key) == Some(value)
  }

  /**
   * The file refines a map: after any sequence of upserts on any file, each key touched has
   * exactly one line, which decodes to its last value.
   */
  lemma {:induction false} UpsertsRefineAMap(file: string, ops: seq<Assignment>, k: string)
    requires (forall i :: 0 <= i < |ops| ==> GoodAssignment(ops[i])) && k in Keys(ops)
    ensures LastValue(ops, k).Some? && HoldsOnly(After(file, ops), k, LastValue(ops, k).value)
  {
    var rest, a := ops[..|ops| - 1], ops[|ops| - 1];
    UpsertReads(After(file, rest), a, k, {a.key});
    if k == a.key {
      DecodeNewLine(k, a.value);
    } else {
      UpsertsRefineAMap(file, rest, k);
      StripAllIsIdentityIff(Entries(Lines(After(file, rest)), k));
    }
  }

  /** The lines with up to n carriage returns taken from each end. */
  function Stripped(ls: seq<string>, n: nat): (r: seq<string>)
    ensures |r| == |ls|
  {
    if n == 0 then ls else StripAll(Stripped(ls, n - 1))
  }

  lemma StripShortens(ls: seq<string>, i: nat)
    requires i < |ls|
    ensures |StripAll(ls)[i]| <= |ls[i]| && (EndsInCr(ls[i]) ==> |StripAll(ls)[i]| < |ls[i]|)
  {
    assert StripAll(ls)[i] == StripCr(ls[i]);
  }

  lemma {:induction false} StrippedIsShorter(ls: seq<string>, n: nat, i: nat)
    requires i < |ls|
    ensures |Stripped(ls, n)[i]| <= |ls[i]| && (n > 0 && EndsInCr(ls[i]) ==> |Stripped(ls, n)[i]| < |ls[i]|)
  {
    if n == 0 {
    } else {
      StrippedIsShorter(ls, n - 1, i);
      StripShortens(Stripped(ls, n - 1), i);
    }
  }

  lemma {:induction false} StrippedIsIdentityIff(ls: seq<string>, n: nat)
    ensures Stripped(ls, n) == ls <==> n == 0 || CrFree(ls)
  {
    if n > 0 && CrFree(ls) {
      StrippedIsIdentityIff(ls, n - 1);
      StripAllIsIdentityIff(ls);
    } else if n > 0 {
      var i :| 0 <= i < |ls| && EndsInCr(ls[i]);
      StrippedIsShorter(ls, n, i);
    }
  }

  /** Every other line keeps its place, and loses one carriage return at its end per upsert. */
  lemma {:induction false} OtherLinesAfter(file: string, ops: seq<Assignment>, keys: set<string>)
    requires (forall i :: 0 <= i < |ops| ==> GoodAssignment(ops[i])) && Keys(ops) <= keys
    ensures Others(Lines(After(file, ops)), keys) == Stripped(Others(Lines(file), keys), |ops|)
  {
    if ops == [] {
    } else {
      var rest, a := ops[..|ops| - 1], ops[|ops| - 1];
      assert a in ops && Keys(rest) <= Keys(ops) && a.key in Keys(ops);
      OtherLinesAfter(file, rest, keys);
      UpsertReads(After(file, rest), a, a.key, keys);
    }
  }

  /**
   * A sequence of upserts keeps the text and order of all other lines exactly when there is none
   * to make or no other line ends in a carriage return of its own, which a rewritten line end
   * would swallow.
   */
  lemma OtherLinesKeptIff(file: string, ops: seq<Assignment>)
    requires forall i :: 0 <= i < |ops| ==> GoodAssignment(ops[i])
    ensures var keys := Keys(ops);
      Others(Lines(After(file, ops)), keys) == Others(Lines(file), keys) <==>
      ops == [] || CrFree(Others(Lines(file), keys))
  {
    OtherLinesAfter(file, ops, Keys(ops));
    StrippedIsIdentityIff(Others(Lines(file), Keys(ops)), |ops|);
  }

  /** A file on which an upsert of another key changes a line. */
  lemma BareCarriageReturnIsLost()
    ensures var file, ops := "A=1\r\r\n", [Assignment("B", "2")];
      && Others(Lines(file), Keys(ops)) == ["A=1\r"]
      && Others(Lines(After(file, ops)), Keys(ops)) != ["A=1\r"]
  {
    var line, ops := "A=1\r\r", [Assignment("B", "2")];
    assert Unlines([line]) == line + "\n" + Unlines([]) == "A=1\r\r\n";
    LinesUnlines([line]);
    assert StripCr(line) == "A=1\r";
    assert Lines("A=1\r\r\n") == ["A=1\r"];
    forall k | k in Keys(ops) ensures !Sets("A=1\r", k) { assert k == "B"; }
    OthersPush([], "A=1\r", Keys(ops));
    assert [] + ["A=1\r"] == ["A=1\r"];
    OtherLinesKeptIff("A=1\r\r\n", ops);
    assert EndsInCr(["A=1\r"][0]);
  }
}
