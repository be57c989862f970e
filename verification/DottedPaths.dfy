/** Dotted setting names such as `agent.name`, and the key paths they stand for. */
module DottedPaths {
  type Path = seq<string>

  predicate DotFree(s: string) { '.' !in s }

  ghost predicate DotFreePath(p: Path) { forall i :: 0 <= i < |p| ==> DotFree(p[i]) }

  function Join(p: Path): string {
    if p == [] then "" else if |p| == 1 then p[0] else p[0] + "." + Join(p[1..])
  }

  /** `str::split('.')`: always at least one part. */
  function Split(s: string): (p: Path)
    ensures p != []
  {
    if s == "" then [""] else
      var rest := Split(s[1..]);
      if s[0] == '.' then [""] + rest else [[s[0]] + rest[0]] + rest[1..]
  }

  lemma {:induction false} JoinSplit(s: string)
    ensures Join(Split(s)) == s
  {
    if s == "" {
    } else {
      JoinSplit(s[1..]);
      var rest := Split(s[1..]);
      if s[0] == '.' {
        assert Split(s)[1..] == rest;
        assert "" + "." + Join(rest) == s;
      } else {
        assert Split(s)[1..] == rest[1..];
        assert [s[0]] + Join(rest) == s;
        if |rest| > 1 {
          assert [s[0]] + (rest[0] + "." + Join(rest[1..])) == ([s[0]] + rest[0]) + "." + Join(rest[1..]);
        }
      }
    }
  }

  lemma {:induction false} SplitOnePart(k: string)
    requires DotFree(k)
    ensures Split(k) == [k]
  {
    if k == "" {
    } else {
      SplitOnePart(k[1..]);
      assert k == [k[0]] + k[1..];
    }
  }

  lemma {:induction false} SplitFirstPart(k: string, rest: string)
    requires DotFree(k)
    ensures Split(k + "." + rest) == [k] + Split(rest)
  {
    if k == "" {
      assert ("" + "." + rest)[1..] == rest;
    } else {
      assert (k + "." + rest)[1..] == k[1..] + "." + rest;
      SplitFirstPart(k[1..], rest);
      assert ([k[1..]] + Split(rest))[1..] == Split(rest);
      assert k == [k[0]] + k[1..];
    }
  }

  /** Names of dot-free paths come apart exactly where they were put together. */
  lemma {:induction false} SplitJoin(p: Path)
    requires p != [] && DotFreePath(p)
    ensures Split(Join(p)) == p
  {
    if |p| == 1 {
      SplitOnePart(p[0]);
    } else {
      SplitJoin(p[1..]);
      SplitFirstPart(p[0], Join(p[1..]));
    }
  }

  lemma {:induction false} JoinPush(p: Path, k: string)
    requires p != []
    ensures Join(p + [k]) == Join(p) + "." + k
  {
    if |p| == 1 {
      assert (p + [k])[1..] == [k];
    } else {
      assert (p + [k])[1..] == p[1..] + [k];
      JoinPush(p[1..], k);
      assert p[0] + "." + (Join(p[1..]) + "." + k) == (p[0] + "." + Join(p[1..])) + "." + k;
    }
  }

  /** A non-empty path of non-empty keys has a non-empty name. */
  lemma JoinNonEmpty(p: Path)
    requires p != [] && p[0] != ""
    ensures Join(p) != ""
  {
  }
}
