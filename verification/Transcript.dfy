/** The message list handed to the model, and what makes it acceptable to a provider. */
module Transcript {
  import opened Wrappers
  import opened JsonTree

  datatype ToolCall = ToolCall(id: string, name: string, arguments: Json)

  /** An assistant message without tool calls is one whose `calls` is empty. */
  datatype Message =
    | System(text: string)
    | User(text: string)
    | Assistant(text: string, calls: seq<ToolCall>)
    | ToolResult(callId: string, name: string, text: string)

  function Ids(calls: seq<ToolCall>): (ids: seq<string>)
    ensures |ids| == |calls|
    ensures forall i :: 0 <= i < |calls| ==> ids[i] == calls[i].id
  {
    seq(|calls|, i requires 0 <= i < |calls| => calls[i].id)
  }

  predicate Answers(m: Message, call: ToolCall) {
    m.ToolResult? && m.callId == call.id
  }

  /**
   * The provider's rule, by position: an assistant message with calls is followed at once by
   * one tool message per call, in call order, and there are no other tool messages.
   */
  ghost predicate WellFormed(m: seq<Message>) {
    && (forall i :: 0 <= i < |m| && m[i].Assistant? ==> GroupComplete(m, i))
    && (forall k :: 0 <= k < |m| && m[k].ToolResult? ==> exists i :: Covers(m, i, k))
  }

  predicate GroupComplete(m: seq<Message>, i: nat)
    requires i < |m| && m[i].Assistant?
  {
    var calls := m[i].calls;
    i + |calls| < |m| && forall j :: 0 <= j < |calls| ==> Answers(m[i + 1 + j], calls[j])
  }

  predicate Covers(m: seq<Message>, i: int, k: int) {
    0 <= i < k < |m| && m[i].Assistant? && k <= i + |m[i].calls|
  }

  /**
   * The same rule as a left-to-right scan: the ids still waiting for a tool message,
   * or None once the rule has been broken.
   */
  function Advance(open: Option<seq<string>>, x: Message): Option<seq<string>> {
    if open.None? then None
    else if open.value == [] then
      match x
      case Assistant(_, calls) => Some(Ids(calls))
      case ToolResult(_, _, _) => None
      case _ => open
    else if x.ToolResult? && x.callId == open.value[0] then Some(open.value[1..])
    else None
  }

  function AdvanceAll(open: Option<seq<string>>, m: seq<Message>): Option<seq<string>> {
    if m == [] then open else Advance(AdvanceAll(open, m[..|m| - 1]), m[|m| - 1])
  }

  function Outstanding(m: seq<Message>): Option<seq<string>> {
    AdvanceAll(Some([]), m)
  }

  // ---- the scan ----

  lemma AdvanceAllPush(open: Option<seq<string>>, m: seq<Message>, x: Message)
    ensures AdvanceAll(open, m + [x]) == Advance(AdvanceAll(open, m), x)
  {
    assert (m + [x])[..|m|] == m;
  }

  lemma {:induction false} AdvanceAllConcat(open: Option<seq<string>>, m: seq<Message>, n: seq<Message>)
    ensures AdvanceAll(open, m + n) == AdvanceAll(AdvanceAll(open, m), n)
    decreases |n|
  {
    if n == [] {
      assert m + n == m;
    } else {
      var last := |n| - 1;
      assert m + n == (m + n[..last]) + [n[last]];
      AdvanceAllPush(open, m + n[..last], n[last]);
      AdvanceAllConcat(open, m, n[..last]);
    }
  }

  /** Once broken, a transcript stays broken. */
  lemma {:induction false} BrokenStaysBroken(m: seq<Message>)
    ensures AdvanceAll(None, m) == None
  {
    if m == [] {
    } else {
      BrokenStaysBroken(m[..|m| - 1]);
    }
  }

  // ---- the scan decides the positional rule ----

  ghost predicate Incomplete(m: seq<Message>, i: int) {
    0 <= i < |m| && m[i].Assistant? && |m| <= i + |m[i].calls|
  }

  /** What a scan that ended in `Some(ids)` has established about the positions of `m`. */
  ghost predicate Scanned(m: seq<Message>, ids: seq<string>) {
    && (forall i, j :: 0 <= i < |m| && m[i].Assistant? && 0 <= j < |m[i].calls| && i + 1 + j < |m| ==>
          Answers(m[i + 1 + j], m[i].calls[j]))
    && (forall k :: 0 <= k < |m| && m[k].ToolResult? ==> exists i :: Covers(m, i, k))
    && (forall i :: Incomplete(m, i) ==> ids != [] && ids == Ids(m[i].calls)[|m| - 1 - i..])
    && (ids != [] ==> exists i :: Incomplete(m, i))
  }

  lemma {:induction false} ScanIsSound(m: seq<Message>)
    requires Outstanding(m).Some?
    ensures Scanned(m, Outstanding(m).value)
  {
    if m == [] {
    } else {
      var last := |m| - 1;
      ScanIsSound(m[..last]);
      ScanStep(m, m[..last], m[last], Outstanding(m[..last]).value, Outstanding(m).value);
    }
  }

  /** One more message, scanned after a list whose positions are known. */
  lemma ScanStep(m: seq<Message>, p: seq<Message>, x: Message, ids: seq<string>, ids': seq<string>)
    requires m == p + [x] && Scanned(p, ids) && Advance(Some(ids), x) == Some(ids')
    ensures Scanned(m, ids')
  {
    StepAnswers(m, p, x, ids);
    StepCovers(m, p, x, ids);
    StepIncomplete(m, p, x, ids, ids');
  }

  lemma StepAnswers(m: seq<Message>, p: seq<Message>, x: Message, ids: seq<string>)
    requires m == p + [x] && Scanned(p, ids) && Advance(Some(ids), x).Some?
    ensures forall i, j :: 0 <= i < |m| && m[i].Assistant? && 0 <= j < |m[i].calls| && i + 1 + j < |m| ==>
      Answers(m[i + 1 + j], m[i].calls[j])
  {
    forall i, j | 0 <= i < |m| && m[i].Assistant? && 0 <= j < |m[i].calls| && i + 1 + j < |m|
      ensures Answers(m[i + 1 + j], m[i].calls[j])
    {
      assert m[i] == p[i];
      if i + 1 + j == |p| { assert Incomplete(p, i); }
    }
  }

  lemma StepCovers(m: seq<Message>, p: seq<Message>, x: Message, ids: seq<string>)
    requires m == p + [x] && Scanned(p, ids) && Advance(Some(ids), x).Some?
    ensures forall k :: 0 <= k < |m| && m[k].ToolResult? ==> exists i :: Covers(m, i, k)
  {
    forall k | 0 <= k < |m| && m[k].ToolResult? ensures exists i :: Covers(m, i, k) {
      if k < |p| {
        assert p[k].ToolResult?;
        var i :| Covers(p, i, k);
        assert Covers(m, i, k);
      } else {
        var i :| Incomplete(p, i);
        assert Covers(m, i, k);
      }
    }
  }

  lemma StepIncomplete(m: seq<Message>, p: seq<Message>, x: Message, ids: seq<string>, ids': seq<string>)
    requires m == p + [x] && Scanned(p, ids) && Advance(Some(ids), x) == Some(ids')
    ensures forall i :: Incomplete(m, i) ==> ids' != [] && ids' == Ids(m[i].calls)[|m| - 1 - i..]
    ensures ids' != [] ==> exists i :: Incomplete(m, i)
  {
    forall i | Incomplete(m, i) ensures ids' != [] && ids' == Ids(m[i].calls)[|m| - 1 - i..] {
      StillIncomplete(m, p, x, ids, ids', i);
    }
    if ids' != [] {
      if ids == [] {
        assert Incomplete(m, |p|);
      } else {
        var i :| Incomplete(p, i);
        assert Incomplete(m, i);
      }
    }
  }

  lemma StillIncomplete(m: seq<Message>, p: seq<Message>, x: Message, ids: seq<string>, ids': seq<string>, i: int)
    requires m == p + [x] && Advance(Some(ids), x) == Some(ids') && Incomplete(m, i)
    requires forall j :: Incomplete(p, j) ==> ids != [] && ids == Ids(p[j].calls)[|p| - 1 - j..]
    requires ids != [] ==> exists j :: Incomplete(p, j)
    ensures ids' != [] && ids' == Ids(m[i].calls)[|m| - 1 - i..]
  {
    if i < |p| {
      assert p[i] == m[i] && Incomplete(p, i);
      assert ids[1..] == Ids(m[i].calls)[|m| - 1 - i..];
    } else {
      assert m[i] == x && ids' == Ids(x.calls) == Ids(x.calls)[0..];
    }
  }

  /** In a well-formed list every prefix scans, and nothing is waiting outside a group. */
  lemma {:induction false} WellFormedPrefixScans(m: seq<Message>, p: nat)
    requires WellFormed(m) && p <= |m|
    ensures Outstanding(m[..p]).Some?
    ensures (exists i :: Incomplete(m[..p], i)) || Outstanding(m[..p]).value == []
  {
    if p == 0 {
    } else {
      WellFormedPrefixScans(m, p - 1);
      var q, x := m[..p - 1], m[p - 1];
      assert m[..p] == q + [x];
      AdvanceAllPush(Some([]), q, x);
      ScanIsSound(q);
      var ids := Outstanding(q).value;
      if ids == [] {
        if x.ToolResult? {
          var k := p - 1;
          assert m[k].ToolResult?;
          var i :| Covers(m, i, k);
          assert Covers(m, i, k);
          assert 0 <= i < k;
          assert q[i] == m[i] && Incomplete(q, i);
          assert false;
        }
      } else {
        var i :| Incomplete(q, i);
        assert GroupComplete(m, i) && Answers(x, m[i].calls[p - 2 - i]);
      }
      ScanIsSound(m[..p]);
    }
  }

  /** The scan ends with nothing outstanding exactly on the well-formed transcripts. */
  lemma WellFormedIffNothingOutstanding(m: seq<Message>)
    ensures WellFormed(m) <==> Outstanding(m) == Some([])
  {
    if WellFormed(m) {
      WellFormedPrefixScans(m, |m|);
      assert m[..|m|] == m;
      if i :| Incomplete(m, i) {
        assert false;
      }
    }
    if Outstanding(m) == Some([]) {
      ScanIsSound(m);
      forall i | 0 <= i < |m| && m[i].Assistant? ensures GroupComplete(m, i) {
        assert !Incomplete(m, i);
      }
    }
  }

  // ---- appending tool results ----

  ghost predicate ResultsFor(results: seq<Message>, ids: seq<string>) {
    |results| == |ids| && forall i :: 0 <= i < |ids| ==> results[i].ToolResult? && results[i].callId == ids[i]
  }

  /** Results for the first ids that are waiting leave exactly the other ids waiting. */
  lemma {:induction false} ResultsDischarge(results: seq<Message>, ids: seq<string>, rest: seq<string>)
    requires ResultsFor(results, ids)
    ensures AdvanceAll(Some(ids + rest), results) == Some(rest)
  {
    if results == [] {
      assert ids + rest == rest;
    } else {
      var last := |results| - 1;
      ResultsDischarge(results[..last], ids[..last], [ids[last]] + rest);
      assert ids + rest == ids[..last] + ([ids[last]] + rest);
    }
  }

  lemma AppendResults(m: seq<Message>, results: seq<Message>, ids: seq<string>, rest: seq<string>)
    requires Outstanding(m) == Some(ids + rest) && ResultsFor(results, ids)
    ensures Outstanding(m + results) == Some(rest)
  {
    AdvanceAllConcat(Some([]), m, results);
    ResultsDischarge(results, ids, rest);
  }

  // ---- dropping and regrouping messages ----

  function SystemMessages(m: seq<Message>): seq<Message> {
    if m == [] then [] else
      var last := m[|m| - 1];
      SystemMessages(m[..|m| - 1]) + (if last.System? then [last] else [])
  }

  function OtherMessages(m: seq<Message>): seq<Message> {
    if m == [] then [] else
      var last := m[|m| - 1];
      OtherMessages(m[..|m| - 1]) + (if last.System? then [] else [last])
  }

  /** `picked` is the messages of m at the given positions, which are all of one kind: system or other. */
  ghost predicate Picks(m: seq<Message>, picked: seq<Message>, at: seq<nat>, system: bool) {
    && |at| == |picked|
    && (forall k :: 0 <= k < |at| ==> at[k] < |m| && picked[k] == m[at[k]] && m[at[k]].System? == system)
    && (forall j, k :: 0 <= j < k < |at| ==> at[j] < at[k])
    && (forall i :: 0 <= i < |m| && m[i].System? == system ==> i in at)
  }

  /** The messages of one kind, all of them and in order. */
  ghost predicate IsSelection(m: seq<Message>, picked: seq<Message>, system: bool) {
    exists at: seq<nat> :: Picks(m, picked, at, system)
  }

  lemma PickOneMore(m: seq<Message>, x: Message, picked: seq<Message>, at: seq<nat>, system: bool)
    requires Picks(m, picked, at, system)
    ensures x.System? == system ==> Picks(m + [x], picked + [x], at + [|m|], system)
    ensures x.System? != system ==> Picks(m + [x], picked, at, system)
  {
    var longer, more := m + [x], at + [|m|];
    forall i | 0 <= i < |longer| && longer[i].System? == system ensures i in more {
      if i < |m| {
        assert m[i].System? == system && i in at;
      } else {
        assert more[|at|] == i;
      }
    }
  }

  lemma {:induction false} SystemPositions(m: seq<Message>) returns (at: seq<nat>)
    ensures Picks(m, SystemMessages(m), at, true)
  {
    if m == [] {
      at := [];
    } else {
      var before, x := m[..|m| - 1], m[|m| - 1];
      at := SystemPositions(before);
      PickOneMore(before, x, SystemMessages(before), at, true);
      assert m == before + [x];
      if x.System? { at := at + [|before|]; }
    }
  }

  lemma {:induction false} OtherPositions(m: seq<Message>) returns (at: seq<nat>)
    ensures Picks(m, OtherMessages(m), at, false)
  {
    if m == [] {
      at := [];
    } else {
      var before, x := m[..|m| - 1], m[|m| - 1];
      at := OtherPositions(before);
      PickOneMore(before, x, OtherMessages(before), at, false);
      assert m == before + [x];
      if !x.System? { at := at + [|before|]; }
    }
  }

  /** The compaction keeps exactly the system messages, and a request carries exactly the others. */
  lemma SelectionsByPosition(m: seq<Message>)
    ensures IsSelection(m, SystemMessages(m), true) && IsSelection(m, OtherMessages(m), false)
  {
    var systems := SystemPositions(m);
    var others := OtherPositions(m);
  }

  lemma {:induction false} SystemMessagesAreInert(m: seq<Message>)
    ensures AdvanceAll(Some([]), SystemMessages(m)) == Some([])
  {
    if m == [] {
    } else {
      var p, last := SystemMessages(m[..|m| - 1]), m[|m| - 1];
      SystemMessagesAreInert(m[..|m| - 1]);
      if last.System? { AdvanceAllPush(Some([]), p, last); } else { assert p + [] == p; }
    }
  }

  lemma {:induction false} DroppingSystemsKeepsScan(m: seq<Message>)
    requires Outstanding(m).Some?
    ensures Outstanding(OtherMessages(m)) == Outstanding(m)
  {
    if m == [] {
    } else {
      var p, last := OtherMessages(m[..|m| - 1]), m[|m| - 1];
      DroppingSystemsKeepsScan(m[..|m| - 1]);
      if last.System? { assert p + [] == p; } else { AdvanceAllPush(Some([]), p, last); }
    }
  }

  /** A suffix that starts at a user message is as well formed as the whole. */
  lemma SuffixFromUser(m: seq<Message>, i: nat)
    requires i < |m| && m[i].User? && Outstanding(m).Some?
    ensures Outstanding(m[i..]) == Outstanding(m)
  {
    var before := Outstanding(m[..i]);
    assert m == m[..i] + ([m[i]] + m[i + 1..]);
    assert m[i..] == [m[i]] + m[i + 1..];
    AdvanceAllConcat(Some([]), m[..i], m[i..]);
    AdvanceAllConcat(before, [m[i]], m[i + 1..]);
    AdvanceAllPush(before, [], m[i]);
    assert [] + [m[i]] == [m[i]];
    if before != Some([]) {
      BrokenStaysBroken(m[i + 1..]);
      assert false;
    }
  }
}
