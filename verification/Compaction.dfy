/** `compact_messages_for_retry`: shortening the history after a context-length error. */
module Compaction {
  import opened Transcript
  import opened Wrappers

  // Only the role of this note matters here, not its wording.
  const COMPACTION_NOTE := "compacted"

  /** The index of the last user message. */
  method LastUserIndex(messages: seq<Message>) returns (r: Option<nat>)
    ensures r.Some? ==> r.value < |messages| && messages[r.value].User?
    ensures r.Some? ==> forall i :: r.value < i < |messages| ==> !messages[i].User?
    ensures r.None? ==> forall i :: 0 <= i < |messages| ==> !messages[i].User?
  {
    var i := |messages|;
    while i > 0
      invariant 0 <= i <= |messages|
      invariant forall j :: i <= j < |messages| ==> !messages[j].User?
    {
      i := i - 1;
      if messages[i].User? { return Some(i); }
    }
    return None;
  }

  /** The three possible results, told apart by where the last user message stands. */
  ghost predicate IsCompaction(messages: seq<Message>, compacted: seq<Message>) {
    || (exists i: nat :: i < |messages| && messages[i].User?
         && (forall j :: i < j < |messages| ==> !messages[j].User?)
         && compacted == KeptFrom(messages, i))
    || ((forall j :: 0 <= j < |messages| ==> !messages[j].User?)
         && compacted == SystemMessages(messages) + OtherMessages(messages))
  }

  function KeptFrom(messages: seq<Message>, i: nat): seq<Message>
    requires i <= |messages|
  {
    SystemMessages(messages[..i]) + (if i > 0 then [System(COMPACTION_NOTE)] else []) + messages[i..]
  }

  /**
   * The same by position: the system messages before the last user message, a note if anything
   * stood before it, and all from it on; or, with no user message, the system messages first.
   */
  ghost predicate CompactedByPosition(messages: seq<Message>, compacted: seq<Message>) {
    || (exists i: nat, kept: seq<Message> :: KeepsFrom(messages, compacted, i, kept))
    || ((forall j :: 0 <= j < |messages| ==> !messages[j].User?)
         && exists systems, others :: SystemsFirst(messages, compacted, systems, others))
  }

  ghost predicate KeepsFrom(messages: seq<Message>, compacted: seq<Message>, i: nat, kept: seq<Message>) {
    && i < |messages| && messages[i].User? && (forall j :: i < j < |messages| ==> !messages[j].User?)
    && IsSelection(messages[..i], kept, true)
    && compacted == kept + (if i == 0 then [] else [System(COMPACTION_NOTE)]) + messages[i..]
  }

  ghost predicate SystemsFirst(messages: seq<Message>, compacted: seq<Message>, systems: seq<Message>, others: seq<Message>) {
    compacted == systems + others && IsSelection(messages, systems, true) && IsSelection(messages, others, false)
  }

  lemma CompactionByPosition(messages: seq<Message>, compacted: seq<Message>)
    requires IsCompaction(messages, compacted)
    ensures CompactedByPosition(messages, compacted)
  {
    if i: nat :| i < |messages| && messages[i].User? && (forall j :: i < j < |messages| ==> !messages[j].User?)
                 && compacted == KeptFrom(messages, i)
    {
      SelectionsByPosition(messages[..i]);
      assert KeepsFrom(messages, compacted, i, SystemMessages(messages[..i]));
    } else {
      SelectionsByPosition(messages);
      assert SystemsFirst(messages, compacted, SystemMessages(messages), OtherMessages(messages));
    }
  }

  method CompactMessagesForRetry(messages: seq<Message>) returns (compacted: seq<Message>)
    ensures IsCompaction(messages, compacted)
    ensures WellFormed(messages) ==> WellFormed(compacted)
  {
    compacted := [];
    var lastUser := LastUserIndex(messages);
    if lastUser.Some? {
      var idx := lastUser.value;
      for i := 0 to idx
        invariant compacted == SystemMessages(messages[..i])
      {
        assert messages[..i + 1][..i] == messages[..i];
        if messages[i].System? { compacted := compacted + [messages[i]]; }
      }
      if idx > 0 { compacted := compacted + [System(COMPACTION_NOTE)]; }
      compacted := compacted + messages[idx..];
      KeptFromWellFormed(messages, idx);
    } else {
      for i := 0 to |messages|
        invariant compacted == SystemMessages(messages[..i])
      {
        assert messages[..i + 1][..i] == messages[..i];
        if messages[i].System? { compacted := compacted + [messages[i]]; }
      }
      assert messages[..|messages|] == messages;
      ghost var systems := compacted;
      for i := 0 to |messages|
        invariant compacted == systems + OtherMessages(messages[..i])
      {
        assert messages[..i + 1][..i] == messages[..i];
        if !messages[i].System? { compacted := compacted + [messages[i]]; }
      }
      SystemsFirstWellFormed(messages);
    }
  }

  lemma KeptFromWellFormed(messages: seq<Message>, i: nat)
    requires i < |messages| && messages[i].User?
    ensures WellFormed(messages) ==> WellFormed(KeptFrom(messages, i))
  {
    WellFormedIffNothingOutstanding(messages);
    WellFormedIffNothingOutstanding(KeptFrom(messages, i));
    if WellFormed(messages) {
      var systems := SystemMessages(messages[..i]);
      SystemMessagesAreInert(messages[..i]);
      AdvanceAllPush(Some([]), systems, System(COMPACTION_NOTE));
      SuffixFromUser(messages, i);
      var head := systems + (if i > 0 then [System(COMPACTION_NOTE)] else []);
      AdvanceAllConcat(Some([]), head, messages[i..]);
    }
  }

  lemma SystemsFirstWellFormed(messages: seq<Message>)
    ensures WellFormed(messages) ==> WellFormed(SystemMessages(messages) + OtherMessages(messages))
  {
    WellFormedIffNothingOutstanding(messages);
    WellFormedIffNothingOutstanding(SystemMessages(messages) + OtherMessages(messages));
    if WellFormed(messages) {
      SystemMessagesAreInert(messages);
      DroppingSystemsKeepsScan(messages);
      AdvanceAllConcat(Some([]), SystemMessages(messages), OtherMessages(messages));
    }
  }
}
