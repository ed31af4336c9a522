/**
 What one reaper pass does to a row, told by the row's ledger state, its own times
 and the length of each window, and what the counters it reports mean. Nothing here
 mentions the phases.
 */
module ReaperOutcomes {
  import opened WakeRow
  import opened OutboxReaper
  import opened ReaperTheorems
  import opened WakeProtocol

  /** The legacy marker on strings: the eighteen characters in either case, with any
      character in place of the underscore. */
  lemma LegacyMarkerIff(e: string)
    ensures LegacyMarker(e) <==>
            |e| >= 18 &&
            forall i | 0 <= i < 18 && i != 7 ::
              var c := "RECEIPT_ABANDONED:"[i];
              e[i] == c || ('A' <= c <= 'Z' && e[i] as int == c as int + 32)
  {
    assert "RECEIPT_ABANDONED:"[7] == '_';
    assert forall i | 0 <= i < 18 && i != 7 :: "RECEIPT_ABANDONED:"[i] != '_';
    assert forall i | 0 <= i < 18 :: var c := "RECEIPT_ABANDONED:"[i]; 'A' <= c <= 'Z' || c == '_' || c == ':';
  }

  lemma LegacyMarkerExamples(tail: string)
    ensures LegacyMarker("RECEIPT_ABANDONED:" + tail) && LegacyMarker("receipt-abandoned:" + tail)
  {
    var upper, lower := "RECEIPT_ABANDONED:", "receipt-abandoned:";
    assert forall i | 0 <= i < 18 :: (upper + tail)[i] == upper[i] && (lower + tail)[i] == lower[i];
  }

  lemma NoLegacyMarkers()
    ensures !LegacyMarker("") && !LegacyMarker("delivery attempts exhausted") && !LegacyMarker("retired via discard")
  {
    NotLegacy("delivery attempts exhausted", 0);
    NotLegacy("retired via discard", 2);
  }

  lemma NotLegacy(e: string, i: nat)
    requires i < 18 && i != 7 && i < |e| && AsciiUpper(e[i]) != LEGACY_PATTERN[i]
    ensures !LegacyMarker(e)
  {
    assert LEGACY_PATTERN[7] == '_' && forall k | 0 <= k < 18 && k != 7 :: LEGACY_PATTERN[k] != '_';
  }

  ghost predicate SoundRows(wakes: Wakes) {
    forall id | id in wakes :: RowOk(wakes[id])
  }

  /** A quarantine marker this pass turns into an abandonment. */
  predicate Reclassified(w: Wake) {
    StateOf(w) == Quarantined && w.pastedAt == 0.0 && LegacyMarker(w.lastError)
  }

  /** Another marker of the same schedule, parked later (or equally late, with a higher
      id), that was not discarded and is not reclassified by this pass. */
  predicate Outlives(wakes: Wakes, n: nat, id: nat)
    requires n in wakes && id in wakes
  {
    && StateOf(wakes[n]) == Quarantined && wakes[n].scheduleId == wakes[id].scheduleId
    && wakes[n].lastError != "retired via discard" && !Reclassified(wakes[n])
    && (wakes[n].parkedAt > wakes[id].parkedAt || (wakes[n].parkedAt == wakes[id].parkedAt && n > id))
  }

  /** An owed row the reaper gives up: unpasted and past the ceiling. */
  predicate Stranded(p: Windows, w: Wake) {
    (StateOf(w) == Pending || StateOf(w) == DrainParked) && w.pastedAt == 0.0 && p.now - w.firedAt > p.abandonAfter
  }

  lemma AbandonedIff(p: Windows, wakes: Wakes, id: nat)
    requires SoundRows(wakes) && id in wakes
    ensures id in Candidates(AbandonPhase, p, wakes) <==> Stranded(p, wakes[id]) || Reclassified(wakes[id])
  {
    hide LegacyMarker;
  }

  lemma OutlivesIff(p: Windows, wakes: Wakes, n: nat, id: nat)
    requires SoundRows(wakes) && ValidWindows(p) && n in wakes && id in wakes
    ensures Outlives(wakes, n, id) <==> Supersedes(wakes, n, id) && n !in Candidates(AbandonPhase, p, wakes)
  {
    AbandonedIff(p, wakes, n);
    hide LegacyMarker, Candidates;
  }

  /** When a row is deleted, by its state. */
  lemma DeletedByState(p: Windows, wakes: Wakes, id: nat)
    requires SoundRows(wakes) && ValidWindows(p) && id in wakes
    ensures var w, gone := wakes[id], id !in ReapPass(p, wakes);
            match StateOf(w)
            case Pending => !gone
            case DrainParked => !gone
            case Receipted => gone <==> p.now - w.acceptedAt > p.retainAccepted
            case Abandoned => gone <==> p.now - w.abandonedAt > p.retainAbandoned
            case Quarantined =>
              if Reclassified(w) then !gone
              else if w.lastError == "retired via discard" then gone <==> p.now - w.parkedAt > p.retainAbandoned
              else gone <==> p.now - w.parkedAt > p.retainParked && exists n :: n in wakes && Outlives(wakes, n, id)
  {
    DeletedIffExpired(p, wakes, id);
    AbandonedIff(p, wakes, id);
    ExpiredByState(p, wakes, id);
    hide LegacyMarker, ReapPass, Outlives, Expired, Candidates;
  }

  lemma ExpiredByState(p: Windows, wakes: Wakes, id: nat)
    requires SoundRows(wakes) && ValidWindows(p) && id in wakes
    ensures var w := wakes[id];
            Expired(p, wakes, id) <==>
            match StateOf(w)
            case Pending => false
            case DrainParked => false
            case Receipted => p.now - w.acceptedAt > p.retainAccepted
            case Abandoned => p.now - w.abandonedAt > p.retainAbandoned
            case Quarantined =>
              if w.lastError == DISCARD_REASON then p.now - w.parkedAt > p.retainAbandoned
              else p.now - w.parkedAt > p.retainParked && exists n :: n in wakes && Outlives(wakes, n, id)
  {
    forall n | n in wakes
      ensures Outlives(wakes, n, id) <==> Supersedes(wakes, n, id) && n !in Candidates(AbandonPhase, p, wakes)
    {
      OutlivesIff(p, wakes, n, id);
    }
    hide LegacyMarker, Outlives, Supersedes, Candidates;
  }

  /** When a surviving row changes state, and to what. */
  lemma StateAfterPass(p: Windows, wakes: Wakes, id: nat)
    requires SoundRows(wakes) && ValidWindows(p) && id in wakes && id in ReapPass(p, wakes)
    ensures var w, v := wakes[id], ReapPass(p, wakes)[id];
            if Stranded(p, w) || Reclassified(w)
            then StateOf(v) == Abandoned && v == w.(abandonedAt := p.now, parkedAt := 0.0, drainParkedAt := 0.0)
            else StateOf(v) == StateOf(w) && v.(prompt := w.prompt) == w
  {
    PassRowByRow(p, wakes, id);
    AbandonedIff(p, wakes, id);
    hide LegacyMarker, ReapPass, TrimDue, Expired, Candidates;
  }

  /** The trim window of a terminal row has run out. */
  ghost predicate DueOf(p: Windows, wakes: Wakes, id: nat)
    requires id in wakes
  {
    var w := wakes[id];
    match StateOf(w)
    case Pending => false
    case DrainParked => false
    case Receipted => p.now - w.acceptedAt > p.trimAfter
    case Abandoned => p.now - w.abandonedAt > p.trimAfter
    case Quarantined =>
      p.now - w.parkedAt > p.trimAfter &&
      (w.lastError == "retired via discard" || exists n :: n in wakes && Outlives(wakes, n, id))
  }

  /** When a surviving row loses its prompt. */
  lemma PromptAfterPass(p: Windows, wakes: Wakes, id: nat)
    requires SoundRows(wakes) && ValidWindows(p) && id in wakes && id in ReapPass(p, wakes)
    ensures ReapPass(p, wakes)[id].prompt ==
            if DueOf(p, wakes, id) && !Reclassified(wakes[id]) then "[payload trimmed by outbox reaper]"
            else wakes[id].prompt
  {
    PassRowByRow(p, wakes, id);
    AbandonedIff(p, wakes, id);
    if wakes[id].prompt != PAYLOAD_TRIMMED { DueByState(p, wakes, id); } else { assert !TrimDue(p, wakes, id); }
    assert Stranded(p, wakes[id]) ==> !DueOf(p, wakes, id);
    hide LegacyMarker, ReapPass, DueOf, TrimDue, Expired, Candidates, Reclassified, Stranded;
  }

  lemma DueByState(p: Windows, wakes: Wakes, id: nat)
    requires SoundRows(wakes) && ValidWindows(p) && id in wakes && wakes[id].prompt != PAYLOAD_TRIMMED
    ensures TrimDue(p, wakes, id) <==> DueOf(p, wakes, id)
  {
    forall n | n in wakes
      ensures Outlives(wakes, n, id) <==> Supersedes(wakes, n, id) && n !in Candidates(AbandonPhase, p, wakes)
    {
      OutlivesIff(p, wakes, n, id);
    }
    hide LegacyMarker, Outlives, Supersedes, Candidates;
  }

  /** In particular: an unpasted quarantine marker becomes an abandonment exactly when it
      carries the legacy marker, and a pasted one never does. */
  lemma ReclassifiedIff(p: Windows, wakes: Wakes, id: nat)
    requires SoundRows(wakes) && ValidWindows(p) && id in wakes && StateOf(wakes[id]) == Quarantined
    ensures id in ReapPass(p, wakes) && StateOf(ReapPass(p, wakes)[id]) == Abandoned <==>
            wakes[id].pastedAt == 0.0 && LegacyMarker(wakes[id].lastError)
  {
    DeletedByState(p, wakes, id);
    if id in ReapPass(p, wakes) { StateAfterPass(p, wakes, id); }
    hide LegacyMarker, ReapPass;
  }

  /** An ordinary marker stays what it is. */
  lemma ExhaustedMarkerStays(p: Windows, w: Wake)
    requires ValidWindows(p) && RowOk(w) && StateOf(w) == Quarantined && w.lastError == "delivery attempts exhausted"
    ensures 0 in ReapPass(p, map[0 := w]) && StateOf(ReapPass(p, map[0 := w])[0]) == Quarantined
  {
    var wakes := map[0 := w];
    NoLegacyMarkers();
    assert w.lastError[0] == 'd' && "retired via discard"[0] == 'r';
    hide LegacyMarker, ReapPass;
    DeletedByState(p, wakes, 0);
    StateAfterPass(p, wakes, 0);
  }

  // ---------------------------------------------------------------------
  // What the counters count
  // ---------------------------------------------------------------------

  function Gone(p: Windows, wakes: Wakes, agent: string): set<nat> {
    set id | id in wakes && wakes[id].agent == agent && id !in ReapPass(p, wakes)
  }

  /** The agent's rows of one state that disappear; discarded markers or the others. */
  function GoneOf(p: Windows, wakes: Wakes, agent: string, state: LedgerState): set<nat> {
    set id | id in Gone(p, wakes, agent) && StateOf(wakes[id]) == state
  }

  function GoneDiscards(p: Windows, wakes: Wakes, agent: string): set<nat> {
    set id | id in GoneOf(p, wakes, agent, Quarantined) && wakes[id].lastError == "retired via discard"
  }

  function NewlyAbandoned(p: Windows, wakes: Wakes, agent: string): set<nat> {
    set id | id in wakes && wakes[id].agent == agent && StateOf(wakes[id]) != Abandoned &&
             id in ReapPass(p, wakes) && StateOf(ReapPass(p, wakes)[id]) == Abandoned
  }

  function NewlyTrimmed(p: Windows, wakes: Wakes, agent: string): set<nat> {
    set id | id in wakes && wakes[id].agent == agent && id in ReapPass(p, wakes) &&
             ReapPass(p, wakes)[id].prompt != wakes[id].prompt
  }

  lemma AbandonedCount(p: Windows, wakes: Wakes, agent: string)
    requires SoundRows(wakes) && ValidWindows(p)
    ensures PhaseCount(AbandonPhase, p, wakes, agent) == |NewlyAbandoned(p, wakes, agent)|
  {
    forall id | id in wakes ensures id in Candidates(AbandonPhase, p, wakes) <==>
        StateOf(wakes[id]) != Abandoned && id in ReapPass(p, wakes) && StateOf(ReapPass(p, wakes)[id]) == Abandoned
    {
      PassRowByRow(p, wakes, id);
      if id in ReapPass(p, wakes) { StateAfterPass(p, wakes, id); }
      hide LegacyMarker, ReapPass, TrimDue, Expired;
    }
    assert OfAgent(wakes, Candidates(AbandonPhase, p, wakes), agent) == NewlyAbandoned(p, wakes, agent);
  }

  lemma AcceptedCount(p: Windows, wakes: Wakes, agent: string)
    requires SoundRows(wakes) && ValidWindows(p)
    ensures PhaseCount(AcceptedReap, p, AfterAbandon(p, wakes), agent) == |GoneOf(p, wakes, agent, Receipted)|
  {
    var w1 := AfterAbandon(p, wakes);
    forall id ensures id in OfAgent(w1, Candidates(AcceptedReap, p, w1), agent) <==>
                      id in GoneOf(p, wakes, agent, Receipted)
    {
      if id in wakes {
        assert id in w1 && w1[id].agent == wakes[id].agent;
        DeletedByState(p, wakes, id);
      }
      hide LegacyMarker, ReapPass, HasNewer;
    }
    assert OfAgent(w1, Candidates(AcceptedReap, p, w1), agent) == GoneOf(p, wakes, agent, Receipted);
  }

  lemma TerminalCount(p: Windows, wakes: Wakes, agent: string)
    requires SoundRows(wakes) && ValidWindows(p)
    ensures PhaseCount(AbandonedReap, p, AfterAccepted(p, wakes), agent) ==
            |GoneOf(p, wakes, agent, Abandoned) + GoneDiscards(p, wakes, agent)|
  {
    var w2 := AfterAccepted(p, wakes);
    forall id ensures id in OfAgent(w2, Candidates(AbandonedReap, p, w2), agent) <==>
                      id in GoneOf(p, wakes, agent, Abandoned) + GoneDiscards(p, wakes, agent)
    {
      AtTerminalPhase(p, wakes, id);
      if id in wakes { DeletedByState(p, wakes, id); }
      hide LegacyMarker, ReapPass, HasNewer, AfterAccepted;
    }
    assert OfAgent(w2, Candidates(AbandonedReap, p, w2), agent) ==
           GoneOf(p, wakes, agent, Abandoned) + GoneDiscards(p, wakes, agent);
  }

  /** A row the terminal phase sees is one the pass started from; if abandoned just now
      it is too fresh for that phase. */
  lemma AtTerminalPhase(p: Windows, wakes: Wakes, id: nat)
    requires SoundRows(wakes) && ValidWindows(p)
    ensures id in AfterAccepted(p, wakes) ==> id in wakes && AfterAccepted(p, wakes)[id].agent == wakes[id].agent
    ensures id in AfterAccepted(p, wakes) && id in Candidates(AbandonPhase, p, wakes) ==>
              StateOf(AfterAccepted(p, wakes)[id]) == Abandoned && AfterAccepted(p, wakes)[id].abandonedAt == p.now
    ensures id in wakes && id !in Candidates(AbandonPhase, p, wakes) && StateOf(wakes[id]) != Receipted ==>
              id in AfterAccepted(p, wakes)
    ensures id in AfterAccepted(p, wakes) && id !in Candidates(AbandonPhase, p, wakes) ==>
              AfterAccepted(p, wakes)[id] == wakes[id]
  {
    hide LegacyMarker, HasNewer;
    if id in AfterAccepted(p, wakes) { assert id in AfterAbandon(p, wakes); }
  }

  lemma ParkedCount(p: Windows, wakes: Wakes, agent: string)
    requires SoundRows(wakes) && ValidWindows(p)
    ensures PhaseCount(ParkedReap, p, AfterTerminal(p, wakes), agent) ==
            |GoneOf(p, wakes, agent, Quarantined) - GoneDiscards(p, wakes, agent)|
  {
    var w3 := AfterTerminal(p, wakes);
    forall id ensures id in OfAgent(w3, Candidates(ParkedReap, p, w3), agent) <==>
                      id in GoneOf(p, wakes, agent, Quarantined) - GoneDiscards(p, wakes, agent)
    {
      AtParkedPhase(p, wakes, id);
      hide LegacyMarker, ReapPass, HasNewer, AfterTerminal, Outlives;
    }
    assert OfAgent(w3, Candidates(ParkedReap, p, w3), agent) ==
           GoneOf(p, wakes, agent, Quarantined) - GoneDiscards(p, wakes, agent);
  }

  lemma AtParkedPhase(p: Windows, wakes: Wakes, id: nat)
    requires SoundRows(wakes) && ValidWindows(p)
    ensures id in Candidates(ParkedReap, p, AfterTerminal(p, wakes)) <==>
            (id in wakes && id !in ReapPass(p, wakes) &&
             StateOf(wakes[id]) == Quarantined && wakes[id].lastError != "retired via discard")
    ensures id in AfterTerminal(p, wakes) ==> id in wakes && AfterTerminal(p, wakes)[id].agent == wakes[id].agent
  {
    if id in AfterTerminal(p, wakes) { TerminalRowIsOld(p, wakes, id); }
    if id in wakes {
      MarkersReachParkedPhase(p, wakes, id);
      DeletedIffExpired(p, wakes, id);
      if Undiscarded(wakes[id]) && id !in Candidates(AbandonPhase, p, wakes) { NewerAtParkedPhase(p, wakes, id); }
      hide LegacyMarker, ReapPass, HasNewer, AfterTerminal, Supersedes;
    }
  }

  lemma TerminalRowIsOld(p: Windows, wakes: Wakes, id: nat)
    requires id in AfterTerminal(p, wakes)
    ensures id in wakes && AfterTerminal(p, wakes)[id].agent == wakes[id].agent
  {
    hide LegacyMarker, HasNewer;
    assert id in AfterAccepted(p, wakes) && id in AfterAbandon(p, wakes);
  }

  lemma TrimmedCount(p: Windows, wakes: Wakes, agent: string)
    requires SoundRows(wakes) && ValidWindows(p)
    ensures PhaseCount(PayloadTrim, p, AfterParked(p, wakes), agent) == |NewlyTrimmed(p, wakes, agent)|
  {
    var w4 := AfterParked(p, wakes);
    forall id ensures id in OfAgent(w4, Candidates(PayloadTrim, p, w4), agent) <==>
                      id in NewlyTrimmed(p, wakes, agent)
    {
      AtTrimPhase(p, wakes, id);
      hide LegacyMarker, ReapPass, HasNewer, AfterParked;
    }
    assert OfAgent(w4, Candidates(PayloadTrim, p, w4), agent) == NewlyTrimmed(p, wakes, agent);
  }

  lemma AtTrimPhase(p: Windows, wakes: Wakes, id: nat)
    requires SoundRows(wakes) && ValidWindows(p)
    ensures id in Candidates(PayloadTrim, p, AfterParked(p, wakes)) <==>
            id in wakes && id in ReapPass(p, wakes) && ReapPass(p, wakes)[id].prompt != wakes[id].prompt
    ensures id in AfterParked(p, wakes) ==> id in wakes && AfterParked(p, wakes)[id].agent == wakes[id].agent
  {
    TrimDeletesNothing(p, wakes);
    PassRowByRow(p, wakes, id);
    if id in AfterParked(p, wakes) {
      assert id in AfterTerminal(p, wakes);
      TerminalRowIsOld(p, wakes, id);
      if id !in Candidates(AbandonPhase, p, wakes) {
        TrimmedIffDue(p, wakes, id);
      } else {
        FreshAtTrim(p, wakes, id);
      }
    }
    hide LegacyMarker, ReapPass, HasNewer, AfterTerminal, Supersedes, Expired;
  }

  /** A row abandoned by this pass is no candidate for trimming in it. */
  lemma FreshAtTrim(p: Windows, wakes: Wakes, id: nat)
    requires ValidWindows(p) && id in Candidates(AbandonPhase, p, wakes) && id in AfterParked(p, wakes)
    ensures id !in Candidates(PayloadTrim, p, AfterParked(p, wakes))
  {
    hide LegacyMarker, HasNewer;
    assert id in AfterTerminal(p, wakes) && id in AfterAccepted(p, wakes);
  }
}
