/** What one whole reaper pass promises. */
module ReaperTheorems {
  import opened WakeRow
  import opened OutboxReaper

  // The table after each of the first four phases.
  function AfterAbandon(p: Windows, wakes: Wakes): Wakes { OneShot(AbandonPhase, p, wakes) }
  function AfterAccepted(p: Windows, wakes: Wakes): Wakes { OneShot(AcceptedReap, p, AfterAbandon(p, wakes)) }
  function AfterTerminal(p: Windows, wakes: Wakes): Wakes { OneShot(AbandonedReap, p, AfterAccepted(p, wakes)) }
  function AfterParked(p: Windows, wakes: Wakes): Wakes { OneShot(ParkedReap, p, AfterTerminal(p, wakes)) }

  /** The rows of one agent among some ids. */
  function OfAgent(wakes: Wakes, ids: set<nat>, agent: string): set<nat> {
    set id | id in ids && id in wakes && wakes[id].agent == agent
  }

  function AgentRows(wakes: Wakes, agent: string): set<nat> {
    OfAgent(wakes, wakes.Keys, agent)
  }

  /** How many rows of an agent one phase deletes or rewrites. */
  function PhaseCount(ph: Phase, p: Windows, wakes: Wakes, agent: string): nat {
    |OfAgent(wakes, Candidates(ph, p, wakes), agent)|
  }

  lemma PhaseConserves(ph: Phase, p: Windows, wakes: Wakes, agent: string)
    ensures |AgentRows(wakes, agent)| ==
            |AgentRows(OneShot(ph, p, wakes), agent)| + (if Deletes(ph) then PhaseCount(ph, p, wakes, agent) else 0)
  {
    var after := OneShot(ph, p, wakes);
    if Deletes(ph) {
      var gone := OfAgent(wakes, Candidates(ph, p, wakes), agent);
      assert AgentRows(wakes, agent) == AgentRows(after, agent) + gone;
      assert AgentRows(after, agent) !! gone;
    } else {
      assert AgentRows(wakes, agent) == AgentRows(after, agent);
    }
  }

  /** Per agent: rows before = rows after + accepted_reaped + abandoned_reaped + parked_reaped. */
  lemma PassConserves(p: Windows, wakes: Wakes, agent: string)
    ensures |AgentRows(wakes, agent)| ==
            |AgentRows(ReapPass(p, wakes), agent)|
            + PhaseCount(AcceptedReap, p, AfterAbandon(p, wakes), agent)
            + PhaseCount(AbandonedReap, p, AfterAccepted(p, wakes), agent)
            + PhaseCount(ParkedReap, p, AfterTerminal(p, wakes), agent)
  {
    PhaseConserves(AbandonPhase, p, wakes, agent);
    PhaseConserves(AcceptedReap, p, AfterAbandon(p, wakes), agent);
    PhaseConserves(AbandonedReap, p, AfterAccepted(p, wakes), agent);
    PhaseConserves(ParkedReap, p, AfterTerminal(p, wakes), agent);
    PhaseConserves(PayloadTrim, p, AfterParked(p, wakes), agent);
  }

  /** A row abandoned by the pass survives the same pass whole: it keeps its
      prompt and waits out its full forensic window. */
  lemma FreshAbandonmentSurvives(p: Windows, wakes: Wakes, id: nat)
    requires ValidWindows(p)
    requires id in Candidates(AbandonPhase, p, wakes)
    ensures id in ReapPass(p, wakes)
    ensures ReapPass(p, wakes)[id] == wakes[id].(abandonedAt := p.now, parkedAt := 0.0, drainParkedAt := 0.0)
  {
  }

  /** Owed rows that outlive the pass are exactly the owed rows it could not
      abandon, and they are untouched, prompt included: no unpasted one is past
      the ceiling, and a pasted one is beyond the reaper however old it is. */
  lemma OwedRowsAfterPass(p: Windows, wakes: Wakes, id: nat)
    requires ValidWindows(p)
    ensures (id in ReapPass(p, wakes) && Owed(ReapPass(p, wakes)[id]))
            <==> (id in wakes && Owed(wakes[id]) &&
                  (wakes[id].pastedAt != 0.0 || wakes[id].firedAt >= p.now - p.abandonAfter))
    ensures id in wakes && id in ReapPass(p, wakes) && Owed(ReapPass(p, wakes)[id]) ==>
              ReapPass(p, wakes)[id] == wakes[id]
  {
    var w1 := AfterAbandon(p, wakes);
    var w4 := AfterParked(p, wakes);
    if id in wakes {
      assert Owed(w1[id]) <==> Owed(wakes[id]) && id !in Candidates(AbandonPhase, p, wakes);
      if Owed(w1[id]) {
        assert id in AfterAccepted(p, wakes);
        assert id in AfterTerminal(p, wakes);
        assert id in w4 && w4[id] == w1[id];
        assert id !in Candidates(PayloadTrim, p, w4);
      }
    }
  }

  /** Retention rule of the whole pass, read off the table it starts from. */
  predicate Expired(p: Windows, wakes: Wakes, id: nat)
    requires id in wakes
  {
    var w := wakes[id];
    || (w.acceptedAt > 0.0 && w.acceptedAt < p.now - p.retainAccepted)
    || (w.acceptedAt == 0.0 && w.parkedAt == 0.0 && w.abandonedAt > 0.0 && w.abandonedAt < p.now - p.retainAbandoned)
    || (Discarded(w) && w.parkedAt < p.now - p.retainAbandoned)
    || (Undiscarded(w) && w.parkedAt < p.now - p.retainParked &&
        exists n :: n in wakes && Supersedes(wakes, n, id) && n !in Candidates(AbandonPhase, p, wakes))
  }

  lemma MarkersReachParkedPhase(p: Windows, wakes: Wakes, id: nat)
    requires id in wakes
    ensures id in AfterTerminal(p, wakes) && Undiscarded(AfterTerminal(p, wakes)[id])
            <==> Undiscarded(wakes[id]) && id !in Candidates(AbandonPhase, p, wakes)
    ensures id in AfterTerminal(p, wakes) && Undiscarded(AfterTerminal(p, wakes)[id]) ==>
              AfterTerminal(p, wakes)[id] == wakes[id]
  {
  }

  /** The "newer row exists" test of the parked phase, read off the first table. */
  lemma NewerAtParkedPhase(p: Windows, wakes: Wakes, id: nat)
    requires id in wakes && Undiscarded(wakes[id]) && id !in Candidates(AbandonPhase, p, wakes)
    ensures id in AfterTerminal(p, wakes)
    ensures HasNewer(AfterTerminal(p, wakes), id) <==>
            exists n :: n in wakes && Supersedes(wakes, n, id) && n !in Candidates(AbandonPhase, p, wakes)
  {
    var w3 := AfterTerminal(p, wakes);
    MarkersReachParkedPhase(p, wakes, id);
    if HasNewer(w3, id) {
      var n :| n in w3 && Supersedes(w3, n, id);
      assert n in AfterAccepted(p, wakes) && n in AfterAbandon(p, wakes) && n in wakes;
      MarkersReachParkedPhase(p, wakes, n);
      assert Supersedes(wakes, n, id);
    }
    forall n | n in wakes && Supersedes(wakes, n, id) && n !in Candidates(AbandonPhase, p, wakes)
      ensures n in w3 && Supersedes(w3, n, id)
    {
      MarkersReachParkedPhase(p, wakes, n);
    }
  }

  lemma TrimDeletesNothing(p: Windows, wakes: Wakes)
    ensures ReapPass(p, wakes).Keys == AfterParked(p, wakes).Keys
  {
  }

  lemma OtherRowsDeletedIff(p: Windows, wakes: Wakes, id: nat)
    requires id in wakes && !Undiscarded(wakes[id]) && id !in Candidates(AbandonPhase, p, wakes)
    ensures id !in AfterParked(p, wakes) <==> Expired(p, wakes, id)
  {
  }

  /** Exactly the rows past their retention, and not abandoned by this very
      pass, are deleted. */
  lemma DeletedIffExpired(p: Windows, wakes: Wakes, id: nat)
    requires ValidWindows(p)
    requires id in wakes
    ensures id !in ReapPass(p, wakes) <==>
            id !in Candidates(AbandonPhase, p, wakes) && Expired(p, wakes, id)
  {
    TrimDeletesNothing(p, wakes);
    if id in Candidates(AbandonPhase, p, wakes) {
      FreshAbandonmentSurvives(p, wakes, id);
    } else if Undiscarded(wakes[id]) {
      NewerAtParkedPhase(p, wakes, id);
      MarkersReachParkedPhase(p, wakes, id);
    } else {
      OtherRowsDeletedIff(p, wakes, id);
    }
  }

  /** Trimming rule of the whole pass, read off the table it starts from. */
  predicate TrimDue(p: Windows, wakes: Wakes, id: nat)
    requires id in wakes
  {
    var w := wakes[id];
    w.prompt != PAYLOAD_TRIMMED &&
    (|| (w.acceptedAt > 0.0 && w.acceptedAt < p.now - p.trimAfter)
     || (w.acceptedAt == 0.0 && w.parkedAt == 0.0 && w.abandonedAt > 0.0 && w.abandonedAt < p.now - p.trimAfter)
     || (Discarded(w) && w.parkedAt < p.now - p.trimAfter)
     || (Undiscarded(w) && w.parkedAt < p.now - p.trimAfter &&
         exists n :: n in wakes && Supersedes(wakes, n, id) && n !in Candidates(AbandonPhase, p, wakes)))
  }

  /** A row that reaches the trim phase without having been abandoned is as it was. */
  lemma SurvivorAtTrim(p: Windows, wakes: Wakes, id: nat)
    requires id in wakes && id !in Candidates(AbandonPhase, p, wakes) && id in AfterParked(p, wakes)
    ensures id in AfterTerminal(p, wakes) && AfterParked(p, wakes)[id] == wakes[id]
    ensures HasNewer(AfterParked(p, wakes), id) <==> HasNewer(AfterTerminal(p, wakes), id)
  {
    assert id in AfterTerminal(p, wakes) && id in AfterAccepted(p, wakes);
    NewerSurvives(p, AfterTerminal(p, wakes), Candidates(ParkedReap, p, AfterTerminal(p, wakes)), id);
  }

  lemma TrimmedIffDue(p: Windows, wakes: Wakes, id: nat)
    requires id in wakes && id !in Candidates(AbandonPhase, p, wakes) && id in AfterParked(p, wakes)
    ensures id in Candidates(PayloadTrim, p, AfterParked(p, wakes)) <==> TrimDue(p, wakes, id)
  {
    SurvivorAtTrim(p, wakes, id);
    if Undiscarded(wakes[id]) { NewerAtParkedPhase(p, wakes, id); }
    hide AfterParked, AfterTerminal, HasNewer, Supersedes;
  }

  /** The whole pass row by row, read off the table it starts from: a row is abandoned,
      deleted, trimmed or left alone, and no row appears. */
  lemma PassRowByRow(p: Windows, wakes: Wakes, id: nat)
    requires ValidWindows(p)
    ensures id !in wakes ==> id !in ReapPass(p, wakes)
    ensures id in wakes ==>
              if id in Candidates(AbandonPhase, p, wakes) then
                id in ReapPass(p, wakes) && ReapPass(p, wakes)[id] == Effect(AbandonPhase, p, wakes[id])
              else if Expired(p, wakes, id) then
                id !in ReapPass(p, wakes)
              else
                id in ReapPass(p, wakes) &&
                ReapPass(p, wakes)[id] ==
                if TrimDue(p, wakes, id) then wakes[id].(prompt := PAYLOAD_TRIMMED) else wakes[id]
  {
    if id in wakes {
      DeletedIffExpired(p, wakes, id);
      if id in Candidates(AbandonPhase, p, wakes) {
        FreshAbandonmentSurvives(p, wakes, id);
      } else if !Expired(p, wakes, id) {
        TrimDeletesNothing(p, wakes);
        SurvivorAtTrim(p, wakes, id);
        TrimmedIffDue(p, wakes, id);
        hide AfterTerminal, Expired, TrimDue, Candidate;
      }
    }
  }

  /** The newest undiscarded quarantine marker of a schedule is never deleted, however
      long ago it was parked. */
  lemma NewestMarkerKept(p: Windows, wakes: Wakes, id: nat)
    requires ValidWindows(p)
    requires id in wakes && Undiscarded(wakes[id]) && !HasNewer(wakes, id)
    ensures id in ReapPass(p, wakes)
  {
    DeletedIffExpired(p, wakes, id);
  }

  /** A schedule with a marker that the pass does not reclassify still has one afterwards. */
  lemma ScheduleKeepsMarker(p: Windows, wakes: Wakes, id: nat)
    requires ValidWindows(p)
    requires id in wakes && Undiscarded(wakes[id]) && id !in Candidates(AbandonPhase, p, wakes)
    ensures exists n :: n in ReapPass(p, wakes) && n in wakes &&
                        ReapPass(p, wakes)[n].scheduleId == wakes[id].scheduleId && Undiscarded(ReapPass(p, wakes)[n])
  {
    var w3 := AfterTerminal(p, wakes);
    MarkersReachParkedPhase(p, wakes, id);
    var top := id;
    if HasNewer(w3, id) {
      var n :| n in w3 && Supersedes(w3, n, id);
      top := NewestAbove(w3, id, n, set m | m in w3 && Supersedes(w3, m, n));
    }
    TerminalKeysKept(p, wakes, top);
    NewestSurvives(p, wakes, top);
  }

  lemma TerminalKeysKept(p: Windows, wakes: Wakes, id: nat)
    requires id in AfterTerminal(p, wakes)
    ensures id in wakes
  {
    assert id in AfterAccepted(p, wakes) && id in AfterAbandon(p, wakes);
  }

  lemma NewestSurvives(p: Windows, wakes: Wakes, id: nat)
    requires id in AfterTerminal(p, wakes) && !HasNewer(AfterTerminal(p, wakes), id)
    ensures id in ReapPass(p, wakes)
    ensures ReapPass(p, wakes)[id].scheduleId == AfterTerminal(p, wakes)[id].scheduleId
    ensures Undiscarded(ReapPass(p, wakes)[id]) <==> Undiscarded(AfterTerminal(p, wakes)[id])
  {
    assert id !in Candidates(ParkedReap, p, AfterTerminal(p, wakes));
    assert id in AfterParked(p, wakes);
  }

  /** A phase never creates a candidate for itself, nor (below) for an earlier phase. */
  lemma PhaseSettles(ph: Phase, p: Windows, wakes: Wakes)
    requires ValidWindows(p)
    ensures Candidates(ph, p, OneShot(ph, p, wakes)) == {}
  {
  }

  lemma LaterPhaseAddsNone(early: Phase, late: Phase, p: Windows, wakes: Wakes)
    requires ValidWindows(p)
    requires Candidates(early, p, wakes) == {}
    requires early.AbandonPhase? ||
             (early.AcceptedReap? && !late.AbandonPhase?) ||
             (early.AbandonedReap? && !late.AbandonPhase?) ||
             (early.ParkedReap? && late.PayloadTrim?)
    ensures Candidates(early, p, OneShot(late, p, wakes)) == {}
  {
  }

  lemma NoCandidatesNoChange(ph: Phase, p: Windows, wakes: Wakes)
    requires Candidates(ph, p, wakes) == {}
    ensures OneShot(ph, p, wakes) == wakes
  {
  }

  /** Running the pass again at the same instant changes nothing: the five
      phases leave no work behind for each other. */
  lemma PassIsIdempotent(p: Windows, wakes: Wakes)
    requires ValidWindows(p)
    ensures ReapPass(p, ReapPass(p, wakes)) == ReapPass(p, wakes)
  {
    var w1, w2 := AfterAbandon(p, wakes), AfterAccepted(p, wakes);
    var w3, w4 := AfterTerminal(p, wakes), AfterParked(p, wakes);
    var w5 := ReapPass(p, wakes);
    PhaseSettles(AbandonPhase, p, wakes);
    LaterPhaseAddsNone(AbandonPhase, AcceptedReap, p, w1);
    LaterPhaseAddsNone(AbandonPhase, AbandonedReap, p, w2);
    LaterPhaseAddsNone(AbandonPhase, ParkedReap, p, w3);
    LaterPhaseAddsNone(AbandonPhase, PayloadTrim, p, w4);
    PhaseSettles(AcceptedReap, p, w1);
    LaterPhaseAddsNone(AcceptedReap, AbandonedReap, p, w2);
    LaterPhaseAddsNone(AcceptedReap, ParkedReap, p, w3);
    LaterPhaseAddsNone(AcceptedReap, PayloadTrim, p, w4);
    PhaseSettles(AbandonedReap, p, w2);
    LaterPhaseAddsNone(AbandonedReap, ParkedReap, p, w3);
    LaterPhaseAddsNone(AbandonedReap, PayloadTrim, p, w4);
    PhaseSettles(ParkedReap, p, w3);
    LaterPhaseAddsNone(ParkedReap, PayloadTrim, p, w4);
    PhaseSettles(PayloadTrim, p, w4);
    NoCandidatesNoChange(AbandonPhase, p, w5);
    NoCandidatesNoChange(AcceptedReap, p, w5);
    NoCandidatesNoChange(AbandonedReap, p, w5);
    NoCandidatesNoChange(ParkedReap, p, w5);
    NoCandidatesNoChange(PayloadTrim, p, w5);
  }
}
