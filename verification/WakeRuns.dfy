/** Safety of the wake ledger over whole runs: any steps, any order, any stale ids. */
module WakeRuns {
  import opened Prelude
  import opened WakeRow
  import opened OutboxReaper
  import opened ReaperTheorems
  import opened WakeProtocol

  ghost function Run(s: Ledger, steps: seq<Step>): Ledger
    decreases |steps|
  {
    if steps == [] then s else Run(Next(s, steps[0]), steps[1..])
  }

  ghost predicate StepsOk(steps: seq<Step>) {
    forall k | 0 <= k < |steps| :: StepOk(steps[k])
  }

  lemma EvolvesTransitive(s: Ledger, t: Ledger, u: Ledger)
    requires LedgerOk(s) && Evolves(s, t) && Evolves(t, u)
    ensures Evolves(s, u)
  {
  }

  /** The invariant holds in every reachable ledger, and every row of a later
      ledger is either new or a forward evolution of the same row earlier. */
  lemma {:induction false} RunSound(s: Ledger, steps: seq<Step>)
    requires LedgerOk(s) && StepsOk(steps)
    ensures LedgerOk(Run(s, steps)) && Evolves(s, Run(s, steps))
    decreases |steps|
  {
    if steps == [] {
    } else {
      var t := Next(s, steps[0]);
      StepSound(s, steps[0]);
      RunSound(t, steps[1..]);
      EvolvesTransitive(s, t, Run(s, steps));
    }
  }

  lemma {:induction false} RunSplits(s: Ledger, early: seq<Step>, late: seq<Step>)
    ensures Run(s, early + late) == Run(Run(s, early), late)
    decreases |early|
  {
    if early == [] {
      assert early + late == late;
    } else {
      assert (early + late)[1..] == early[1..] + late;
      RunSplits(Next(s, early[0]), early[1..], late);
    }
  }

  /** The states before step i and before a later step j of one run. */
  lemma PrefixesEvolve(s: Ledger, steps: seq<Step>, i: nat, j: nat)
    requires LedgerOk(s) && StepsOk(steps) && i <= j <= |steps|
    ensures LedgerOk(Run(s, steps[..i])) && LedgerOk(Run(s, steps[..j]))
    ensures Evolves(Run(s, steps[..i]), Run(s, steps[..j]))
  {
    RunSound(s, steps[..i]);
    assert steps[..j] == steps[..i] + steps[i..j];
    RunSplits(s, steps[..i], steps[i..j]);
    RunSound(Run(s, steps[..i]), steps[i..j]);
  }

  // ---------------------------------------------------------------------
  // Receipts
  // ---------------------------------------------------------------------

  /** A positive receipt is final: no later step can undo it or restamp it. */
  lemma ReceiptIsForever(s: Ledger, steps: seq<Step>, i: nat, j: nat, id: nat)
    requires LedgerOk(s) && StepsOk(steps) && i <= j <= |steps|
    requires id in Run(s, steps[..i]).wakes && id in Run(s, steps[..j]).wakes
    requires Run(s, steps[..i]).wakes[id].acceptedAt > 0.0
    ensures StateOf(Run(s, steps[..j]).wakes[id]) == Receipted
    ensures Run(s, steps[..j]).wakes[id].acceptedAt == Run(s, steps[..i]).wakes[id].acceptedAt
  {
    PrefixesEvolve(s, steps, i, j);
  }

  predicate DrainParkedRow(w: Wake) { w.drainParkedAt > 0.0 }

  /** Either confirm accepts its row for good and leaves the whole agent with no
      drain-parked row; every other row is released or untouched. */
  lemma ConfirmReleasesAgent(s: Ledger, id: nat, stamp: real)
    requires LedgerOk(s) && id in s.wakes && stamp > 0.0
    ensures var t := Next(s, Confirm(id, stamp));
            t == Next(s, ConfirmByFire(s.wakes[id].scheduleId, s.wakes[id].firedAt, stamp)) &&
            t.wakes.Keys == s.wakes.Keys &&
            StateOf(t.wakes[id]) == Receipted &&
            (forall k | k in t.wakes && t.wakes[k].agent == s.wakes[id].agent :: !DrainParkedRow(t.wakes[k])) &&
            (forall k | k in t.wakes && k != id ::
               if s.wakes[k].agent == s.wakes[id].agent && DrainParkedRow(s.wakes[k])
               then StateOf(t.wakes[k]) == Pending && t.wakes[k].releasedAt == stamp
               else t.wakes[k] == s.wakes[k])
  {
    ConfirmsAgree(s, id, stamp);
    hide ConfirmFire, FireId;
  }

  // ---------------------------------------------------------------------
  // Claims
  // ---------------------------------------------------------------------

  /** A claim never advances `last_run` without an exact-fire row to classify. */
  lemma ClaimLeavesRow(s: Ledger, step: Step)
    requires LedgerOk(s) && StepOk(step) && step.Claim? && ClaimWins(s, step.scheduleId, step.expectedLastRun)
    ensures HasFire(Next(s, step).wakes, step.scheduleId, step.at)
    ensures Next(s, step).schedules[step.scheduleId].lastRun == step.at
    ensures forall id | id in s.wakes :: id in Next(s, step).wakes && Next(s, step).wakes[id] == s.wakes[id]
  {
    var t := Next(s, step);
    if HasFire(s.wakes, step.scheduleId, step.at) {
      assert t.wakes == s.wakes;
    } else {
      assert IsFire(t.wakes[s.nextId], step.scheduleId, step.at);
    }
  }

  /** Compare-and-swap: of two claimers that read the same `last_run`, the later
      one wins too if and only if the first wrote that very value back. */
  lemma ClaimRace(s: Ledger, first: Step, second: Step)
    requires first.Claim? && second.Claim? && first.scheduleId == second.scheduleId
    requires first.expectedLastRun == second.expectedLastRun
    requires ClaimWins(s, first.scheduleId, first.expectedLastRun)
    ensures ClaimWins(Next(s, first), second.scheduleId, second.expectedLastRun) <==> first.at == first.expectedLastRun
  {
  }

  // ---------------------------------------------------------------------
  // Paste: write-ahead of an irreversible submission
  // ---------------------------------------------------------------------

  /** The UPDATE of `mark_schedule_wake_pasted` touches row id. */
  predicate Pastes(s: Ledger, step: Step, id: nat) {
    step.Paste? && id in s.wakes && IsFire(s.wakes[id], step.scheduleId, step.firedAt) && CanPaste(s.wakes[id])
  }

  /** In one row's life at most one real paste succeeds, whatever intervenes. */
  lemma PasteAtMostOnce(s: Ledger, steps: seq<Step>, i: nat, j: nat, id: nat)
    requires LedgerOk(s) && StepsOk(steps) && i < j < |steps|
    requires Pastes(Run(s, steps[..i]), steps[i], id)
    requires steps[i].pastedAt != 0.0
    ensures !Pastes(Run(s, steps[..j]), steps[j], id)
  {
    PrefixStep(s, steps, i);
    var after := Run(s, steps[..i+1]);
    assert after.wakes[id].pastedAt != 0.0;
    PrefixesEvolve(s, steps, i + 1, j);
  }

  /** The step before which the row is there and after which it is gone. */
  predicate Removes(s: Ledger, t: Ledger, id: nat) { id in s.wakes && id !in t.wakes }

  lemma {:induction false} RemovalExists(s: Ledger, steps: seq<Step>, i: nat, j: nat, id: nat) returns (k: nat)
    requires i <= j <= |steps|
    requires id in Run(s, steps[..i]).wakes && id !in Run(s, steps[..j]).wakes
    ensures i <= k < j && Removes(Run(s, steps[..k]), Run(s, steps[..k+1]), id)
    decreases j - i
  {
    if id !in Run(s, steps[..i+1]).wakes { return i; }
    k := RemovalExists(s, steps, i + 1, j, id);
  }

  lemma PrefixStep(s: Ledger, steps: seq<Step>, k: nat)
    requires k < |steps|
    ensures Run(s, steps[..k+1]) == Next(Run(s, steps[..k]), steps[k])
  {
    assert steps[..k+1] == steps[..k] + [steps[k]];
    RunSplits(s, steps[..k], [steps[k]]);
    RunOne(Run(s, steps[..k]), steps[k]);
  }

  /** Only an explicit delete removes a pasted row that is still owed; the reaper
      removes none but terminal rows. */
  lemma PastedRowRemoved(s: Ledger, step: Step, id: nat)
    requires LedgerOk(s) && StepOk(step) && Removes(s, Next(s, step), id) && s.wakes[id].pastedAt != 0.0
    ensures step == Delete(id) || (step.Reap? && !Owed(s.wakes[id]))
  {
    if step.Reap? { OwedRowsAfterPass(step.windows, s.wakes, id); }
  }

  /** The same exact fire is really pasted twice only if, in between, the row that was
      pasted first was deleted by hand, or ended and was reaped. */
  lemma SecondPasteOfFire(s: Ledger, steps: seq<Step>, i: nat, j: nat, first: nat, second: nat) returns (k: nat)
    requires LedgerOk(s) && StepsOk(steps) && i < j < |steps|
    requires Pastes(Run(s, steps[..i]), steps[i], first) && Pastes(Run(s, steps[..j]), steps[j], second)
    requires steps[i].scheduleId == steps[j].scheduleId && steps[i].firedAt == steps[j].firedAt
    requires steps[i].pastedAt != 0.0
    ensures first != second && i < k < j && first in Run(s, steps[..k]).wakes
    ensures steps[k] == Delete(first) || (steps[k].Reap? && !Owed(Run(s, steps[..k]).wakes[first]))
  {
    var before, late := Run(s, steps[..i]), Run(s, steps[..j]);
    PrefixStep(s, steps, i);
    PrefixesEvolve(s, steps, i, j);
    PrefixesEvolve(s, steps, i, i + 1);
    assert first in Run(s, steps[..i+1]).wakes;
    if first in late.wakes {
      assert first == second;
      PasteAtMostOnce(s, steps, i, j, first);
      assert false;
    }
    k := RemovalExists(s, steps, i + 1, j, first);
    PrefixStep(s, steps, k);
    PrefixesEvolve(s, steps, i + 1, k);
    PastedRowRemoved(Run(s, steps[..k]), steps[k], first);
  }

  /** A row of the fire, if there is one, could be pasted now. */
  ghost predicate FirePasteable(wakes: Wakes, sid: int, at: real) {
    forall id | id in wakes && IsFire(wakes[id], sid, at) :: CanPaste(wakes[id])
  }

  /** A real paste, and a later attempt to persist and paste the same fire again. */
  predicate Resubmits(first: Step, persist: Step, paste: Step) {
    && first.Paste? && first.pastedAt != 0.0
    && persist.Persist? && StepOk(persist) && persist.scheduleId == first.scheduleId && persist.at == first.firedAt
    && paste.Paste? && paste.scheduleId == first.scheduleId && paste.firedAt == first.firedAt
  }

  /** Persisting a fire and pasting it succeeds if and only if no row of the fire stands
      in the way: none pasted, parked, drain-parked, abandoned or accepted. */
  lemma PersistThenPasteIff(s: Ledger, persist: Step, paste: Step)
    requires LedgerOk(s) && StepOk(persist) && persist.Persist? && paste.Paste?
    requires paste.scheduleId == persist.scheduleId && paste.firedAt == persist.at
    ensures (exists id :: Pastes(Next(s, persist), paste, id)) <==>
            FirePasteable(s.wakes, persist.scheduleId, persist.at)
  {
    var sid, at := persist.scheduleId, persist.at;
    var t := Next(s, persist);
    if HasFire(s.wakes, sid, at) {
      var id := FireId(s.wakes, sid, at);
      assert t == s;
      assert FirePasteable(s.wakes, sid, at) ==> Pastes(t, paste, id);
    } else {
      assert forall id | id in s.wakes :: !IsFire(s.wakes[id], sid, at);
      assert Pastes(t, paste, s.nextId);
    }
  }

  /** The exact condition of a second submission. After a non-zero paste of a fire, at
      any later moment of any run, persisting the fire again and pasting it succeeds if
      and only if the pasted row is gone and no later row of the fire is in the way. */
  lemma SecondPasteIff(s: Ledger, steps: seq<Step>, i: nat, j: nat, first: nat, persist: Step, paste: Step)
    requires LedgerOk(s) && StepsOk(steps) && i < j <= |steps|
    requires Pastes(Run(s, steps[..i]), steps[i], first) && Resubmits(steps[i], persist, paste)
    ensures var now := Run(s, steps[..j]);
            (exists id :: Pastes(Next(now, persist), paste, id)) <==>
            first !in now.wakes && FirePasteable(now.wakes, persist.scheduleId, persist.at)
  {
    PrefixesEvolve(s, steps, i, j);
    PersistThenPasteIff(Run(s, steps[..j]), persist, paste);
    if first in Run(s, steps[..j]).wakes { PastedStays(s, steps, i, j, first); }
  }

  /** A pasted row keeps its paste and its fire while it lives. */
  lemma PastedStays(s: Ledger, steps: seq<Step>, i: nat, j: nat, id: nat)
    requires LedgerOk(s) && StepsOk(steps) && i < j <= |steps|
    requires Pastes(Run(s, steps[..i]), steps[i], id) && steps[i].pastedAt != 0.0 && id in Run(s, steps[..j]).wakes
    ensures Run(s, steps[..j]).wakes[id].pastedAt == steps[i].pastedAt
    ensures IsFire(Run(s, steps[..j]).wakes[id], steps[i].scheduleId, steps[i].firedAt)
  {
    PrefixStep(s, steps, i);
    PrefixesEvolve(s, steps, i + 1, j);
  }

  /** In particular, while no other row of the fire has been made, exactly the removal
      of the pasted row opens the fire to a second submission. */
  lemma SecondPasteAfterRemovalIff(s: Ledger, steps: seq<Step>, i: nat, j: nat, first: nat, persist: Step, paste: Step)
    requires LedgerOk(s) && StepsOk(steps) && i < j <= |steps|
    requires Pastes(Run(s, steps[..i]), steps[i], first) && Resubmits(steps[i], persist, paste)
    requires var now := Run(s, steps[..j]);
             forall id | id in now.wakes && IsFire(now.wakes[id], persist.scheduleId, persist.at) :: id == first
    ensures var now := Run(s, steps[..j]);
            (exists id :: Pastes(Next(now, persist), paste, id)) <==> first !in now.wakes
  {
    SecondPasteIff(s, steps, i, j, first, persist, paste);
  }

  const EMPTY := Ledger(map[], 0, map[], 0)

  /** One schedule and one fire of it, persisted. */
  function FirstFire(agent: string): Step { Persist(0, 1.0, agent, "n", "p", 1.0) }
  function Opening(agent: string): seq<Step> { [AddSchedule(agent), FirstFire(agent)] }

  lemma AfterOpening(agent: string)
    ensures var s := Run(EMPTY, Opening(agent));
            LedgerOk(s) && s.wakes == map[0 := NewWake(0, agent, "n", "p", 1.0, 1.0)] && s.nextId == 1
  {
    var one := Next(EMPTY, AddSchedule(agent));
    RunSound(EMPTY, Opening(agent));
    assert one.wakes == map[] && one.nextId == 0;
    PersistFirst(one, agent);
    hide LedgerOk, Next;
    RunOne(EMPTY, AddSchedule(agent));
    RunOne(one, FirstFire(agent));
    RunSplits(EMPTY, [AddSchedule(agent)], [FirstFire(agent)]);
    assert Opening(agent) == [AddSchedule(agent)] + [FirstFire(agent)];
  }

  /** It can happen: a fire pasted, deleted, persisted anew and pasted again. */
  lemma DeletedFirePastesAgain(agent: string)
    ensures var paste := Paste(0, 1.0, 5.0, "s", "p");
            var late := Opening(agent) + [paste, Delete(0), FirstFire(agent)];
            Pastes(Run(EMPTY, Opening(agent)), paste, 0) && Pastes(Run(EMPTY, late), paste, 1)
  {
    var paste := Paste(0, 1.0, 5.0, "s", "p");
    AfterOpening(agent);
    var two := Run(EMPTY, Opening(agent));
    var three := Next(two, paste);
    var four := Next(three, Delete(0));
    assert four.wakes == map[] && four.nextId == 1;
    PersistFirst(four, agent);
    hide Next, Run, LedgerOk;
    RunSplits(EMPTY, Opening(agent), [paste, Delete(0), FirstFire(agent)]);
    RunOfThree(two, [paste, Delete(0), FirstFire(agent)], three, four, Next(four, FirstFire(agent)));
  }

  /** And around a reap: a fire pasted, confirmed, reaped, persisted anew and pasted again. */
  lemma ReapedFirePastesAgain(agent: string)
    ensures var paste := Paste(0, 1.0, 5.0, "s", "p");
            var middle := Opening(agent) + [paste, Confirm(0, 6.0), Reap(Windows(10.0, 1.0, 1.0, 1.0, 1.0, 1.0))];
            Pastes(Run(EMPTY, Opening(agent)), paste, 0) && Pastes(Run(EMPTY, middle + [FirstFire(agent)]), paste, 1)
  {
    var paste := Paste(0, 1.0, 5.0, "s", "p");
    var windows := Windows(10.0, 1.0, 1.0, 1.0, 1.0, 1.0);
    var late := [paste, Confirm(0, 6.0), Reap(windows)];
    AfterOpening(agent);
    var two := Run(EMPTY, Opening(agent));
    FireEnds(two, paste, windows);
    hide Run, LedgerOk;
    var three := Next(two, paste);
    var four := Next(three, Confirm(0, 6.0));
    var five := Next(four, Reap(windows));
    PersistFirst(five, agent);
    hide Next;
    RunSplits(EMPTY, Opening(agent), late);
    RunOfThree(two, late, three, four, five);
    RunSplits(EMPTY, Opening(agent) + late, [FirstFire(agent)]);
    RunOne(five, FirstFire(agent));
  }

  lemma FireEnds(s: Ledger, paste: Step, p: Windows)
    requires s.wakes.Keys == {0} && s.wakes[0].acceptedAt == 0.0 && paste.Paste?
    requires ValidWindows(p) && 6.0 < p.now - p.retainAccepted
    ensures var t := Next(Next(Next(s, paste), Confirm(0, 6.0)), Reap(p));
            t.wakes == map[] && t.nextId == s.nextId
  {
    PasteThenConfirm(s, paste);
    AllReaped(p, Next(Next(s, paste), Confirm(0, 6.0)).wakes);
    hide ReapPass, MarkPasted, ConfirmById;
  }

  lemma PasteThenConfirm(s: Ledger, paste: Step)
    requires s.wakes.Keys == {0} && s.wakes[0].acceptedAt == 0.0 && paste.Paste?
    ensures var t := Next(Next(s, paste), Confirm(0, 6.0));
            t.wakes.Keys == {0} && t.wakes[0].acceptedAt == 6.0 && t.nextId == s.nextId
  {
    var pasted := Next(s, paste);
    assert pasted.wakes.Keys == {0} && pasted.wakes[0].acceptedAt == 0.0 && pasted.nextId == s.nextId;
    hide MarkPasted;
  }

  lemma AllReaped(p: Windows, wakes: Wakes)
    requires ValidWindows(p)
    requires forall id | id in wakes :: wakes[id].acceptedAt > 0.0 && wakes[id].acceptedAt < p.now - p.retainAccepted
    ensures ReapPass(p, wakes) == map[]
  {
    forall id ensures id !in ReapPass(p, wakes) { PassRowByRow(p, wakes, id); }
  }

  lemma RunOne(s: Ledger, step: Step)
    ensures Run(s, [step]) == Next(s, step)
  {
    assert [step][1..] == [];
    assert Run(Next(s, step), []) == Next(s, step);
  }

  lemma PersistFirst(s: Ledger, agent: string)
    requires s.wakes == map[]
    ensures var t := Next(s, FirstFire(agent));
            t.wakes == map[s.nextId := NewWake(0, agent, "n", "p", 1.0, 1.0)] && t.nextId == s.nextId + 1
  {
  }

  lemma RunOfThree(s: Ledger, steps: seq<Step>, one: Ledger, two: Ledger, three: Ledger)
    requires |steps| == 3 && one == Next(s, steps[0]) && two == Next(one, steps[1]) && three == Next(two, steps[2])
    ensures Run(s, steps) == three
  {
    assert Run(three, steps[1..][1..][1..]) == three;
    assert Run(two, steps[1..][1..]) == three;
    assert Run(one, steps[1..]) == three;
  }

  /** A second identical paste succeeds exactly when the first one carried the
      zero stamp, which is the column's "not pasted" value. */
  lemma PasteRepeatsIff(s: Ledger, step: Step, id: nat)
    requires LedgerOk(s) && Pastes(s, step, id)
    ensures Pastes(Next(s, step), step, id) <==> step.pastedAt == 0.0
    ensures forall k | k in s.wakes && k != id :: Next(s, step).wakes[k] == s.wakes[k]
  {
  }

  /** So a zero stamp really does paste twice: schedule, persist, paste, paste again. */
  lemma ZeroStampPastesTwice(agent: string)
    ensures var paste := Paste(0, 1.0, 0.0, "s", "p");
            var s := Run(EMPTY, Opening(agent));
            LedgerOk(s) && Pastes(s, paste, 0) && Pastes(Next(s, paste), paste, 0)
  {
    AfterOpening(agent);
    hide LedgerOk, Run;
    PasteRepeatsIff(Run(EMPTY, Opening(agent)), Paste(0, 1.0, 0.0, "s", "p"), 0);
  }

  // ---------------------------------------------------------------------
  // The supersession floor
  // ---------------------------------------------------------------------

  /** The fires of schedule sid that one step confirms. */
  ghost function ConfirmedFire(s: Ledger, step: Step, sid: int): seq<real> {
    match step
    case Confirm(id, _) =>
      if id in s.wakes && s.wakes[id].scheduleId == sid then [s.wakes[id].firedAt] else []
    case ConfirmByFire(scheduleId, firedAt, _) =>
      if scheduleId == sid && HasFire(s.wakes, sid, firedAt) then [firedAt] else []
    case ConfirmLedgerless(scheduleId, accepted, _) =>
      if scheduleId == sid then [accepted] else []
    case _ => []
  }

  /** Every fire of sid confirmed along a run, in order. */
  ghost function ConfirmedFires(s: Ledger, steps: seq<Step>, sid: int): seq<real>
    decreases |steps|
  {
    if steps == [] then [] else ConfirmedFire(s, steps[0], sid) + ConfirmedFires(Next(s, steps[0]), steps[1..], sid)
  }

  /** x is the largest of a starting value and a list of fires. */
  predicate IsMax(x: real, start: real, fires: seq<real>) {
    x >= start && (forall k | 0 <= k < |fires| :: x >= fires[k]) && (x == start || x in fires)
  }

  /** `last_accepted_fired_at` is the maximum of its starting value and every fire
      confirmed since, by row id, by exact fire or without a ledger row. In
      particular reaping the accepted rows never lowers it. */
  lemma {:induction false} FloorIsMax(s: Ledger, steps: seq<Step>, sid: int)
    requires LedgerOk(s) && StepsOk(steps) && sid in s.schedules
    ensures sid in Run(s, steps).schedules
    ensures IsMax(Run(s, steps).schedules[sid].lastAccepted,
                  s.schedules[sid].lastAccepted, ConfirmedFires(s, steps, sid))
    decreases |steps|
  {
    if steps == [] {
    } else {
      var t := Next(s, steps[0]);
      StepSound(s, steps[0]);
      FloorStep(s, steps[0], sid);
      FloorIsMax(t, steps[1..], sid);
      var mid := t.schedules[sid].lastAccepted;
      var head := ConfirmedFire(s, steps[0], sid);
      var tail := ConfirmedFires(t, steps[1..], sid);
      MaxChains(s.schedules[sid].lastAccepted, head, mid, tail, Run(s, steps).schedules[sid].lastAccepted);
    }
  }

  lemma MaxChains(start: real, head: seq<real>, mid: real, tail: seq<real>, end: real)
    requires IsMax(mid, start, head) && IsMax(end, mid, tail)
    ensures IsMax(end, start, head + tail)
  {
  }

  lemma FloorStep(s: Ledger, step: Step, sid: int)
    requires LedgerOk(s) && StepOk(step) && sid in s.schedules
    ensures sid in Next(s, step).schedules
    ensures IsMax(Next(s, step).schedules[sid].lastAccepted, s.schedules[sid].lastAccepted, ConfirmedFire(s, step, sid))
  {
    match step
    case Reap(p) => assert Next(s, step).schedules == s.schedules;
    case _ =>
  }

  // ---------------------------------------------------------------------
  // Queries over reachable tables
  // ---------------------------------------------------------------------

  function RowsIn(wakes: Wakes, state: LedgerState): set<nat> {
    set id | id in wakes && MatchesFilter(wakes[id], state)
  }

  /** The five state filters split every reachable table, as `ledger_state` does. */
  lemma FiltersPartition(s: Ledger, steps: seq<Step>, id: nat, state: LedgerState)
    requires LedgerOk(s) && StepsOk(steps) && id in Run(s, steps).wakes
    ensures id in RowsIn(Run(s, steps).wakes, state) <==> StateOf(Run(s, steps).wakes[id]) == state
  {
    RunSound(s, steps);
    FiltersAgreeIff(Run(s, steps).wakes[id]);
  }
}
