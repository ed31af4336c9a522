/**
 The wake ledger as a state machine. Each step is one committed method of the
 registry; callers hold stale ids and may take the steps in any order, so the
 guards below are the whole protocol.
 */
module WakeProtocol {
  import opened Prelude
  import opened WakeRow
  import opened OutboxReaper

  datatype Schedule = Schedule(agent: string, lastRun: real, lastDelivered: real, lastAccepted: real)

  /** `nextId` and `nextSchedule` are the AUTOINCREMENT counters. */
  datatype Ledger = Ledger(wakes: Wakes, nextId: nat, schedules: map<int, Schedule>, nextSchedule: nat)

  datatype Step =
    | AddSchedule(agent: string)
    | Claim(scheduleId: int, at: real, expectedLastRun: real, agent: string, name: string, prompt: string, clock: real)
    | Ran(scheduleId: int, at: real, onlyIf: Option<real>)
    | Persist(scheduleId: int, at: real, agent: string, name: string, prompt: string, clock: real)
    | Paste(scheduleId: int, firedAt: real, pastedAt: real, session: string, pasted: string)
    | Fail(scheduleId: int, firedAt: real, reason: string, clock: real)
    | Attempt(id: nat)
    | Park(id: nat, stamp: real, reason: string)
    | DrainPark(id: nat, stamp: real, reason: string)
    | Release(agent: string, clock: real)
    | Abandon(id: nat, stamp: real, reason: string)
    | Confirm(id: nat, stamp: real)
    | ConfirmByFire(scheduleId: int, firedAt: real, stamp: real)
    | ConfirmLedgerless(scheduleId: int, accepted: real, stamp: real)
    | Discard(id: nat, scope: Option<string>, clock: real)
    | Delete(id: nat)
    | Reap(windows: Windows)

  /** What the registry checks or takes from the clock: fire times are positive
      (ValueError otherwise), stamps come from a positive clock or caller. */
  predicate StepOk(step: Step) {
    match step
    case Claim(_, at, _, _, _, _, clock) => at > 0.0 && clock > 0.0
    case Persist(_, at, _, _, _, clock) => at > 0.0 && clock > 0.0
    case Fail(_, _, _, clock) => clock > 0.0
    case Park(_, stamp, _) => stamp > 0.0
    case DrainPark(_, stamp, _) => stamp > 0.0
    case Release(_, clock) => clock > 0.0
    case Abandon(_, stamp, _) => stamp > 0.0
    case Confirm(_, stamp) => stamp > 0.0
    case ConfirmByFire(_, _, stamp) => stamp > 0.0
    case Discard(_, _, clock) => clock > 0.0
    case Reap(windows) => ValidWindows(windows)
    case _ => true
  }

  // ---------------------------------------------------------------------
  // Row-level effects
  // ---------------------------------------------------------------------

  predicate IsFire(w: Wake, scheduleId: int, firedAt: real) {
    w.scheduleId == scheduleId && w.firedAt == firedAt
  }

  predicate HasFire(wakes: Wakes, scheduleId: int, firedAt: real) {
    exists id :: id in wakes && IsFire(wakes[id], scheduleId, firedAt)
  }

  /** `_select_schedule_wake_by_fire`: the UNIQUE key makes the choice unique. */
  ghost function FireId(wakes: Wakes, scheduleId: int, firedAt: real): (id: nat)
    requires HasFire(wakes, scheduleId, firedAt)
    ensures id in wakes && IsFire(wakes[id], scheduleId, firedAt)
  {
    var id :| id in wakes && IsFire(wakes[id], scheduleId, firedAt);
    id
  }

  function FirstFailure(w: Wake, stamp: real): real {
    if w.failedAt == 0.0 then stamp else w.failedAt
  }

  /** A terminal step may take the row: still owed, drain-parked or not. */
  predicate CanRetire(wakes: Wakes, id: nat) {
    id in wakes && Owed(wakes[id])
  }

  predicate CanTouch(wakes: Wakes, id: nat) {
    id in wakes && Active(wakes[id])
  }

  predicate CanPaste(w: Wake) {
    w.pastedAt == 0.0 && Active(w)
  }

  function Accepted(w: Wake, stamp: real): Wake {
    w.(acceptedAt := if w.acceptedAt == 0.0 then stamp else w.acceptedAt,
       parkedAt := 0.0, abandonedAt := 0.0, drainParkedAt := 0.0, lastError := "")
  }

  predicate DrainParkedBy(w: Wake, agent: string) {
    w.agent == agent && w.drainParkedAt > 0.0 && Owed(w)
  }

  function Released(wakes: Wakes, agent: string, stamp: real): Wakes {
    map id | id in wakes ::
      if DrainParkedBy(wakes[id], agent) then wakes[id].(drainParkedAt := 0.0, releasedAt := stamp) else wakes[id]
  }

  function Inserted(s: Ledger, w: Wake): Ledger {
    s.(wakes := s.wakes[s.nextId := w], nextId := s.nextId + 1)
  }

  function Delivered(s: Schedule, stamp: real, firedAt: real): Schedule {
    s.(lastDelivered := Max(s.lastDelivered, stamp), lastAccepted := Max(s.lastAccepted, firedAt))
  }

  /** Both confirm transitions, once the row is found. */
  function Confirmed(s: Ledger, id: nat, stamp: real): Ledger
    requires id in s.wakes
  {
    var w := s.wakes[id];
    var schedules := if w.scheduleId in s.schedules
                     then s.schedules[w.scheduleId := Delivered(s.schedules[w.scheduleId], stamp, w.firedAt)]
                     else s.schedules;
    s.(wakes := Released(s.wakes[id := Accepted(w, stamp)], w.agent, stamp), schedules := schedules)
  }

  // ---------------------------------------------------------------------
  // One function per committed method
  // ---------------------------------------------------------------------

  function SetRow(s: Ledger, id: nat, w: Wake): Ledger {
    s.(wakes := s.wakes[id := w])
  }

  function NewSchedule(s: Ledger, agent: string): Ledger {
    s.(schedules := s.schedules[s.nextSchedule := Schedule(agent, 0.0, 0.0, 0.0)], nextSchedule := s.nextSchedule + 1)
  }

  ghost function PersistFire(s: Ledger, sid: int, at: real,
                             agent: string, name: string, prompt: string, clock: real): Ledger
  {
    if HasFire(s.wakes, sid, at) then s else Inserted(s, NewWake(sid, agent, name, prompt, at, clock))
  }

  predicate ClaimWins(s: Ledger, sid: int, expected: real) {
    sid in s.schedules && s.schedules[sid].lastRun == expected
  }

  ghost function ClaimFire(s: Ledger, sid: int, at: real, expected: real,
                           agent: string, name: string, prompt: string, clock: real): Ledger
  {
    if ClaimWins(s, sid, expected) then
      var ran := s.(schedules := s.schedules[sid := s.schedules[sid].(lastRun := at)]);
      PersistFire(ran, sid, at, agent, name, prompt, clock)
    else s
  }

  predicate RanWins(s: Ledger, sid: int, expected: Option<real>) {
    sid in s.schedules && (expected.Some? ==> s.schedules[sid].lastRun == expected.value)
  }

  function RanAt(s: Ledger, sid: int, at: real, expected: Option<real>): Ledger {
    if RanWins(s, sid, expected) then s.(schedules := s.schedules[sid := s.schedules[sid].(lastRun := at)]) else s
  }

  function MarkPasted(s: Ledger, sid: int, firedAt: real, pastedAt: real, session: string, pasted: string): Ledger {
    s.(wakes := map id | id in s.wakes ::
         if IsFire(s.wakes[id], sid, firedAt) && CanPaste(s.wakes[id])
         then s.wakes[id].(pastedAt := pastedAt, pastedSession := session, pastedPrompt := pasted)
         else s.wakes[id])
  }

  ghost function RecordFailure(s: Ledger, sid: int, firedAt: real, reason: string, clock: real): Ledger {
    if HasFire(s.wakes, sid, firedAt) && Active(s.wakes[FireId(s.wakes, sid, firedAt)]) then
      var id := FireId(s.wakes, sid, firedAt);
      SetRow(s, id, s.wakes[id].(failedAt := FirstFailure(s.wakes[id], clock), lastError := reason))
    else s
  }

  function CountAttempt(s: Ledger, id: nat): Ledger {
    if CanTouch(s.wakes, id) then SetRow(s, id, s.wakes[id].(attempts := s.wakes[id].attempts + 1)) else s
  }

  function ParkWake(s: Ledger, id: nat, stamp: real, reason: string): Ledger {
    if CanRetire(s.wakes, id) then
      SetRow(s, id, s.wakes[id].(parkedAt := stamp, drainParkedAt := 0.0,
               failedAt := FirstFailure(s.wakes[id], stamp), lastError := reason))
    else s
  }

  function DrainParkWake(s: Ledger, id: nat, stamp: real, reason: string): Ledger {
    if CanTouch(s.wakes, id) then
      SetRow(s, id, s.wakes[id].(drainParkedAt := stamp, releasedAt := 0.0,
               failedAt := FirstFailure(s.wakes[id], stamp), lastError := reason))
    else s
  }

  function ReleaseAgent(s: Ledger, agent: string, clock: real): Ledger {
    s.(wakes := Released(s.wakes, agent, clock))
  }

  function AbandonWake(s: Ledger, id: nat, stamp: real, reason: string): Ledger {
    if CanRetire(s.wakes, id) then
      SetRow(s, id, s.wakes[id].(abandonedAt := stamp, drainParkedAt := 0.0,
               failedAt := FirstFailure(s.wakes[id], stamp), lastError := reason))
    else s
  }

  function ConfirmById(s: Ledger, id: nat, stamp: real): Ledger {
    if id in s.wakes then Confirmed(s, id, stamp) else s
  }

  ghost function ConfirmFire(s: Ledger, sid: int, firedAt: real, stamp: real): Ledger {
    if HasFire(s.wakes, sid, firedAt) then Confirmed(s, FireId(s.wakes, sid, firedAt), stamp) else s
  }

  function ConfirmUnledgered(s: Ledger, sid: int, accepted: real, stamp: real): Ledger {
    if sid in s.schedules then
      s.(schedules := s.schedules[sid := s.schedules[sid].(lastDelivered := stamp,
           lastAccepted := Max(s.schedules[sid].lastAccepted, Max(0.0, accepted)))])
    else s
  }

  predicate CanDiscard(wakes: Wakes, id: nat, scope: Option<string>) {
    CanRetire(wakes, id) && (scope.Some? ==> wakes[id].agent == scope.value)
  }

  function DiscardWake(s: Ledger, id: nat, scope: Option<string>, clock: real): Ledger {
    if CanDiscard(s.wakes, id, scope) then
      SetRow(s, id, s.wakes[id].(parkedAt := clock, drainParkedAt := 0.0, lastError := DISCARD_REASON))
    else s
  }

  function DeleteWake(s: Ledger, id: nat): Ledger {
    if CanTouch(s.wakes, id) then s.(wakes := s.wakes - {id}) else s
  }

  function ReapLedger(s: Ledger, windows: Windows): Ledger {
    s.(wakes := ReapPass(windows, s.wakes))
  }

  /** The transition function: one step of any caller. */
  ghost function Next(s: Ledger, step: Step): Ledger {
    match step
    case AddSchedule(agent) => NewSchedule(s, agent)
    case Claim(sid, at, expected, agent, name, prompt, clock) =>
      ClaimFire(s, sid, at, expected, agent, name, prompt, clock)
    case Ran(sid, at, expected) => RanAt(s, sid, at, expected)
    case Persist(sid, at, agent, name, prompt, clock) => PersistFire(s, sid, at, agent, name, prompt, clock)
    case Paste(sid, firedAt, pastedAt, session, pasted) => MarkPasted(s, sid, firedAt, pastedAt, session, pasted)
    case Fail(sid, firedAt, reason, clock) => RecordFailure(s, sid, firedAt, reason, clock)
    case Attempt(id) => CountAttempt(s, id)
    case Park(id, stamp, reason) => ParkWake(s, id, stamp, reason)
    case DrainPark(id, stamp, reason) => DrainParkWake(s, id, stamp, reason)
    case Release(agent, clock) => ReleaseAgent(s, agent, clock)
    case Abandon(id, stamp, reason) => AbandonWake(s, id, stamp, reason)
    case Confirm(id, stamp) => ConfirmById(s, id, stamp)
    case ConfirmByFire(sid, firedAt, stamp) => ConfirmFire(s, sid, firedAt, stamp)
    case ConfirmLedgerless(sid, accepted, stamp) => ConfirmUnledgered(s, sid, accepted, stamp)
    case Discard(id, scope, clock) => DiscardWake(s, id, scope, clock)
    case Delete(id) => DeleteWake(s, id)
    case Reap(windows) => ReapLedger(s, windows)
  }

  // ---------------------------------------------------------------------
  // Invariant and evolution relation
  // ---------------------------------------------------------------------

  predicate RowOk(w: Wake) {
    && NonNegativeStamps(w)
    && w.firedAt > 0.0
    && Exclusive(w)
    && (w.releasedAt > 0.0 ==> w.drainParkedAt == 0.0)
  }

  ghost predicate LedgerOk(s: Ledger) {
    && (forall id | id in s.wakes :: id < s.nextId && RowOk(s.wakes[id]))
    && (forall sid | sid in s.schedules :: sid < s.nextSchedule && s.schedules[sid].lastAccepted >= 0.0)
    && UniqueFires(s.wakes)
  }

  /** UNIQUE(schedule_id, fired_at). */
  ghost predicate UniqueFires(wakes: Wakes) {
    forall i, j | i in wakes && j in wakes &&
                  wakes[i].scheduleId == wakes[j].scheduleId && wakes[i].firedAt == wakes[j].firedAt ::
      i == j
  }

  /** What may become of one row while it lives. */
  predicate RowEvolves(w: Wake, v: Wake) {
    // identity is immutable
    && v.scheduleId == w.scheduleId && v.agent == w.agent && v.name == w.name
    && v.firedAt == w.firedAt && v.createdAt == w.createdAt
    // the outcome only gets more final
    && Rank(w) <= Rank(v)
    // write-once receipts
    && (w.acceptedAt != 0.0 ==> v.acceptedAt == w.acceptedAt)
    && (w.failedAt != 0.0 ==> v.failedAt == w.failedAt)
    && (w.pastedAt != 0.0 ==>
          v.pastedAt == w.pastedAt && v.pastedSession == w.pastedSession && v.pastedPrompt == w.pastedPrompt)
    && w.attempts <= v.attempts
    // the payload is kept until a terminal row is trimmed
    && (v.prompt == w.prompt || (v.prompt == PAYLOAD_TRIMMED && !Owed(v)))
    // a terminal row is never owed again
    && (!Owed(w) ==> !Owed(v))
  }

  /** What may become of the whole ledger: ids are never reused, so a row seen in
      both states is the same row, and rows not seen before are new. */
  ghost predicate Evolves(s: Ledger, t: Ledger) {
    && s.nextId <= t.nextId
    && (forall id | id in t.wakes :: if id in s.wakes then RowEvolves(s.wakes[id], t.wakes[id]) else id >= s.nextId)
    && (forall sid | sid in s.schedules ::
          sid in t.schedules && s.schedules[sid].lastAccepted <= t.schedules[sid].lastAccepted)
  }

  lemma PhaseKeepsRows(ph: Phase, p: Windows, wakes: Wakes, id: nat)
    requires ValidWindows(p)
    requires id in OneShot(ph, p, wakes) && RowOk(wakes[id])
    ensures RowOk(OneShot(ph, p, wakes)[id]) && RowEvolves(wakes[id], OneShot(ph, p, wakes)[id])
  {
  }

  lemma RowEvolvesTransitive(u: Wake, v: Wake, w: Wake)
    requires RowEvolves(u, v) && RowEvolves(v, w)
    ensures RowEvolves(u, w)
  {
  }

  lemma PassKeepsRow(p: Windows, wakes: Wakes, id: nat)
    requires ValidWindows(p)
    requires id in ReapPass(p, wakes)
    requires id in wakes ==> RowOk(wakes[id])
    ensures id in wakes
    ensures RowOk(ReapPass(p, wakes)[id]) && RowEvolves(wakes[id], ReapPass(p, wakes)[id])
  {
    var w1 := OneShot(AbandonPhase, p, wakes);
    var w2 := OneShot(AcceptedReap, p, w1);
    var w3 := OneShot(AbandonedReap, p, w2);
    var w4 := OneShot(ParkedReap, p, w3);
    assert id in w4 && id in w3 && id in w2 && id in w1 && id in wakes;
    PhaseKeepsRows(AbandonPhase, p, wakes, id);
    PhaseKeepsRows(AcceptedReap, p, w1, id);
    PhaseKeepsRows(AbandonedReap, p, w2, id);
    PhaseKeepsRows(ParkedReap, p, w3, id);
    PhaseKeepsRows(PayloadTrim, p, w4, id);
    RowEvolvesTransitive(wakes[id], w1[id], w2[id]);
    RowEvolvesTransitive(wakes[id], w2[id], w3[id]);
    RowEvolvesTransitive(wakes[id], w3[id], w4[id]);
    RowEvolvesTransitive(wakes[id], w4[id], ReapPass(p, wakes)[id]);
  }

  /** The next ledger is sound and reached by moving every row only forward. */
  ghost predicate Forward(s: Ledger, t: Ledger) {
    LedgerOk(t) && Evolves(s, t)
  }

  lemma ReapForward(s: Ledger, p: Windows)
    requires LedgerOk(s) && ValidWindows(p)
    ensures Forward(s, ReapLedger(s, p))
  {
    var after := ReapPass(p, s.wakes);
    forall id | id in after
      ensures id in s.wakes && RowOk(after[id]) && RowEvolves(s.wakes[id], after[id])
    {
      PassKeepsRow(p, s.wakes, id);
    }
    RewriteForward(s, ReapLedger(s, p));
  }

  /** Rewriting or dropping rows keeps the ledger sound when each rewrite does. */
  lemma RewriteForward(s: Ledger, t: Ledger)
    requires LedgerOk(s)
    requires t.nextId == s.nextId && t.nextSchedule == s.nextSchedule
    requires forall id | id in t.wakes :: id in s.wakes && RowOk(t.wakes[id]) && RowEvolves(s.wakes[id], t.wakes[id])
    requires t.schedules.Keys == s.schedules.Keys
    requires forall sid | sid in s.schedules :: s.schedules[sid].lastAccepted <= t.schedules[sid].lastAccepted
    ensures Forward(s, t)
  {
  }

  lemma SetRowForward(s: Ledger, id: nat, w: Wake)
    requires LedgerOk(s) && id in s.wakes && RowOk(w) && RowEvolves(s.wakes[id], w)
    ensures Forward(s, SetRow(s, id, w))
  {
  }

  lemma NoChangeForward(s: Ledger)
    requires LedgerOk(s)
    ensures Forward(s, s)
  {
  }

  lemma ConfirmedForward(s: Ledger, id: nat, stamp: real)
    requires LedgerOk(s) && id in s.wakes && stamp > 0.0
    ensures Forward(s, Confirmed(s, id, stamp))
  {
    RewriteForward(s, Confirmed(s, id, stamp));
  }

  lemma InsertForward(s: Ledger, w: Wake)
    requires LedgerOk(s) && RowOk(w) && !HasFire(s.wakes, w.scheduleId, w.firedAt)
    ensures Forward(s, Inserted(s, w))
  {
    var t := Inserted(s, w);
    forall i | i in s.wakes ensures !IsFire(s.wakes[i], w.scheduleId, w.firedAt) {}
    forall i | i in s.wakes ensures RowEvolves(s.wakes[i], t.wakes[i]) {}
  }

  lemma PersistForward(s: Ledger, sid: int, at: real, agent: string, name: string, prompt: string, clock: real)
    requires LedgerOk(s) && at > 0.0
    ensures Forward(s, PersistFire(s, sid, at, agent, name, prompt, clock))
  {
    if HasFire(s.wakes, sid, at) {
      NoChangeForward(s);
    } else {
      InsertForward(s, NewWake(sid, agent, name, prompt, at, clock));
    }
  }

  lemma ClaimForward(s: Ledger, sid: int, at: real, expected: real,
                     agent: string, name: string, prompt: string, clock: real)
    requires LedgerOk(s) && at > 0.0
    ensures Forward(s, ClaimFire(s, sid, at, expected, agent, name, prompt, clock))
  {
    if ClaimWins(s, sid, expected) {
      var ran := s.(schedules := s.schedules[sid := s.schedules[sid].(lastRun := at)]);
      RewriteForward(s, ran);
      PersistForward(ran, sid, at, agent, name, prompt, clock);
    } else {
      NoChangeForward(s);
    }
  }

  lemma RanForward(s: Ledger, sid: int, at: real, expected: Option<real>)
    requires LedgerOk(s)
    ensures Forward(s, RanAt(s, sid, at, expected))
  {
  }

  lemma PasteForward(s: Ledger, sid: int, firedAt: real, pastedAt: real, session: string, pasted: string)
    requires LedgerOk(s)
    ensures Forward(s, MarkPasted(s, sid, firedAt, pastedAt, session, pasted))
  {
    RewriteForward(s, MarkPasted(s, sid, firedAt, pastedAt, session, pasted));
  }

  lemma FailForward(s: Ledger, sid: int, firedAt: real, reason: string, clock: real)
    requires LedgerOk(s) && clock > 0.0
    ensures Forward(s, RecordFailure(s, sid, firedAt, reason, clock))
  {
    if HasFire(s.wakes, sid, firedAt) && Active(s.wakes[FireId(s.wakes, sid, firedAt)]) {
      var id := FireId(s.wakes, sid, firedAt);
      SetRowForward(s, id, RecordFailure(s, sid, firedAt, reason, clock).wakes[id]);
    } else {
      NoChangeForward(s);
    }
  }

  lemma AttemptForward(s: Ledger, id: nat)
    requires LedgerOk(s)
    ensures Forward(s, CountAttempt(s, id))
  {
    if CanTouch(s.wakes, id) { SetRowForward(s, id, CountAttempt(s, id).wakes[id]); } else { NoChangeForward(s); }
  }

  lemma ParkForward(s: Ledger, id: nat, stamp: real, reason: string)
    requires LedgerOk(s) && stamp > 0.0
    ensures Forward(s, ParkWake(s, id, stamp, reason))
  {
    if CanRetire(s.wakes, id) {
      SetRowForward(s, id, ParkWake(s, id, stamp, reason).wakes[id]);
    } else {
      NoChangeForward(s);
    }
  }

  lemma DrainParkForward(s: Ledger, id: nat, stamp: real, reason: string)
    requires LedgerOk(s) && stamp > 0.0
    ensures Forward(s, DrainParkWake(s, id, stamp, reason))
  {
    if CanTouch(s.wakes, id) {
      SetRowForward(s, id, DrainParkWake(s, id, stamp, reason).wakes[id]);
    } else {
      NoChangeForward(s);
    }
  }

  lemma ReleaseForward(s: Ledger, agent: string, clock: real)
    requires LedgerOk(s) && clock > 0.0
    ensures Forward(s, ReleaseAgent(s, agent, clock))
  {
    RewriteForward(s, ReleaseAgent(s, agent, clock));
  }

  lemma AbandonForward(s: Ledger, id: nat, stamp: real, reason: string)
    requires LedgerOk(s) && stamp > 0.0
    ensures Forward(s, AbandonWake(s, id, stamp, reason))
  {
    if CanRetire(s.wakes, id) {
      SetRowForward(s, id, AbandonWake(s, id, stamp, reason).wakes[id]);
    } else {
      NoChangeForward(s);
    }
  }

  lemma ConfirmFireForward(s: Ledger, sid: int, firedAt: real, stamp: real)
    requires LedgerOk(s) && stamp > 0.0
    ensures Forward(s, ConfirmFire(s, sid, firedAt, stamp))
  {
    if HasFire(s.wakes, sid, firedAt) {
      ConfirmedForward(s, FireId(s.wakes, sid, firedAt), stamp);
    } else {
      NoChangeForward(s);
    }
  }

  lemma ConfirmByIdForward(s: Ledger, id: nat, stamp: real)
    requires LedgerOk(s) && stamp > 0.0
    ensures Forward(s, ConfirmById(s, id, stamp))
  {
    if id in s.wakes { ConfirmedForward(s, id, stamp); } else { NoChangeForward(s); }
  }

  lemma UnledgeredForward(s: Ledger, sid: int, accepted: real, stamp: real)
    requires LedgerOk(s)
    ensures Forward(s, ConfirmUnledgered(s, sid, accepted, stamp))
  {
  }

  lemma DiscardForward(s: Ledger, id: nat, scope: Option<string>, clock: real)
    requires LedgerOk(s) && clock > 0.0
    ensures Forward(s, DiscardWake(s, id, scope, clock))
  {
    if CanDiscard(s.wakes, id, scope) {
      SetRowForward(s, id, DiscardWake(s, id, scope, clock).wakes[id]);
    } else {
      NoChangeForward(s);
    }
  }

  lemma DeleteForward(s: Ledger, id: nat)
    requires LedgerOk(s)
    ensures Forward(s, DeleteWake(s, id))
  {
  }

  lemma NewScheduleForward(s: Ledger, agent: string)
    requires LedgerOk(s)
    ensures Forward(s, NewSchedule(s, agent))
  {
  }

  /** Every step, whatever stale id it carries, keeps the invariant and moves
      every row only forward. */
  lemma StepSound(s: Ledger, step: Step)
    requires LedgerOk(s) && StepOk(step)
    ensures Forward(s, Next(s, step))
  {
    match step
    case AddSchedule(agent) => NewScheduleForward(s, agent);
    case Claim(sid, at, expected, agent, name, prompt, clock) =>
      ClaimForward(s, sid, at, expected, agent, name, prompt, clock);
    case Ran(sid, at, expected) => RanForward(s, sid, at, expected);
    case Persist(sid, at, agent, name, prompt, clock) => PersistForward(s, sid, at, agent, name, prompt, clock);
    case Paste(sid, firedAt, pastedAt, session, pasted) => PasteForward(s, sid, firedAt, pastedAt, session, pasted);
    case Fail(sid, firedAt, reason, clock) => FailForward(s, sid, firedAt, reason, clock);
    case Attempt(id) => AttemptForward(s, id);
    case Park(id, stamp, reason) => ParkForward(s, id, stamp, reason);
    case DrainPark(id, stamp, reason) => DrainParkForward(s, id, stamp, reason);
    case Release(agent, clock) => ReleaseForward(s, agent, clock);
    case Abandon(id, stamp, reason) => AbandonForward(s, id, stamp, reason);
    case Confirm(id, stamp) => ConfirmByIdForward(s, id, stamp);
    case ConfirmByFire(sid, firedAt, stamp) => ConfirmFireForward(s, sid, firedAt, stamp);
    case ConfirmLedgerless(sid, accepted, stamp) => UnledgeredForward(s, sid, accepted, stamp);
    case Discard(id, scope, clock) => DiscardForward(s, id, scope, clock);
    case Delete(id) => DeleteForward(s, id);
    case Reap(p) => ReapForward(s, p);
  }

  // ---------------------------------------------------------------------
  // Negative stamps
  // ---------------------------------------------------------------------

  /** A caller's negative stamp is written as given. It breaks the invariant exactly
      when it lands in a row. */
  lemma NegativeStampIff(s: Ledger, id: nat, stamp: real, reason: string)
    requires LedgerOk(s) && stamp != 0.0
    ensures LedgerOk(ParkWake(s, id, stamp, reason)) <==> (stamp > 0.0 || !CanRetire(s.wakes, id))
    ensures LedgerOk(AbandonWake(s, id, stamp, reason)) <==> (stamp > 0.0 || !CanRetire(s.wakes, id))
    ensures LedgerOk(DrainParkWake(s, id, stamp, reason)) <==> (stamp > 0.0 || !CanTouch(s.wakes, id))
  {
    if stamp > 0.0 {
      ParkForward(s, id, stamp, reason);
      AbandonForward(s, id, stamp, reason);
      DrainParkForward(s, id, stamp, reason);
    }
    if CanRetire(s.wakes, id) {
      assert ParkWake(s, id, stamp, reason).wakes[id].parkedAt == stamp;
      assert AbandonWake(s, id, stamp, reason).wakes[id].abandonedAt == stamp;
    }
    if CanTouch(s.wakes, id) {
      assert DrainParkWake(s, id, stamp, reason).wakes[id].drainParkedAt == stamp;
    }
  }

  /** The two confirms are one transition, whatever the stamp. */
  lemma ConfirmsAgree(s: Ledger, id: nat, stamp: real)
    requires LedgerOk(s) && id in s.wakes
    ensures ConfirmFire(s, s.wakes[id].scheduleId, s.wakes[id].firedAt, stamp) == ConfirmById(s, id, stamp)
  {
    var w := s.wakes[id];
    assert IsFire(s.wakes[id], w.scheduleId, w.firedAt);
    assert FireId(s.wakes, w.scheduleId, w.firedAt) == id;
  }

  lemma NegativeConfirmIff(s: Ledger, id: nat, stamp: real)
    requires LedgerOk(s) && stamp != 0.0 && id in s.wakes
    ensures LedgerOk(ConfirmById(s, id, stamp)) <==>
            (stamp > 0.0 ||
             (s.wakes[id].acceptedAt > 0.0 && forall k | k in s.wakes :: !DrainParkedBy(s.wakes[k], s.wakes[id].agent)))
    ensures LedgerOk(ConfirmFire(s, s.wakes[id].scheduleId, s.wakes[id].firedAt, stamp)) <==>
            LedgerOk(ConfirmById(s, id, stamp))
  {
    ConfirmsAgree(s, id, stamp);
    hide ConfirmFire;
    var t := ConfirmById(s, id, stamp);
    if stamp > 0.0 {
      ConfirmByIdForward(s, id, stamp);
    } else if s.wakes[id].acceptedAt == 0.0 {
      assert t.wakes[id].acceptedAt == stamp;
    } else if k :| k in s.wakes && DrainParkedBy(s.wakes[k], s.wakes[id].agent) {
      assert t.wakes[k].releasedAt == stamp;
    } else {
      assert t.wakes == s.wakes[id := Accepted(s.wakes[id], stamp)];
    }
  }

  /** A row parked at a negative time drops out of all five state filters. */
  lemma NegativeParkUnlisted(s: Ledger, id: nat, stamp: real, reason: string, state: LedgerState)
    requires CanRetire(s.wakes, id) && stamp < 0.0
    ensures !MatchesFilter(ParkWake(s, id, stamp, reason).wakes[id], state)
  {
  }
}
