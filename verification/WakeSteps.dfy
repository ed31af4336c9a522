/**
 What each step of the wake ledger writes, field by field, and what it leaves alone.
 `WakeProtocol` proves what all steps keep; this module says which step does what.
 */
module WakeSteps {
  import opened Prelude
  import opened WakeRow
  import opened OutboxReaper
  import opened WakeProtocol

  /** Nothing but one row differs. */
  predicate OnlyRow(s: Ledger, t: Ledger, id: nat) {
    && t.nextId == s.nextId && t.nextSchedule == s.nextSchedule && t.schedules == s.schedules
    && id in s.wakes && t.wakes.Keys == s.wakes.Keys
    && forall k | k in s.wakes && k != id :: t.wakes[k] == s.wakes[k]
  }

  /** Same fire, same agent, same payload. */
  predicate SameFire(w: Wake, v: Wake) {
    v.scheduleId == w.scheduleId && v.agent == w.agent && v.name == w.name && v.prompt == w.prompt &&
    v.firedAt == w.firedAt && v.createdAt == w.createdAt
  }

  predicate SamePaste(w: Wake, v: Wake) {
    v.pastedAt == w.pastedAt && v.pastedSession == w.pastedSession && v.pastedPrompt == w.pastedPrompt
  }

  /** The first failure time is kept; a row without one gets the new one. */
  predicate FailedFrom(w: Wake, v: Wake, stamp: real) {
    v.failedAt == if w.failedAt != 0.0 then w.failedAt else stamp
  }

  predicate IsOwed(s: Ledger, id: nat) {
    id in s.wakes && (StateOf(s.wakes[id]) == Pending || StateOf(s.wakes[id]) == DrainParked)
  }

  predicate IsPending(s: Ledger, id: nat) { id in s.wakes && StateOf(s.wakes[id]) == Pending }

  /** The severity order of the states: owed, quarantined, abandoned, receipted. */
  lemma RankMeans(w: Wake)
    requires RowOk(w)
    ensures Rank(w) == match StateOf(w)
                       case Pending => 0
                       case DrainParked => 0
                       case Quarantined => 1
                       case Abandoned => 2
                       case Receipted => 3
  {
  }

  lemma GuardsByState(s: Ledger, id: nat)
    requires LedgerOk(s)
    ensures CanRetire(s.wakes, id) <==> IsOwed(s, id)
    ensures CanTouch(s.wakes, id) <==> IsPending(s, id)
  {
  }

  lemma Park(s: Ledger, id: nat, stamp: real, reason: string)
    requires LedgerOk(s) && stamp > 0.0
    ensures var t := Next(s, Step.Park(id, stamp, reason));
            if IsOwed(s, id) then
              var w, v := s.wakes[id], t.wakes[id];
              && OnlyRow(s, t, id) && SameFire(w, v) && SamePaste(w, v) && FailedFrom(w, v, stamp)
              && StateOf(v) == Quarantined && v.parkedAt == stamp && v.lastError == reason
              && v.attempts == w.attempts && v.releasedAt == w.releasedAt
            else t == s
  {
    GuardsByState(s, id);
  }

  lemma Abandon(s: Ledger, id: nat, stamp: real, reason: string)
    requires LedgerOk(s) && stamp > 0.0
    ensures var t := Next(s, Step.Abandon(id, stamp, reason));
            if IsOwed(s, id) then
              var w, v := s.wakes[id], t.wakes[id];
              && OnlyRow(s, t, id) && SameFire(w, v) && SamePaste(w, v) && FailedFrom(w, v, stamp)
              && StateOf(v) == Abandoned && v.abandonedAt == stamp && v.lastError == reason
              && v.attempts == w.attempts && v.releasedAt == w.releasedAt
            else t == s
  {
    GuardsByState(s, id);
  }

  lemma DrainPark(s: Ledger, id: nat, stamp: real, reason: string)
    requires LedgerOk(s) && stamp > 0.0
    ensures var t := Next(s, Step.DrainPark(id, stamp, reason));
            if IsPending(s, id) then
              var w, v := s.wakes[id], t.wakes[id];
              && OnlyRow(s, t, id) && SameFire(w, v) && SamePaste(w, v) && FailedFrom(w, v, stamp)
              && StateOf(v) == DrainParked && v.drainParkedAt == stamp && v.lastError == reason
              && v.attempts == w.attempts && v.releasedAt == 0.0
            else t == s
  {
    GuardsByState(s, id);
  }

  /** A discard is a quarantine at the clock with a fixed reason; it records no failure. */
  lemma Discard(s: Ledger, id: nat, scope: Option<string>, clock: real)
    requires LedgerOk(s) && clock > 0.0
    ensures var t := Next(s, Step.Discard(id, scope, clock));
            if IsOwed(s, id) && (scope.None? || scope.value == s.wakes[id].agent) then
              var w, v := s.wakes[id], t.wakes[id];
              && OnlyRow(s, t, id) && SameFire(w, v) && SamePaste(w, v) && v.failedAt == w.failedAt
              && StateOf(v) == Quarantined && v.parkedAt == clock && v.lastError == "retired via discard"
              && v.attempts == w.attempts && v.releasedAt == w.releasedAt
            else t == s
  {
    GuardsByState(s, id);
  }

  lemma Delete(s: Ledger, id: nat)
    requires LedgerOk(s)
    ensures var t := Next(s, Step.Delete(id));
            if IsPending(s, id) then
              && t.wakes.Keys == s.wakes.Keys - {id} && (forall k | k in t.wakes :: t.wakes[k] == s.wakes[k])
              && t.nextId == s.nextId && t.schedules == s.schedules && t.nextSchedule == s.nextSchedule
            else t == s
  {
    GuardsByState(s, id);
  }

  lemma Attempt(s: Ledger, id: nat)
    requires LedgerOk(s)
    ensures var t := Next(s, Step.Attempt(id));
            if IsPending(s, id) then
              && OnlyRow(s, t, id) && t.wakes[id].attempts == s.wakes[id].attempts + 1
              && t.wakes[id].(attempts := s.wakes[id].attempts) == s.wakes[id]
            else t == s
  {
    GuardsByState(s, id);
  }

  /** The row of an exact fire, if there is one. */
  predicate RowOf(s: Ledger, id: nat, sid: int, firedAt: real) {
    id in s.wakes && s.wakes[id].scheduleId == sid && s.wakes[id].firedAt == firedAt
  }

  lemma Fail(s: Ledger, id: nat, sid: int, firedAt: real, reason: string, clock: real)
    requires LedgerOk(s) && clock > 0.0 && RowOf(s, id, sid, firedAt)
    ensures var t := Next(s, Step.Fail(sid, firedAt, reason, clock));
            if IsPending(s, id) then
              var w, v := s.wakes[id], t.wakes[id];
              && OnlyRow(s, t, id) && SameFire(w, v) && SamePaste(w, v) && FailedFrom(w, v, clock)
              && StateOf(v) == Pending && v.lastError == reason
              && v.attempts == w.attempts && v.releasedAt == w.releasedAt
            else t == s
  {
    GuardsByState(s, id);
    FireIsRow(s, id, sid, firedAt);
    hide LedgerOk;
  }

  lemma FireIsRow(s: Ledger, id: nat, sid: int, firedAt: real)
    requires LedgerOk(s) && RowOf(s, id, sid, firedAt)
    ensures HasFire(s.wakes, sid, firedAt) && FireId(s.wakes, sid, firedAt) == id
  {
    assert IsFire(s.wakes[id], sid, firedAt);
  }

  lemma Paste(s: Ledger, id: nat, sid: int, firedAt: real, pastedAt: real, session: string, pasted: string)
    requires LedgerOk(s) && RowOf(s, id, sid, firedAt)
    ensures var t := Next(s, Step.Paste(sid, firedAt, pastedAt, session, pasted));
            if IsPending(s, id) && s.wakes[id].pastedAt == 0.0 then
              var w, v := s.wakes[id], t.wakes[id];
              && OnlyRow(s, t, id) && SameFire(w, v) && StateOf(v) == Pending
              && v.pastedAt == pastedAt && v.pastedSession == session && v.pastedPrompt == pasted
              && v.attempts == w.attempts && v.failedAt == w.failedAt && v.lastError == w.lastError
              && v.releasedAt == w.releasedAt
            else t == s
  {
    GuardsByState(s, id);
    assert forall k | k in s.wakes && k != id :: !IsFire(s.wakes[k], sid, firedAt);
  }

  /** Without a row of the fire, a paste and a failure report change nothing. */
  lemma NoRowNoEffect(s: Ledger, sid: int, firedAt: real,
                      pastedAt: real, session: string, pasted: string, reason: string, clock: real)
    requires forall id | id in s.wakes :: !RowOf(s, id, sid, firedAt)
    ensures Next(s, Step.Paste(sid, firedAt, pastedAt, session, pasted)) == s
    ensures Next(s, Step.Fail(sid, firedAt, reason, clock)) == s
  {
  }

  /** A release frees exactly the agent's drain-parked rows; their retry evidence stays. */
  lemma Release(s: Ledger, agent: string, clock: real)
    requires LedgerOk(s) && clock > 0.0
    ensures var t := Next(s, Step.Release(agent, clock));
            && t.wakes.Keys == s.wakes.Keys && t.schedules == s.schedules
            && t.nextId == s.nextId && t.nextSchedule == s.nextSchedule
            && forall k | k in s.wakes ::
                 var w, v := s.wakes[k], t.wakes[k];
                 if w.agent == agent && StateOf(w) == DrainParked then
                   && SameFire(w, v) && SamePaste(w, v) && StateOf(v) == Pending && v.releasedAt == clock
                   && v.attempts == w.attempts && v.failedAt == w.failedAt && v.lastError == w.lastError
                 else v == w
  {
  }

  /** A new row: this fire, this payload, pending, never tried, pasted or failed. */
  predicate IsNewRow(v: Wake, sid: int, at: real, agent: string, name: string, prompt: string, clock: real) {
    && v.scheduleId == sid && v.firedAt == at && v.agent == agent && v.name == name && v.prompt == prompt
    && v.createdAt == clock && StateOf(v) == Pending && v.attempts == 0 && v.pastedAt == 0.0 && v.failedAt == 0.0
    && v.releasedAt == 0.0 && v.lastError == "" && v.pastedSession == "" && v.pastedPrompt == ""
  }

  predicate OneRowMore(s: Ledger, t: Ledger) {
    && s.nextId !in s.wakes && t.nextId == s.nextId + 1 && t.nextSchedule == s.nextSchedule
    && t.wakes.Keys == s.wakes.Keys + {s.nextId} && forall k | k in s.wakes :: t.wakes[k] == s.wakes[k]
  }

  ghost predicate FireKnown(s: Ledger, sid: int, at: real) {
    exists id :: id in s.wakes && RowOf(s, id, sid, at)
  }

  lemma Persist(s: Ledger, sid: int, at: real, agent: string, name: string, prompt: string, clock: real)
    requires LedgerOk(s) && at > 0.0 && clock > 0.0
    ensures var t := Next(s, Step.Persist(sid, at, agent, name, prompt, clock));
            if FireKnown(s, sid, at) then t == s
            else OneRowMore(s, t) && t.schedules == s.schedules &&
                 IsNewRow(t.wakes[s.nextId], sid, at, agent, name, prompt, clock)
  {
    KnownIff(s, sid, at);
  }

  lemma KnownIff(s: Ledger, sid: int, at: real)
    ensures FireKnown(s, sid, at) <==> HasFire(s.wakes, sid, at)
  {
    if FireKnown(s, sid, at) {
      var id :| id in s.wakes && RowOf(s, id, sid, at);
      assert IsFire(s.wakes[id], sid, at);
    }
    if HasFire(s.wakes, sid, at) {
      var id :| id in s.wakes && IsFire(s.wakes[id], sid, at);
      assert RowOf(s, id, sid, at);
    }
  }

  /** One schedule's `last_run`, and nothing else of any schedule. */
  predicate OnlyLastRun(s: Ledger, t: Ledger, sid: int, at: real) {
    && sid in s.schedules && t.schedules.Keys == s.schedules.Keys
    && (forall k | k in s.schedules && k != sid :: t.schedules[k] == s.schedules[k])
    && t.schedules[sid].lastRun == at && t.schedules[sid].agent == s.schedules[sid].agent
    && t.schedules[sid].lastDelivered == s.schedules[sid].lastDelivered
    && t.schedules[sid].lastAccepted == s.schedules[sid].lastAccepted
  }

  lemma Claim(s: Ledger, sid: int, at: real, expected: real, agent: string, name: string, prompt: string, clock: real)
    requires LedgerOk(s) && at > 0.0 && clock > 0.0
    ensures var t := Next(s, Step.Claim(sid, at, expected, agent, name, prompt, clock));
            if sid in s.schedules && s.schedules[sid].lastRun == expected then
              && OnlyLastRun(s, t, sid, at)
              && if FireKnown(s, sid, at) then t.wakes == s.wakes && t.nextId == s.nextId
                 else OneRowMore(s, t) && IsNewRow(t.wakes[s.nextId], sid, at, agent, name, prompt, clock)
            else t == s
  {
    KnownIff(s, sid, at);
  }

  lemma Ran(s: Ledger, sid: int, at: real, onlyIf: Option<real>)
    ensures var t := Next(s, Step.Ran(sid, at, onlyIf));
            if sid in s.schedules && (onlyIf.None? || s.schedules[sid].lastRun == onlyIf.value) then
              OnlyLastRun(s, t, sid, at) && t.wakes == s.wakes && t.nextId == s.nextId
            else t == s
  {
  }

  lemma AddSchedule(s: Ledger, agent: string)
    requires LedgerOk(s)
    ensures var t := Next(s, Step.AddSchedule(agent));
            && s.nextSchedule !in s.schedules && t.nextSchedule == s.nextSchedule + 1 && t.wakes == s.wakes
            && t.schedules == s.schedules[s.nextSchedule := Schedule(agent, 0.0, 0.0, 0.0)] && t.nextId == s.nextId
  {
  }

  /** What a confirm writes into its own row and schedule. What it does to the agent's
      other rows is `WakeRuns.ConfirmReleasesAgent`. */
  lemma Confirm(s: Ledger, id: nat, stamp: real)
    requires LedgerOk(s) && id in s.wakes && stamp > 0.0
    ensures var t := Next(s, Step.Confirm(id, stamp));
            var w, v := s.wakes[id], t.wakes[id];
            && SameFire(w, v) && SamePaste(w, v) && StateOf(v) == Receipted && v.lastError == ""
            && v.acceptedAt == (if w.acceptedAt > 0.0 then w.acceptedAt else stamp)
            && v.attempts == w.attempts && v.failedAt == w.failedAt
            && t.schedules.Keys == s.schedules.Keys
            && (forall k | k in s.schedules && k != w.scheduleId :: t.schedules[k] == s.schedules[k])
            && (w.scheduleId in s.schedules ==>
                  var a, b := s.schedules[w.scheduleId], t.schedules[w.scheduleId];
                  && b.agent == a.agent && b.lastRun == a.lastRun
                  && b.lastDelivered >= stamp && b.lastDelivered >= a.lastDelivered
                  && (b.lastDelivered == stamp || b.lastDelivered == a.lastDelivered)
                  && b.lastAccepted >= w.firedAt && b.lastAccepted >= a.lastAccepted
                  && (b.lastAccepted == w.firedAt || b.lastAccepted == a.lastAccepted))
  {
  }

  /** A confirmation without a ledger row: the delivery time is set, the floor only rises. */
  lemma ConfirmLedgerless(s: Ledger, sid: int, accepted: real, stamp: real)
    requires LedgerOk(s)
    ensures var t := Next(s, Step.ConfirmLedgerless(sid, accepted, stamp));
            if sid in s.schedules then
              var a, b := s.schedules[sid], t.schedules[sid];
              && t.wakes == s.wakes && t.schedules.Keys == s.schedules.Keys
              && (forall k | k in s.schedules && k != sid :: t.schedules[k] == s.schedules[k])
              && b.agent == a.agent && b.lastRun == a.lastRun && b.lastDelivered == stamp
              && b.lastAccepted == (if accepted > a.lastAccepted then accepted else a.lastAccepted)
            else t == s
  {
  }
}
