/**
 The registry itself: a mutable table of wake rows and one of schedules. Every
 committed method of the source is one method here, proved to take exactly one
 step of `WakeProtocol.Next`; what those steps promise together is proved there
 and in `WakeRuns`.
 */
module AgentRegistry {
  import opened Prelude
  import opened FiniteSets
  import opened WakeRow
  import opened OutboxReaper
  import opened ReaperTheorems
  import opened ReaperOutcomes
  import opened WakeProtocol

  /** Per-agent counters of one reaper pass. */
  datatype Metrics = Metrics(
    abandoned: nat, acceptedReaped: nat, abandonedReaped: nat,
    parkedReaped: nat, trimmed: nat, retainedActive: nat)

  const NO_METRICS := Metrics(0, 0, 0, 0, 0, 0)

  datatype Counter = Touched(phase: Phase) | RetainedActive

  function Get(c: Counter, m: Metrics): nat {
    match c
    case Touched(AbandonPhase) => m.abandoned
    case Touched(AcceptedReap) => m.acceptedReaped
    case Touched(AbandonedReap) => m.abandonedReaped
    case Touched(ParkedReap) => m.parkedReaped
    case Touched(PayloadTrim) => m.trimmed
    case RetainedActive => m.retainedActive
  }

  function Bumped(c: Counter, m: Metrics): Metrics {
    match c
    case Touched(AbandonPhase) => m.(abandoned := m.abandoned + 1)
    case Touched(AcceptedReap) => m.(acceptedReaped := m.acceptedReaped + 1)
    case Touched(AbandonedReap) => m.(abandonedReaped := m.abandonedReaped + 1)
    case Touched(ParkedReap) => m.(parkedReaped := m.parkedReaped + 1)
    case Touched(PayloadTrim) => m.(trimmed := m.trimmed + 1)
    case RetainedActive => m.(retainedActive := m.retainedActive + 1)
  }

  type MetricsTable = map<string, Metrics>

  /** A counter, zero for an agent with no entry yet. */
  function CountOf(c: Counter, metrics: MetricsTable, agent: string): nat {
    if agent in metrics then Get(c, metrics[agent]) else 0
  }

  /** One returned row bumps one counter of one agent and nothing else. */
  function Bump(c: Counter, metrics: MetricsTable, agent: string): (bumped: MetricsTable)
    ensures forall d: Counter, a ::
              CountOf(d, bumped, a) == CountOf(d, metrics, a) + (if d == c && a == agent then 1 else 0)
  {
    metrics[agent := Bumped(c, if agent in metrics then metrics[agent] else NO_METRICS)]
  }

  function DrainParkedIds(wakes: Wakes, agent: string): set<nat> {
    set id | id in wakes && DrainParkedBy(wakes[id], agent)
  }

  function ActiveIds(wakes: Wakes): set<nat> {
    set id | id in wakes && Active(wakes[id])
  }

  /** Explicit stamp, or the clock when the caller passed 0.0. */
  function Stamp(explicit: real, clock: real): (stamp: real)
    ensures stamp == explicit || (explicit == 0.0 && stamp == clock)
    ensures explicit == 0.0 ==> stamp == clock
  {
    if explicit == 0.0 then clock else explicit
  }

  /** ORDER BY id ASC LIMIT n. */
  method LowestIds(ids: set<nat>, n: nat) returns (batch: set<nat>)
    ensures batch <= ids
    ensures |batch| == if |ids| < n then |ids| else n
    ensures forall x, y | x in batch && y in ids - batch :: x < y
  {
    batch := {};
    var rest := ids;
    while |batch| < n && rest != {}
      invariant batch <= ids && rest == ids - batch
      invariant |batch| <= n
      invariant forall x, y | x in batch && y in rest :: x < y
      decreases rest
    {
      var least := Least(rest);
      batch := batch + {least};
      rest := rest - {least};
    }
    if rest == {} { assert batch == ids; } else { SubsetSmaller(batch, ids); }
  }

  class AgentRegistry {
    var wakes: Wakes
    var nextId: nat
    var schedules: map<int, Schedule>
    var nextSchedule: nat

    function Table(): Ledger
      reads this
    {
      Ledger(wakes, nextId, schedules, nextSchedule)
    }

    /** The database constraints and the protocol invariant. */
    ghost predicate Valid()
      reads this
    {
      LedgerOk(Table())
    }

    constructor ()
      ensures Valid()
      ensures Table() == Ledger(map[], 0, map[], 0)
    {
      wakes, nextId, schedules, nextSchedule := map[], 0, map[], 0;
    }

    method AddSchedule(agent: string) returns (scheduleId: nat)
      requires Valid()
      modifies this
      ensures Valid()
      ensures scheduleId == old(nextSchedule) && scheduleId !in old(schedules)
      ensures Table() == NewSchedule(old(Table()), agent)
    {
      NewScheduleForward(Table(), agent);
      scheduleId := nextSchedule;
      schedules := schedules[nextSchedule := Schedule(agent, 0.0, 0.0, 0.0)];
      nextSchedule := nextSchedule + 1;
    }

    /** `_select_schedule_wake_by_fire`. */
    method SelectByFire(scheduleId: int, firedAt: real) returns (found: Option<nat>)
      requires Valid()
      ensures found.Some? <==> HasFire(wakes, scheduleId, firedAt)
      ensures found.Some? ==> found.value == FireId(wakes, scheduleId, firedAt)
    {
      if id :| id in wakes && IsFire(wakes[id], scheduleId, firedAt) {
        found := Some(id);
      } else {
        found := None;
      }
    }

    /** `claim_schedule_fire`: compare-and-swap on last_run plus the outbox row,
        in one transaction. */
    method ClaimScheduleFire(scheduleId: int, timestamp: real, expectedLastRun: real,
                             agent: string, name: string, prompt: string, clock: real)
      returns (r: Result<Option<nat>>)
      requires Valid() && clock > 0.0
      modifies this
      ensures Valid()
      ensures r.Err? <==> timestamp <= 0.0
      ensures r.Err? ==> Table() == old(Table())
      ensures r.Ok? ==>
                Table() == ClaimFire(old(Table()), scheduleId, timestamp, expectedLastRun, agent, name, prompt, clock)
      ensures r.Ok? ==> (r.value.Some? <==>
                old(scheduleId in schedules) && old(schedules[scheduleId].lastRun) == expectedLastRun)
      ensures r.Ok? && r.value.Some? ==>
                r.value.value in wakes && IsFire(wakes[r.value.value], scheduleId, timestamp)
    {
      if timestamp <= 0.0 {
        return Err("timestamp must be a positive exact-fire timestamp");
      }
      ClaimForward(Table(), scheduleId, timestamp, expectedLastRun, agent, name, prompt, clock);
      if !(scheduleId in schedules && schedules[scheduleId].lastRun == expectedLastRun) {
        return Ok(None);
      }
      var found := SelectByFire(scheduleId, timestamp);
      schedules := schedules[scheduleId := schedules[scheduleId].(lastRun := timestamp)];
      if found.None? {
        wakes := wakes[nextId := NewWake(scheduleId, agent, name, prompt, timestamp, clock)];
        found := Some(nextId);
        nextId := nextId + 1;
      }
      r := Ok(found);
    }

    /** `update_schedule_last_run`: with or without a compare-and-swap. */
    method UpdateScheduleLastRun(scheduleId: int, timestamp: real, expected: Option<real>, clock: real)
      returns (ok: bool)
      requires Valid()
      modifies this`schedules
      ensures Valid()
      ensures Table() == RanAt(old(Table()), scheduleId, Stamp(timestamp, clock), expected)
      ensures ok <==> RanWins(old(Table()), scheduleId, expected)
    {
      RanForward(Table(), scheduleId, Stamp(timestamp, clock), expected);
      ok := scheduleId in schedules && (expected.None? || schedules[scheduleId].lastRun == expected.value);
      if ok {
        schedules := schedules[scheduleId := schedules[scheduleId].(lastRun := Stamp(timestamp, clock))];
      }
    }

    /** `persist_schedule_wake`: INSERT OR IGNORE on the exact-fire key. */
    method PersistScheduleWake(scheduleId: int, agent: string, name: string, prompt: string, firedAt: real, clock: real)
      returns (r: Result<(nat, bool)>)
      requires Valid() && clock > 0.0
      modifies this
      ensures Valid()
      ensures r.Err? <==> firedAt <= 0.0
      ensures r.Err? ==> Table() == old(Table())
      ensures r.Ok? ==> Table() == PersistFire(old(Table()), scheduleId, firedAt, agent, name, prompt, clock)
      ensures r.Ok? ==> r.value.0 in wakes && IsFire(wakes[r.value.0], scheduleId, firedAt)
      ensures r.Ok? ==> (r.value.1 <==> !old(HasFire(wakes, scheduleId, firedAt)))
    {
      if firedAt <= 0.0 {
        return Err("fired_at must be a positive exact-fire timestamp");
      }
      PersistForward(Table(), scheduleId, firedAt, agent, name, prompt, clock);
      var found := SelectByFire(scheduleId, firedAt);
      if found.Some? {
        return Ok((found.value, false));
      }
      wakes := wakes[nextId := NewWake(scheduleId, agent, name, prompt, firedAt, clock)];
      nextId := nextId + 1;
      r := Ok((nextId - 1, true));
    }

    /** `mark_schedule_wake_pasted`. */
    method MarkScheduleWakePasted(scheduleId: int, firedAt: real, pastedAt: real, session: string, pasted: string)
      returns (ok: bool)
      requires Valid()
      modifies this`wakes
      ensures Valid()
      ensures Table() == MarkPasted(old(Table()), scheduleId, firedAt, pastedAt, session, pasted)
      ensures ok <==>
              exists id :: id in old(wakes) && IsFire(old(wakes)[id], scheduleId, firedAt) && CanPaste(old(wakes)[id])
    {
      PasteForward(Table(), scheduleId, firedAt, pastedAt, session, pasted);
      var found := SelectByFire(scheduleId, firedAt);
      ok := found.Some? && CanPaste(wakes[found.value]);
      if ok {
        var w := wakes[found.value];
        wakes := wakes[found.value := w.(pastedAt := pastedAt, pastedSession := session, pastedPrompt := pasted)];
      }
      assert wakes == MarkPasted(old(Table()), scheduleId, firedAt, pastedAt, session, pasted).wakes;
    }

    /** `record_schedule_wake_failure`: a hint, unless terminal evidence exists. */
    method RecordScheduleWakeFailure(scheduleId: int, firedAt: real, reason: string, clock: real)
      returns (row: Option<nat>, first: bool)
      requires Valid() && clock > 0.0
      modifies this`wakes
      ensures Valid()
      ensures Table() == RecordFailure(old(Table()), scheduleId, firedAt, reason, clock)
      ensures row.Some? <==> HasFire(wakes, scheduleId, firedAt)
      ensures row.Some? ==> row.value in wakes && IsFire(wakes[row.value], scheduleId, firedAt)
      ensures first <==> row.Some? && Active(old(wakes)[row.value]) && old(wakes)[row.value].failedAt == 0.0
    {
      FailForward(Table(), scheduleId, firedAt, reason, clock);
      row := SelectByFire(scheduleId, firedAt);
      first := false;
      if row.Some? && Active(wakes[row.value]) {
        var w := wakes[row.value];
        first := w.failedAt == 0.0;
        wakes := wakes[row.value := w.(failedAt := if w.failedAt == 0.0 then clock else w.failedAt,
                                       lastError := reason)];
        assert IsFire(wakes[row.value], scheduleId, firedAt);
      }
    }

    /** `increment_pending_schedule_wake_attempts`. */
    method IncrementAttempts(id: nat) returns (attempts: Option<nat>)
      requires Valid()
      modifies this`wakes
      ensures Valid()
      ensures Table() == CountAttempt(old(Table()), id)
      ensures attempts.Some? <==> CanTouch(old(wakes), id)
      ensures attempts.Some? ==> attempts.value == old(wakes)[id].attempts + 1
    {
      AttemptForward(Table(), id);
      if id in wakes && Active(wakes[id]) {
        wakes := wakes[id := wakes[id].(attempts := wakes[id].attempts + 1)];
        attempts := Some(wakes[id].attempts);
      } else {
        attempts := None;
      }
    }

    /** `park_pending_schedule_wake`; `collapse_pending_schedule_wake` is the same
        statement with the superseding fire spelled out in the reason. */
    method ParkPendingScheduleWake(id: nat, parkedAt: real, reason: string, clock: real) returns (ok: bool)
      requires Valid() && clock > 0.0
      modifies this`wakes
      ensures parkedAt >= 0.0 ==> Valid()
      ensures Table() == ParkWake(old(Table()), id, Stamp(parkedAt, clock), reason)
      ensures ok <==> CanRetire(old(wakes), id)
    {
      var stamp := Stamp(parkedAt, clock);
      if stamp > 0.0 { ParkForward(Table(), id, stamp, reason); }
      ok := id in wakes && Owed(wakes[id]);
      if ok {
        var w := wakes[id];
        wakes := wakes[id := w.(parkedAt := stamp, drainParkedAt := 0.0,
                                failedAt := if w.failedAt == 0.0 then stamp else w.failedAt, lastError := reason)];
      }
    }

    /** `drain_park_pending_schedule_wake`: recoverable, so it needs a fully active row. */
    method DrainParkPendingScheduleWake(id: nat, drainParkedAt: real, reason: string, clock: real) returns (ok: bool)
      requires Valid() && clock > 0.0
      modifies this`wakes
      ensures drainParkedAt >= 0.0 ==> Valid()
      ensures Table() == DrainParkWake(old(Table()), id, Stamp(drainParkedAt, clock), reason)
      ensures ok <==> CanTouch(old(wakes), id)
    {
      var stamp := Stamp(drainParkedAt, clock);
      if stamp > 0.0 { DrainParkForward(Table(), id, stamp, reason); }
      ok := id in wakes && Active(wakes[id]);
      if ok {
        var w := wakes[id];
        wakes := wakes[id := w.(drainParkedAt := stamp, releasedAt := 0.0,
                                failedAt := if w.failedAt == 0.0 then stamp else w.failedAt, lastError := reason)];
      }
    }

    /** `release_drain_parked_schedule_wakes`. */
    method ReleaseDrainParked(agent: string, clock: real) returns (released: nat)
      requires Valid() && clock > 0.0
      modifies this`wakes
      ensures Valid()
      ensures Table() == ReleaseAgent(old(Table()), agent, clock)
      ensures released == |DrainParkedIds(old(wakes), agent)|
    {
      ReleaseForward(Table(), agent, clock);
      released := ReleaseLocked(agent, clock);
    }

    /** `_release_drain_parked_locked`: one UPDATE ... RETURNING, row by row. */
    method ReleaseLocked(agent: string, stamp: real) returns (released: nat)
      modifies this`wakes
      ensures wakes == Released(old(wakes), agent, stamp)
      ensures released == |DrainParkedIds(old(wakes), agent)|
    {
      var todo := DrainParkedIds(wakes, agent);
      released := |todo|;
      while todo != {}
        invariant todo <= old(wakes).Keys && released == |DrainParkedIds(old(wakes), agent)|
        invariant wakes.Keys == old(wakes).Keys
        invariant forall id | id in todo :: wakes[id] == old(wakes)[id] && DrainParkedBy(wakes[id], agent)
        invariant forall id | id in wakes && id !in todo :: wakes[id] == Released(old(wakes), agent, stamp)[id]
        decreases todo
      {
        var id :| id in todo;
        wakes := wakes[id := wakes[id].(drainParkedAt := 0.0, releasedAt := stamp)];
        todo := todo - {id};
      }
    }

    /** `abandon_pending_schedule_wake`. */
    method AbandonPendingScheduleWake(id: nat, abandonedAt: real, reason: string, clock: real) returns (ok: bool)
      requires Valid() && clock > 0.0
      modifies this`wakes
      ensures abandonedAt >= 0.0 ==> Valid()
      ensures Table() == AbandonWake(old(Table()), id, Stamp(abandonedAt, clock), reason)
      ensures ok <==> CanRetire(old(wakes), id)
    {
      var stamp := Stamp(abandonedAt, clock);
      if stamp > 0.0 { AbandonForward(Table(), id, stamp, reason); }
      ok := id in wakes && Owed(wakes[id]);
      if ok {
        var w := wakes[id];
        wakes := wakes[id := w.(abandonedAt := stamp, drainParkedAt := 0.0,
                                failedAt := if w.failedAt == 0.0 then stamp else w.failedAt, lastError := reason)];
      }
    }

    /** The three statements both confirm methods share. */
    method ConfirmRow(id: nat, stamp: real)
      requires id in wakes
      modifies this`wakes, this`schedules
      ensures Table() == Confirmed(old(Table()), id, stamp)
    {
      var w := wakes[id];
      if w.scheduleId in schedules {
        var s := schedules[w.scheduleId];
        schedules := schedules[w.scheduleId := s.(
          lastDelivered := Max(s.lastDelivered, stamp), lastAccepted := Max(s.lastAccepted, w.firedAt))];
      }
      wakes := wakes[id := w.(acceptedAt := if w.acceptedAt == 0.0 then stamp else w.acceptedAt,
                              parkedAt := 0.0, abandonedAt := 0.0, drainParkedAt := 0.0, lastError := "")];
      var _ := ReleaseLocked(w.agent, stamp);
    }

    /** `confirm_pending_schedule_wake`. */
    method ConfirmPendingScheduleWake(id: nat, deliveredAt: real, clock: real) returns (ok: bool)
      requires Valid() && clock > 0.0
      modifies this`wakes, this`schedules
      ensures deliveredAt >= 0.0 ==> Valid()
      ensures ok <==> id in old(wakes)
      ensures Table() == ConfirmById(old(Table()), id, Stamp(deliveredAt, clock))
    {
      if deliveredAt >= 0.0 { ConfirmByIdForward(Table(), id, Stamp(deliveredAt, clock)); }
      ok := id in wakes;
      if ok { ConfirmRow(id, Stamp(deliveredAt, clock)); }
    }

    /** `confirm_pending_schedule_wake_by_fire`. */
    method ConfirmPendingScheduleWakeByFire(scheduleId: int, firedAt: real, deliveredAt: real, clock: real)
      returns (ok: bool)
      requires Valid() && clock > 0.0
      modifies this`wakes, this`schedules
      ensures deliveredAt >= 0.0 ==> Valid()
      ensures ok <==> HasFire(old(wakes), scheduleId, firedAt)
      ensures Table() == ConfirmFire(old(Table()), scheduleId, firedAt, Stamp(deliveredAt, clock))
    {
      if deliveredAt >= 0.0 { ConfirmFireForward(Table(), scheduleId, firedAt, Stamp(deliveredAt, clock)); }
      var found := SelectByFire(scheduleId, firedAt);
      ok := found.Some?;
      if ok { ConfirmRow(found.value, Stamp(deliveredAt, clock)); }
    }

    /** `update_schedule_last_delivered`: a confirmation with no ledger row. */
    method UpdateScheduleLastDelivered(scheduleId: int, timestamp: real, acceptedFiredAt: real, clock: real)
      requires Valid() && clock > 0.0
      modifies this`schedules
      ensures Valid()
      ensures Table() == ConfirmUnledgered(old(Table()), scheduleId, acceptedFiredAt, Stamp(timestamp, clock))
    {
      UnledgeredForward(Table(), scheduleId, acceptedFiredAt, Stamp(timestamp, clock));
      if scheduleId in schedules {
        var s := schedules[scheduleId];
        var floor := if acceptedFiredAt > 0.0 then acceptedFiredAt else 0.0;
        schedules := schedules[scheduleId := s.(
          lastDelivered := Stamp(timestamp, clock),
          lastAccepted := if floor > s.lastAccepted then floor else s.lastAccepted)];
      }
    }

    /** `discard_pending_schedule_wake`: tombstone, scoped to one agent if asked. */
    method DiscardPendingScheduleWake(id: nat, scope: Option<string>, clock: real) returns (ok: bool)
      requires Valid() && clock > 0.0
      modifies this`wakes
      ensures Valid()
      ensures Table() == DiscardWake(old(Table()), id, scope, clock)
      ensures ok <==> CanDiscard(old(wakes), id, scope)
    {
      DiscardForward(Table(), id, scope, clock);
      ok := id in wakes && Owed(wakes[id]) && (scope.None? || wakes[id].agent == scope.value);
      if ok {
        wakes := wakes[id := wakes[id].(parkedAt := clock, drainParkedAt := 0.0, lastError := DISCARD_REASON)];
      }
    }

    /** `delete_pending_schedule_wake`. */
    method DeletePendingScheduleWake(id: nat) returns (ok: bool)
      requires Valid()
      modifies this`wakes
      ensures Valid()
      ensures Table() == DeleteWake(old(Table()), id)
      ensures ok <==> CanTouch(old(wakes), id)
    {
      ok := id in wakes && Active(wakes[id]);
      DeleteForward(Table(), id);
      if ok { wakes := wakes - {id}; }
    }

    // -------------------------------------------------------------------
    // Outbox reaper
    // -------------------------------------------------------------------

    /** `reap_pending_schedule_wakes`: five phases in order under the lock. The
        result is independent of the batch size, and the metrics are exact. */
    method ReapPendingScheduleWakes(p: Windows, batchSize: int) returns (r: Result<MetricsTable>)
      requires Valid()
      modifies this`wakes
      ensures Valid()
      ensures r.Err? <==> p.now <= 0.0 || p.abandonAfter <= 0.0 || p.retainAccepted <= 0.0 ||
                          p.retainAbandoned <= 0.0 || p.retainParked <= 0.0 || p.trimAfter <= 0.0 || batchSize <= 0
      ensures r.Err? ==> Table() == old(Table())
      ensures r.Ok? ==> Table() == ReapLedger(old(Table()), p)
      ensures r.Ok? ==> ExactMetrics(p, old(wakes), r.value) && TellsOutcome(p, old(wakes), r.value)
    {
      if !ValidWindows(p) {
        return Err("outbox reaper now and windows must be positive");
      }
      if batchSize <= 0 {
        return Err("outbox reaper batch_size must be positive");
      }
      ReapForward(Table(), p);
      ghost var before := Table();
      var metrics := RunPhases(p, batchSize);
      MetricsTellOutcome(before, p, metrics);
      r := Ok(metrics);
    }

    method RunPhases(p: Windows, batchSize: nat) returns (metrics: MetricsTable)
      requires ValidWindows(p) && batchSize >= 1
      modifies this`wakes
      ensures wakes == ReapPass(p, old(wakes))
      ensures ExactMetrics(p, old(wakes), metrics)
    {
      hide PhaseCount, OneShot, OfAgent, CountOf;
      metrics := ZeroMetrics(Agents(wakes));
      metrics := ApplyBatched(AbandonPhase, p, batchSize, metrics);
      metrics := ApplyBatched(AcceptedReap, p, batchSize, metrics);
      metrics := ApplyBatched(AbandonedReap, p, batchSize, metrics);
      metrics := ApplyBatched(ParkedReap, p, batchSize, metrics);
      metrics := ApplyBatched(PayloadTrim, p, batchSize, metrics);
      metrics := CountRows(RetainedActive, wakes, ActiveIds(wakes), metrics);
    }

    /** `_apply_batched`: the LIMIT-ed statement, repeated until a short batch. For
        every batch size it terminates and does what the unlimited statement does. */
    method ApplyBatched(ph: Phase, p: Windows, batchSize: nat, metrics: MetricsTable) returns (counted: MetricsTable)
      requires ValidWindows(p) && batchSize >= 1
      modifies this`wakes
      ensures wakes == OneShot(ph, p, old(wakes))
      ensures forall d: Counter, agent ::
                CountOf(d, counted, agent) ==
                CountOf(d, metrics, agent) + (if d == Touched(ph) then PhaseCount(ph, p, old(wakes), agent) else 0)
    {
      hide Candidate, Effect, OfAgent, CountOf;
      ghost var table := wakes;
      ghost var all := Candidates(ph, p, table);
      ghost var done: set<nat> := {};
      counted := metrics;
      NoRowsYet(table);
      while true
        invariant done <= all && wakes == Applied(ph, p, table, done)
        invariant forall d: Counter, agent ::
                    CountOf(d, counted, agent) ==
                    CountOf(d, metrics, agent) + (if d == Touched(ph) then |OfAgent(table, done, agent)| else 0)
        decreases all - done
      {
        BatchShrinksCandidates(ph, p, table, done);
        var standing := Candidates(ph, p, wakes);
        var batch := LowestIds(standing, batchSize);
        counted := CountRows(Touched(ph), wakes, batch, counted);
        BatchesCompose(ph, p, table, done, batch);
        OutsideBatch(ph, p, table, done);
        BatchCounts(table, wakes, done, batch);
        wakes := Applied(ph, p, wakes, batch);
        done := done + batch;
        if |batch| < batchSize {
          SubsetSmaller(batch, standing);
          assert done == all;
          return;
        }
      }
    }
  }

  // ---------------------------------------------------------------------
  // Counting the rows the reaper returns
  // ---------------------------------------------------------------------

  lemma OneMoreRow(table: Wakes, ids: set<nat>, id: nat)
    requires id in table && id !in ids
    ensures forall agent ::
              |OfAgent(table, ids + {id}, agent)| ==
              |OfAgent(table, ids, agent)| + (if agent == table[id].agent then 1 else 0)
  {
    forall agent
      ensures |OfAgent(table, ids + {id}, agent)| ==
              |OfAgent(table, ids, agent)| + (if agent == table[id].agent then 1 else 0)
    {
      assert OfAgent(table, ids + {id}, agent) ==
             OfAgent(table, ids, agent) + (if agent == table[id].agent then {id} else {});
    }
  }

  lemma NoRowsYet(table: Wakes)
    ensures forall agent :: |OfAgent(table, {}, agent)| == 0
  {
  }

  /** Counts rows into the per-agent metrics, as the RETURNING rows are read. */
  method CountRows(c: Counter, table: Wakes, ids: set<nat>, metrics: MetricsTable) returns (counted: MetricsTable)
    requires ids <= table.Keys
    ensures forall d: Counter, agent ::
              CountOf(d, counted, agent) ==
              CountOf(d, metrics, agent) + (if d == c then |OfAgent(table, ids, agent)| else 0)
  {
    counted := metrics;
    var todo := ids;
    ghost var done: set<nat> := {};
    NoRowsYet(table);
    while todo != {}
      invariant todo <= ids && done == ids - todo
      invariant forall d: Counter, agent ::
                  CountOf(d, counted, agent) ==
                  CountOf(d, metrics, agent) + (if d == c then |OfAgent(table, done, agent)| else 0)
      decreases todo
    {
      var id :| id in todo;
      counted := Bump(c, counted, table[id].agent);
      OneMoreRow(table, done, id);
      done := done + {id};
      todo := todo - {id};
    }
    assert done == ids;
  }

  /** Rows outside a batch are left as they were. */
  lemma OutsideBatch(ph: Phase, p: Windows, table: Wakes, done: set<nat>)
    ensures forall id | id in table && id !in done ::
              id in Applied(ph, p, table, done) && Applied(ph, p, table, done)[id] == table[id]
  {
  }

  /** Counting a second batch in the swept table counts it in the first table. */
  lemma BatchCounts(table: Wakes, swept: Wakes, done: set<nat>, batch: set<nat>)
    requires done !! batch
    requires forall id | id in batch :: id in table && id in swept && swept[id] == table[id]
    ensures forall agent ::
              |OfAgent(table, done + batch, agent)| == |OfAgent(table, done, agent)| + |OfAgent(swept, batch, agent)|
  {
    forall agent
      ensures |OfAgent(table, done + batch, agent)| == |OfAgent(table, done, agent)| + |OfAgent(swept, batch, agent)|
    {
      assert OfAgent(swept, batch, agent) == OfAgent(table, batch, agent);
      assert OfAgent(table, done + batch, agent) == OfAgent(table, done, agent) + OfAgent(swept, batch, agent);
    }
  }

  /** What the reaper reports for one agent. */
  ghost predicate ExactMetrics(p: Windows, before: Wakes, metrics: MetricsTable) {
    forall agent ::
      && CountOf(Touched(AbandonPhase), metrics, agent) == PhaseCount(AbandonPhase, p, before, agent)
      && CountOf(Touched(AcceptedReap), metrics, agent) == PhaseCount(AcceptedReap, p, AfterAbandon(p, before), agent)
      && CountOf(Touched(AbandonedReap), metrics, agent) ==
         PhaseCount(AbandonedReap, p, AfterAccepted(p, before), agent)
      && CountOf(Touched(ParkedReap), metrics, agent) == PhaseCount(ParkedReap, p, AfterTerminal(p, before), agent)
      && CountOf(Touched(PayloadTrim), metrics, agent) == PhaseCount(PayloadTrim, p, AfterParked(p, before), agent)
      && CountOf(RetainedActive, metrics, agent) ==
         |OfAgent(ReapPass(p, before), ActiveIds(ReapPass(p, before)), agent)|
  }

  function EntryOf(metrics: MetricsTable, agent: string): Metrics {
    if agent in metrics then metrics[agent] else NO_METRICS
  }

  function StillPending(p: Windows, wakes: Wakes, agent: string): set<nat> {
    set id | id in ReapPass(p, wakes) && ReapPass(p, wakes)[id].agent == agent &&
             StateOf(ReapPass(p, wakes)[id]) == Pending
  }

  /** The reported fields, told by what happened to the rows. */
  ghost predicate TellsOutcome(p: Windows, before: Wakes, metrics: MetricsTable) {
    forall agent ::
      var m := EntryOf(metrics, agent);
      && m.abandoned == |NewlyAbandoned(p, before, agent)|
      && m.acceptedReaped == |GoneOf(p, before, agent, Receipted)|
      && m.abandonedReaped == |GoneOf(p, before, agent, Abandoned) + GoneDiscards(p, before, agent)|
      && m.parkedReaped == |GoneOf(p, before, agent, Quarantined) - GoneDiscards(p, before, agent)|
      && m.trimmed == |NewlyTrimmed(p, before, agent)|
      && m.retainedActive == |StillPending(p, before, agent)|
  }

  lemma MetricsTellOutcome(s: Ledger, p: Windows, metrics: MetricsTable)
    requires LedgerOk(s) && ValidWindows(p) && ExactMetrics(p, s.wakes, metrics)
    ensures TellsOutcome(p, s.wakes, metrics)
  {
    forall agent
      ensures var m := EntryOf(metrics, agent);
              && m.abandoned == |NewlyAbandoned(p, s.wakes, agent)|
              && m.acceptedReaped == |GoneOf(p, s.wakes, agent, Receipted)|
              && m.abandonedReaped == |GoneOf(p, s.wakes, agent, Abandoned) + GoneDiscards(p, s.wakes, agent)|
              && m.parkedReaped == |GoneOf(p, s.wakes, agent, Quarantined) - GoneDiscards(p, s.wakes, agent)|
              && m.trimmed == |NewlyTrimmed(p, s.wakes, agent)|
              && m.retainedActive == |StillPending(p, s.wakes, agent)|
    {
      hide PhaseCount, GoneOf, GoneDiscards, NewlyAbandoned, NewlyTrimmed, OfAgent, StillPending, ReapPass,
           LegacyMarker;
      AbandonedCount(p, s.wakes, agent);
      AcceptedCount(p, s.wakes, agent);
      TerminalCount(p, s.wakes, agent);
      ParkedCount(p, s.wakes, agent);
      TrimmedCount(p, s.wakes, agent);
      PendingCount(s, p, agent);
    }
  }

  lemma PendingCount(s: Ledger, p: Windows, agent: string)
    requires LedgerOk(s) && ValidWindows(p)
    ensures OfAgent(ReapPass(p, s.wakes), ActiveIds(ReapPass(p, s.wakes)), agent) == StillPending(p, s.wakes, agent)
  {
    ReapForward(s, p);
    hide ReapPass;
  }

  /** The agent scan: every agent with a row gets an entry. */
  function Agents(table: Wakes): set<string> {
    set id | id in table :: table[id].agent
  }

  function ZeroMetrics(agents: set<string>): (metrics: MetricsTable)
    ensures forall d: Counter, agent :: CountOf(d, metrics, agent) == 0
  {
    map agent | agent in agents :: NO_METRICS
  }
}
