/**
 One row of the exact-fire wake ledger (`pending_schedule_wakes`) and the ways
 the registry classifies it. Stamps are reals; 0.0 means "not set", as in the
 table's column defaults. The row id is the key of the table that holds the row.
 */
module WakeRow {

  datatype Wake = Wake(
    scheduleId: int, agent: string, name: string, prompt: string,
    firedAt: real, createdAt: real, attempts: nat,
    parkedAt: real, acceptedAt: real, failedAt: real, lastError: string,
    abandonedAt: real, drainParkedAt: real, releasedAt: real,
    pastedAt: real, pastedSession: string, pastedPrompt: string)

  datatype LedgerState = Pending | Receipted | Quarantined | Abandoned | DrainParked

  /** A row as INSERT leaves it. */
  function NewWake(scheduleId: int, agent: string, name: string, prompt: string,
                   firedAt: real, createdAt: real): Wake
  {
    Wake(scheduleId, agent, name, prompt, firedAt, createdAt, 0,
         0.0, 0.0, 0.0, "", 0.0, 0.0, 0.0, 0.0, "", "")
  }

  /** No terminal marker: the row is still owed work, drain-parked or not. */
  predicate Owed(w: Wake) {
    w.acceptedAt == 0.0 && w.parkedAt == 0.0 && w.abandonedAt == 0.0
  }

  /** The guard most steps share: active, with no marker at all. */
  predicate Active(w: Wake) {
    Owed(w) && w.drainParkedAt == 0.0
  }

  predicate NonNegativeStamps(w: Wake) {
    w.parkedAt >= 0.0 && w.acceptedAt >= 0.0 && w.failedAt >= 0.0 &&
    w.abandonedAt >= 0.0 && w.drainParkedAt >= 0.0 && w.releasedAt >= 0.0
  }

  /** At most one of the four outcome markers is set. */
  predicate Exclusive(w: Wake) {
    && (w.acceptedAt > 0.0 ==> w.parkedAt == 0.0 && w.abandonedAt == 0.0 && w.drainParkedAt == 0.0)
    && (w.parkedAt > 0.0 ==> w.abandonedAt == 0.0 && w.drainParkedAt == 0.0)
    && (w.abandonedAt > 0.0 ==> w.drainParkedAt == 0.0)
  }

  /** Severity of the outcome; it never falls during a row's life. */
  function Rank(w: Wake): nat {
    if w.acceptedAt > 0.0 then 3
    else if w.abandonedAt > 0.0 then 2
    else if w.parkedAt > 0.0 then 1
    else 0
  }

  /** `PendingScheduleWake.ledger_state`. */
  function StateOf(w: Wake): LedgerState {
    if w.acceptedAt > 0.0 then Receipted
    else if w.abandonedAt > 0.0 then Abandoned
    else if w.parkedAt > 0.0 then Quarantined
    else if w.drainParkedAt > 0.0 then DrainParked
    else Pending
  }

  /** The WHERE clause `list_schedule_wake_ledger` builds for one state. */
  predicate MatchesFilter(w: Wake, state: LedgerState) {
    match state
    case Pending =>
      w.acceptedAt == 0.0 && w.parkedAt == 0.0 && w.abandonedAt == 0.0 && w.drainParkedAt == 0.0
    case Receipted => w.acceptedAt > 0.0
    case Quarantined => w.acceptedAt == 0.0 && w.parkedAt > 0.0 && w.abandonedAt == 0.0
    case Abandoned => w.acceptedAt == 0.0 && w.parkedAt == 0.0 && w.abandonedAt > 0.0
    case DrainParked =>
      w.acceptedAt == 0.0 && w.parkedAt == 0.0 && w.abandonedAt == 0.0 && w.drainParkedAt > 0.0
  }

  /** The filters agree with `ledger_state` on exactly the rows that are not
      quarantined and abandoned at once; such a row would fall through all five. */
  lemma FiltersAgreeIff(w: Wake)
    requires NonNegativeStamps(w)
    ensures (forall state :: MatchesFilter(w, state) <==> StateOf(w) == state)
            <==> !(w.acceptedAt == 0.0 && w.parkedAt > 0.0 && w.abandonedAt > 0.0)
  {
    if w.acceptedAt == 0.0 && w.parkedAt > 0.0 && w.abandonedAt > 0.0 {
      assert !MatchesFilter(w, Abandoned) && StateOf(w) == Abandoned;
    }
  }
}
