/** The read side of the wake ledger: replay list, ledger listing, fleet health. */
module WakeQueries {
  import opened Prelude
  import opened FiniteSets
  import opened PyText
  import opened WakeRow
  import opened OutboxReaper
  import opened WakeProtocol

  /** ORDER BY fired_at ASC, id ASC. */
  predicate Before(wakes: Wakes, i: nat, j: nat)
    requires i in wakes && j in wakes
  {
    wakes[i].firedAt < wakes[j].firedAt || (wakes[i].firedAt == wakes[j].firedAt && i < j)
  }

  function InOrder(wakes: Wakes): (nat, nat) -> bool {
    (i, j) => i in wakes && j in wakes && Before(wakes, i, j)
  }

  predicate OldestFirst(wakes: Wakes, list: seq<nat>)
    requires forall k | 0 <= k < |list| :: list[k] in wakes
  {
    forall i, j | 0 <= i < j < |list| :: Before(wakes, list[i], list[j])
  }

  /** The sorted list of a set of rows, each row once. */
  method SortOldestFirst(wakes: Wakes, ids: set<nat>) returns (list: seq<nat>)
    requires ids <= wakes.Keys
    ensures forall id :: id in list <==> id in ids
    ensures OldestFirst(wakes, list)
    ensures |list| == |ids|
  {
    list := SortSet(ids, InOrder(wakes));
  }

  predicate InScope(w: Wake, agent: Option<string>) {
    agent.None? || w.agent == agent.value
  }

  /** WHERE clause of `list_pending_schedule_wakes`. */
  predicate Listed(w: Wake, agent: Option<string>, includeParked: bool) {
    InScope(w, agent) && w.acceptedAt == 0.0 &&
    (!includeParked ==> w.parkedAt == 0.0 && w.abandonedAt == 0.0 && w.drainParkedAt == 0.0)
  }

  function ListedIds(wakes: Wakes, agent: Option<string>, includeParked: bool): set<nat> {
    set id | id in wakes && Listed(wakes[id], agent, includeParked)
  }

  /** The default replay list is exactly the pending rows, oldest fire first;
      with `includeParked` it is every row without a receipt. */
  method ListPendingScheduleWakes(wakes: Wakes, agent: Option<string>, includeParked: bool) returns (list: seq<nat>)
    requires forall id | id in wakes :: RowOk(wakes[id])
    ensures forall id :: id in list <==>
              (id in wakes && InScope(wakes[id], agent) &&
               (if includeParked then StateOf(wakes[id]) != Receipted else StateOf(wakes[id]) == Pending))
    ensures OldestFirst(wakes, list)
    ensures forall i, j | 0 <= i < j < |list| :: list[i] in wakes && list[j] in wakes &&
              (wakes[list[i]].firedAt < wakes[list[j]].firedAt ||
               (wakes[list[i]].firedAt == wakes[list[j]].firedAt && list[i] < list[j]))
    ensures |list| == |ListedIds(wakes, agent, includeParked)|
  {
    var ids := ListedIds(wakes, agent, includeParked);
    list := SortOldestFirst(wakes, ids);
  }

  predicate InLedger(w: Wake, agent: Option<string>, state: Option<LedgerState>, firedAfter: real) {
    && InScope(w, agent)
    && (firedAfter > 0.0 ==> w.firedAt >= firedAfter)
    && (state.Some? ==> MatchesFilter(w, state.value))
  }

  function LedgerIds(wakes: Wakes, agent: Option<string>, state: Option<LedgerState>, firedAfter: real): set<nat> {
    set id | id in wakes && InLedger(wakes[id], agent, state, firedAfter)
  }

  /** What the listing selects from a table of sound rows, by ledger state. */
  lemma InLedgerByState(w: Wake, agent: Option<string>, state: Option<LedgerState>, firedAfter: real)
    requires RowOk(w)
    ensures InLedger(w, agent, state, firedAfter) <==>
            ((agent.None? || w.agent == agent.value) && (firedAfter <= 0.0 || w.firedAt >= firedAfter) &&
             (state.None? || StateOf(w) == state.value))
  {
    FiltersAgreeIff(w);
  }

  /** max(1, min(limit, 1000)). */
  function Clamp(limit: int): (n: nat)
    ensures 1 <= n <= 1000 && (1 <= limit <= 1000 ==> n == limit)
    ensures limit < 1 ==> n == 1
    ensures limit > 1000 ==> n == 1000
  {
    if limit < 1 then 1 else if limit > 1000 then 1000 else limit
  }

  /** `list_schedule_wake_ledger`: the newest matching rows, newest first. Every
      matching row left out is older than every row listed. */
  method ListScheduleWakeLedger(
      wakes: Wakes, agent: Option<string>, state: Option<LedgerState>, firedAfter: real, limit: int)
    returns (list: seq<nat>)
    ensures forall id | id in list :: id in wakes && InLedger(wakes[id], agent, state, firedAfter)
    ensures forall i, j | 0 <= i < j < |list| :: Before(wakes, list[j], list[i])
    ensures forall i, j | 0 <= i < j < |list| ::
              wakes[list[i]].firedAt > wakes[list[j]].firedAt ||
              (wakes[list[i]].firedAt == wakes[list[j]].firedAt && list[i] > list[j])
    ensures forall out, id | out in wakes && out !in list && id in list &&
                             InLedger(wakes[out], agent, state, firedAfter) ::
              Before(wakes, out, id)
    ensures var matching := |LedgerIds(wakes, agent, state, firedAfter)|;
            |list| == if matching < Clamp(limit) then matching else Clamp(limit)
  {
    var ids := LedgerIds(wakes, agent, state, firedAfter);
    var sorted := SortOldestFirst(wakes, ids);
    var n := if |sorted| < Clamp(limit) then |sorted| else Clamp(limit);
    list := [];
    while |list| < n
      invariant |list| <= n
      invariant forall k | 0 <= k < |list| :: list[k] == sorted[|sorted| - 1 - k]
    {
      list := list + [sorted[|sorted| - 1 - |list|]];
    }
    forall id | id in list ensures id in ids {
      var b :| 0 <= b < |list| && list[b] == id;
      assert sorted[|sorted| - 1 - b] in sorted;
    }
    forall k | |sorted| - n <= k < |sorted| ensures sorted[k] in list {
      assert list[|sorted| - 1 - k] == sorted[k];
    }
    forall out, id | out in ids && out !in list && id in list ensures Before(wakes, out, id) {
      assert out in sorted;
      var a :| 0 <= a < |sorted| && sorted[a] == out;
      var b :| 0 <= b < |list| && list[b] == id;
    }
  }

  datatype Health = Health(
    agent: string, count: nat, abandoned: nat, drainParked: nat, oldest: real, newest: real, oldestAge: real)

  /** The rows fleet health looks at: neither accepted nor quarantined. */
  function Unsettled(wakes: Wakes, agent: string): set<nat> {
    set id | id in wakes && wakes[id].agent == agent && wakes[id].acceptedAt == 0.0 && wakes[id].parkedAt == 0.0
  }

  function InState(wakes: Wakes, agent: string, state: LedgerState): set<nat> {
    set id | id in wakes && wakes[id].agent == agent && StateOf(wakes[id]) == state
  }

  /** The three CASE conditions of the health query. */
  predicate HealthCase(w: Wake, state: LedgerState) {
    match state
    case Pending => w.abandonedAt == 0.0 && w.drainParkedAt == 0.0
    case Abandoned => w.abandonedAt > 0.0
    case DrainParked => w.abandonedAt == 0.0 && w.drainParkedAt > 0.0
    case _ => false
  }

  function HealthRows(wakes: Wakes, agent: string, state: LedgerState): set<nat> {
    set id | id in Unsettled(wakes, agent) && HealthCase(wakes[id], state)
  }

  lemma HealthRowsByState(wakes: Wakes, agent: string, state: LedgerState)
    requires forall id | id in wakes :: RowOk(wakes[id])
    requires state.Pending? || state.Abandoned? || state.DrainParked?
    ensures HealthRows(wakes, agent, state) == InState(wakes, agent, state)
  {
  }

  lemma ThreeParts(all: set<nat>, a: set<nat>, b: set<nat>, c: set<nat>)
    requires forall id | id in all :: id in a || id in b || id in c
    requires a <= all && b <= all && c <= all
    requires forall id | id in all :: !(id in a && id in b) && !(id in a && id in c) && !(id in b && id in c)
    ensures |a| + |b| + |c| == |all|
  {
    assert all == a + b + c;
    assert |a + b| == |a| + |b|;
  }

  /** The health cases are the ledger states, and together they miss no unsettled row. */
  lemma HealthCoversUnsettled(wakes: Wakes, agent: string)
    requires forall id | id in wakes :: RowOk(wakes[id])
    ensures HealthRows(wakes, agent, Pending) == InState(wakes, agent, Pending)
    ensures HealthRows(wakes, agent, Abandoned) == InState(wakes, agent, Abandoned)
    ensures HealthRows(wakes, agent, DrainParked) == InState(wakes, agent, DrainParked)
    ensures |HealthRows(wakes, agent, Pending)| + |HealthRows(wakes, agent, Abandoned)| +
            |HealthRows(wakes, agent, DrainParked)| == |Unsettled(wakes, agent)|
  {
    HealthRowsByState(wakes, agent, Pending);
    HealthRowsByState(wakes, agent, Abandoned);
    HealthRowsByState(wakes, agent, DrainParked);
    hide InState, StateOf, Exclusive;
    ThreeParts(Unsettled(wakes, agent), HealthRows(wakes, agent, Pending),
               HealthRows(wakes, agent, Abandoned), HealthRows(wakes, agent, DrainParked));
  }

  /** The agents the query groups by: those with an unsettled row. */
  function HealthAgents(wakes: Wakes, agent: Option<string>): set<string> {
    set id | id in wakes && InScope(wakes[id], agent) && wakes[id].acceptedAt == 0.0 && wakes[id].parkedAt == 0.0 ::
      wakes[id].agent
  }

  /** One GROUP BY row: exact counts, attained bounds on the fire times, and the age of the oldest. */
  ghost predicate HealthOf(wakes: Wakes, now: real, h: Health) {
    var pending := InState(wakes, h.agent, Pending);
    && h.count == |pending|
    && h.abandoned == |InState(wakes, h.agent, Abandoned)|
    && h.drainParked == |InState(wakes, h.agent, DrainParked)|
    && h.count + h.abandoned + h.drainParked == |Unsettled(wakes, h.agent)|
    && (forall id | id in pending :: h.oldest <= wakes[id].firedAt <= h.newest)
    && (if pending == {} then h.oldest == h.newest == h.oldestAge == 0.0
        else (exists a, b | a in pending && b in pending ::
                wakes[a].firedAt == h.oldest && wakes[b].firedAt == h.newest)
             && h.oldestAge == Max(0.0, now - h.oldest))
  }

  /** The SUM, MIN and MAX aggregates of one agent. */
  method AgentHealth(wakes: Wakes, agent: string, now: real) returns (h: Health)
    requires forall id | id in wakes :: RowOk(wakes[id])
    ensures h.agent == agent && HealthOf(wakes, now, h)
    ensures forall id | id in InState(wakes, agent, Pending) :: h.oldestAge >= now - wakes[id].firedAt
  {
    HealthCoversUnsettled(wakes, agent);
    var active := HealthRows(wakes, agent, Pending);
    assert forall id | id in active :: wakes[id].firedAt > 0.0;
    hide RowOk, InState, HealthCase;
    var abandoned, parked := HealthRows(wakes, agent, Abandoned), HealthRows(wakes, agent, DrainParked);
    var byFire := SortOldestFirst(wakes, active);
    if byFire == [] {
      assert active == {} by { if id :| id in active { assert id in byFire; } }
      return Health(agent, 0, |abandoned|, |parked|, 0.0, 0.0, 0.0);
    }
    var first, last := byFire[0], byFire[|byFire| - 1];
    assert first in byFire && last in byFire;
    var age := if wakes[first].firedAt > 0.0 then Max(0.0, now - wakes[first].firedAt) else 0.0;
    h := Health(agent, |active|, |abandoned|, |parked|, wakes[first].firedAt, wakes[last].firedAt, age);
  }

  /** `get_pending_schedule_wake_health`: one row per agent with unsettled work, by name. */
  method GetHealth(wakes: Wakes, agent: Option<string>, now: real) returns (rows: seq<Health>)
    requires forall id | id in wakes :: RowOk(wakes[id])
    ensures forall a :: (exists k :: 0 <= k < |rows| && rows[k].agent == a) <==>
                        (agent.None? || agent == Some(a)) && Unsettled(wakes, a) != {}
    ensures forall i, j | 0 <= i < j < |rows| :: Less(rows[i].agent, rows[j].agent)
    ensures forall k | 0 <= k < |rows| :: HealthOf(wakes, now, rows[k])
  {
    var agents := HealthAgents(wakes, agent);
    var sorted := SortStrings(agents);
    hide HealthOf, RowOk, Unsettled, HealthAgents;
    rows := [];
    for i := 0 to |sorted|
      invariant |rows| == i
      invariant forall k | 0 <= k < i :: rows[k].agent == sorted[k] && HealthOf(wakes, now, rows[k])
    {
      var h := AgentHealth(wakes, sorted[i], now);
      rows := rows + [h];
    }
    RowAgents(rows, sorted);
    forall a ensures a in agents <==> (agent.None? || agent == Some(a)) && Unsettled(wakes, a) != {} {
      HealthAgentIff(wakes, agent, a);
    }
  }

  lemma RowAgents(rows: seq<Health>, agents: seq<string>)
    requires |rows| == |agents| && forall k | 0 <= k < |rows| :: rows[k].agent == agents[k]
    ensures forall a :: (exists k :: 0 <= k < |rows| && rows[k].agent == a) <==> a in agents
  {
    forall a | a in agents ensures exists k :: 0 <= k < |rows| && rows[k].agent == a {
      var k :| 0 <= k < |agents| && agents[k] == a;
      assert rows[k].agent == a;
    }
  }

  lemma HealthAgentIff(wakes: Wakes, agent: Option<string>, a: string)
    ensures a in HealthAgents(wakes, agent) <==> (agent.None? || agent == Some(a)) && Unsettled(wakes, a) != {}
  {
    if a in HealthAgents(wakes, agent) {
      var id :| id in wakes && InScope(wakes[id], agent) &&
                wakes[id].acceptedAt == 0.0 && wakes[id].parkedAt == 0.0 && wakes[id].agent == a;
      assert id in Unsettled(wakes, a);
    }
    if (agent.None? || agent == Some(a)) && Unsettled(wakes, a) != {} {
      var id :| id in Unsettled(wakes, a);
      assert InScope(wakes[id], agent);
    }
  }
}
