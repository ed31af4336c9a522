/**
 The stale-drop aggregate: one bounded row per schedule counts recurring fires
 dropped before delivery, and acknowledgements clear it by generation. Observers
 may hold any number of old snapshots and acknowledge them late.
 */
module StaleDrops {
  import opened Prelude
  import opened FiniteSets

  datatype Drop = Drop(
    scheduleId: nat, agent: string, name: string, count: nat,
    first: real, last: real, maxAge: real, generation: nat)

  type Drops = map<nat, Drop>

  const NAME_LIMIT := 256

  function Bounded(name: string): string {
    if |name| <= NAME_LIMIT then name else name[..NAME_LIMIT]
  }

  /** The upsert of `record_recurring_schedule_stale_drop`. */
  function Recorded(t: Drops, sid: nat, agent: string, name: string, at: real, age: real): Drops {
    if sid !in t then
      t[sid := Drop(sid, agent, Bounded(name), 1, at, at, Max(0.0, age), 1)]
    else
      var d := t[sid];
      if d.count == 0 then
        t[sid := Drop(d.scheduleId, agent, Bounded(name), 1, at, at, Max(0.0, age), d.generation + 1)]
      else
        t[sid := Drop(d.scheduleId, agent, Bounded(name), d.count + 1, Min(d.first, at), Max(d.last, at),
                      Max(d.maxAge, Max(0.0, age)), d.generation + 1)]
  }

  /** The guard of one acknowledgement UPDATE. */
  predicate Clears(t: Drops, agent: string, notice: Drop) {
    notice.agent == agent && notice.scheduleId in t &&
    t[notice.scheduleId].agent == agent && t[notice.scheduleId].generation == notice.generation &&
    t[notice.scheduleId].count > 0
  }

  /** Clearing keeps a zero-count tombstone with its generation. */
  function Acknowledged(t: Drops, agent: string, notice: Drop): Drops {
    if Clears(t, agent, notice) then t[notice.scheduleId := t[notice.scheduleId].(count := 0)] else t
  }

  /** A whole confirmed delivery, notice by notice. */
  function AcknowledgedAll(t: Drops, agent: string, notices: seq<Drop>): Drops {
    if notices == [] then t
    else
      var last := |notices| - 1;
      Acknowledged(AcknowledgedAll(t, agent, notices[..last]), agent, notices[last])
  }

  function ClearedRows(t: Drops, agent: string, notices: seq<Drop>): nat {
    if notices == [] then 0
    else
      var last := |notices| - 1;
      ClearedRows(t, agent, notices[..last]) +
      (if Clears(AcknowledgedAll(t, agent, notices[..last]), agent, notices[last]) then 1 else 0)
  }

  /** `schedule_id` is the primary key. */
  ghost predicate Keyed(t: Drops) {
    forall sid | sid in t :: t[sid].scheduleId == sid
  }

  /** What recording writes besides the aggregate: who and which schedule, under a name of
      at most 256 characters. */
  lemma RecordMeans(t: Drops, sid: nat, agent: string, name: string, at: real, age: real)
    requires Keyed(t)
    ensures var u := Recorded(t, sid, agent, name, at, age);
            && u.Keys == t.Keys + {sid} && (forall k | k in t && k != sid :: u[k] == t[k])
            && u[sid].scheduleId == sid && u[sid].agent == agent
            && u[sid].name == (if |name| <= 256 then name else name[..256])
            && u[sid].generation == (if sid in t then t[sid].generation + 1 else 1)
            && u[sid].count == (if sid in t then t[sid].count + 1 else 1)
  {
  }

  /** Acknowledging one notice: the row it still describes keeps everything but its count. */
  lemma AcknowledgeMeans(t: Drops, agent: string, notice: Drop)
    requires Keyed(t)
    ensures var u, sid := Acknowledged(t, agent, notice), notice.scheduleId;
            if sid in t && notice.agent == agent && t[sid].agent == agent &&
               t[sid].generation == notice.generation && t[sid].count > 0
            then u.Keys == t.Keys && (forall k | k in t && k != sid :: u[k] == t[k]) &&
                 u[sid].count == 0 && u[sid].(count := t[sid].count) == t[sid]
            else u == t
  {
  }

  function Emptied(t: Drops, u: Drops): set<nat> {
    set sid | sid in t && sid in u && t[sid].count > 0 && u[sid].count == 0
  }

  /** The number an acknowledgement returns is the number of rows it emptied. */
  lemma {:induction false} ClearedRowsCounted(t: Drops, agent: string, notices: seq<Drop>)
    requires Keyed(t)
    ensures Keyed(AcknowledgedAll(t, agent, notices)) && AcknowledgedAll(t, agent, notices).Keys == t.Keys
    ensures forall sid | sid in t ::
              var u := AcknowledgedAll(t, agent, notices); u[sid].count == t[sid].count || u[sid].count == 0
    ensures ClearedRows(t, agent, notices) == |Emptied(t, AcknowledgedAll(t, agent, notices))|
  {
    if notices == [] {
      assert Emptied(t, t) == {};
    } else {
      var n := |notices| - 1;
      ClearedRowsCounted(t, agent, notices[..n]);
      var u := AcknowledgedAll(t, agent, notices[..n]);
      var v := AcknowledgedAll(t, agent, notices);
      if Clears(u, agent, notices[n]) {
        assert notices[n].scheduleId !in Emptied(t, u);
        assert Emptied(t, v) == Emptied(t, u) + {notices[n].scheduleId};
      } else {
        assert v == u;
      }
    }
  }

  class StaleDropTable {
    var drops: Drops

    ghost predicate Valid()
      reads this
    {
      Keyed(drops)
    }

    constructor ()
      ensures Valid() && drops == map[]
    {
      drops := map[];
    }

    /** `record_recurring_schedule_stale_drop`. */
    method Record(scheduleId: int, agent: string, name: string, droppedAt: real, rowAge: real) returns (r: Result<Drop>)
      requires Valid()
      modifies this
      ensures Valid()
      ensures r.Err? <==> scheduleId <= 0 || agent == "" || droppedAt <= 0.0
      ensures r.Err? ==> drops == old(drops)
      ensures r.Ok? ==> drops == Recorded(old(drops), scheduleId, agent, name, droppedAt, rowAge)
      ensures r.Ok? ==> r.value == drops[scheduleId] && r.value.count > 0
      ensures r.Ok? && scheduleId in old(drops) ==> r.value.generation > old(drops)[scheduleId].generation
    {
      if scheduleId <= 0 { return Err("schedule_id must be positive"); }
      if agent == "" { return Err("agent_name must not be empty"); }
      if droppedAt <= 0.0 { return Err("dropped_at must be positive"); }
      var age := Max(0.0, rowAge);
      if scheduleId !in drops {
        drops := drops[scheduleId := Drop(scheduleId, agent, Bounded(name), 1, droppedAt, droppedAt, age, 1)];
      } else {
        var d := drops[scheduleId];
        var surfaced := d.count == 0;
        drops := drops[scheduleId := d.(
          agent := agent, name := Bounded(name),
          count := if surfaced then 1 else d.count + 1,
          first := if surfaced then droppedAt else Min(d.first, droppedAt),
          last := if surfaced then droppedAt else Max(d.last, droppedAt),
          maxAge := if surfaced then age else Max(d.maxAge, age),
          generation := d.generation + 1)];
      }
      r := Ok(drops[scheduleId]);
    }

    /** `list_recurring_schedule_stale_drops`: unsurfaced aggregates by schedule id. */
    method List(agent: string) returns (notices: seq<Drop>)
      requires Valid()
      ensures forall d :: d in notices <==>
                          d.scheduleId in drops && drops[d.scheduleId] == d && d.agent == agent && d.count > 0
      ensures forall i, j | 0 <= i < j < |notices| :: notices[i].scheduleId < notices[j].scheduleId
    {
      var ids := set sid | sid in drops && drops[sid].agent == agent && drops[sid].count > 0;
      var sorted := SortSet(ids, Ascending());
      notices := [];
      for i := 0 to |sorted|
        invariant |notices| == i
        invariant forall k | 0 <= k < i :: sorted[k] in drops && notices[k] == drops[sorted[k]]
      {
        assert sorted[i] in sorted;
        notices := notices + [drops[sorted[i]]];
      }
      forall k | 0 <= k < |sorted| ensures sorted[k] in ids { assert sorted[k] in sorted; }
      forall d: Drop | d.scheduleId in ids && drops[d.scheduleId] == d ensures d in notices {
        assert d.scheduleId in sorted;
        var k :| 0 <= k < |sorted| && sorted[k] == d.scheduleId;
        assert notices[k] == d;
      }
      forall i, j | 0 <= i < j < |notices| ensures notices[i].scheduleId < notices[j].scheduleId {
        assert Ascending()(sorted[i], sorted[j]);
      }
    }

    /** `acknowledge_recurring_schedule_stale_drops`. */
    method Acknowledge(agent: string, notices: seq<Drop>) returns (cleared: nat)
      requires Valid()
      modifies this
      ensures Valid()
      ensures drops == AcknowledgedAll(old(drops), agent, notices)
      ensures cleared == ClearedRows(old(drops), agent, notices)
    {
      cleared := 0;
      for i := 0 to |notices|
        invariant Valid() && drops == AcknowledgedAll(old(drops), agent, notices[..i])
        invariant cleared == ClearedRows(old(drops), agent, notices[..i])
      {
        var notice := notices[i];
        assert notices[..i+1][..i] == notices[..i];
        if notice.agent == agent {
          if notice.scheduleId in drops {
            var d := drops[notice.scheduleId];
            if d.agent == agent && d.generation == notice.generation && d.count > 0 {
              drops := drops[notice.scheduleId := d.(count := 0)];
              cleared := cleared + 1;
            }
          }
        }
      }
      assert notices[..|notices|] == notices;
    }
  }

  // ---------------------------------------------------------------------
  // Runs with any number of late observers
  // ---------------------------------------------------------------------

  /** One committed call. A delivery is taken notice by notice. */
  datatype Step =
    | Record(scheduleId: nat, agent: string, name: string, at: real, age: real)
    | Acknowledge(agent: string, notice: Drop)

  function Next(t: Drops, step: Step): Drops {
    match step
    case Record(sid, agent, name, at, age) => Recorded(t, sid, agent, name, at, age)
    case Acknowledge(agent, notice) => Acknowledged(t, agent, notice)
  }

  function Run(t: Drops, steps: seq<Step>): Drops {
    if steps == [] then t else Next(Run(t, steps[..|steps|-1]), steps[|steps|-1])
  }

  /** Every run from a keyed table, such as the empty one, stays keyed. */
  lemma {:induction false} RunKeyed(t: Drops, steps: seq<Step>)
    requires Keyed(t)
    ensures Keyed(Run(t, steps))
  {
    if steps != [] { RunKeyed(t, steps[..|steps|-1]); }
  }

  function DeliverySteps(agent: string, notices: seq<Drop>): seq<Step> {
    seq(|notices|, k requires 0 <= k < |notices| => Acknowledge(agent, notices[k]))
  }

  /** A batch acknowledgement is its notices acknowledged one by one, so the run
      theorems below cover it. */
  lemma {:induction false} DeliveryIsSteps(t: Drops, agent: string, notices: seq<Drop>)
    ensures AcknowledgedAll(t, agent, notices) == Run(t, DeliverySteps(agent, notices))
  {
    if notices != [] {
      var last := |notices| - 1;
      var steps := DeliverySteps(agent, notices);
      assert steps[..last] == DeliverySteps(agent, notices[..last]);
      DeliveryIsSteps(t, agent, notices[..last]);
    }
  }

  function Count(t: Drops, sid: nat): nat {
    if sid in t then t[sid].count else 0
  }

  /** Drops of one schedule recorded along a run. */
  function RecordedCount(steps: seq<Step>, sid: nat): nat {
    if steps == [] then 0
    else
      var last := steps[|steps|-1];
      RecordedCount(steps[..|steps|-1], sid) + (if last.Record? && last.scheduleId == sid then 1 else 0)
  }

  /** Drops of one schedule cleared by acknowledgements along a run. */
  function ClearedCount(t: Drops, steps: seq<Step>, sid: nat): nat {
    if steps == [] then 0
    else
      var last, before := steps[|steps|-1], Run(t, steps[..|steps|-1]);
      ClearedCount(t, steps[..|steps|-1], sid) +
      (if last.Acknowledge? && last.notice.scheduleId == sid && Clears(before, last.agent, last.notice)
       then before[sid].count else 0)
  }

  /** Nothing is lost: recorded = cleared + still outstanding. */
  lemma {:induction false} DropsConserved(t: Drops, steps: seq<Step>, sid: nat)
    ensures Count(t, sid) + RecordedCount(steps, sid) == ClearedCount(t, steps, sid) + Count(Run(t, steps), sid)
  {
    if steps == [] {
    } else {
      DropsConserved(t, steps[..|steps|-1], sid);
    }
  }

  /** How one row may differ from an earlier view of it. */
  predicate RowEvolves(d: Drop, e: Drop, recorded: nat) {
    e.generation == d.generation + recorded &&
    (recorded == 0 ==> e == d || e == d.(count := 0))
  }

  lemma {:induction false} RowHistory(t: Drops, steps: seq<Step>, sid: nat)
    requires sid in t
    ensures sid in Run(t, steps) && RowEvolves(t[sid], Run(t, steps)[sid], RecordedCount(steps, sid))
  {
    if steps == [] {
    } else {
      RowHistory(t, steps[..|steps|-1], sid);
    }
  }

  /** ABA safety over every run from a keyed table, such as the empty one. After
      the first `i` calls an observer took a snapshot of a schedule; the rest of
      the calls follow. Its late acknowledgement clears the row exactly when the
      row is still the very row it saw, outstanding and under the acknowledged
      agent; in particular no drop was recorded since, and what it removes is its
      own count. */
  lemma LateAcknowledgement(t: Drops, steps: seq<Step>, i: nat, sid: nat, agent: string)
    requires Keyed(t) && i <= |steps| && sid in Run(t, steps[..i])
    ensures var snapshot := Run(t, steps[..i])[sid];
            var now := Run(t, steps);
            var since := RecordedCount(steps[i..], sid);
            sid in now &&
            (Clears(now, agent, snapshot) <==>
               now[sid] == snapshot && snapshot.count > 0 && snapshot.agent == agent) &&
            (Clears(now, agent, snapshot) ==> since == 0 && Count(now, sid) == snapshot.count) &&
            (since > 0 ==> Acknowledged(now, agent, snapshot) == now)
  {
    var before := Run(t, steps[..i]);
    RunKeyed(t, steps[..i]);
    RunSplits(t, steps[..i], steps[i..]);
    assert steps[..i] + steps[i..] == steps;
    RowHistory(before, steps[i..], sid);
  }

  lemma {:induction false} RunSplits(t: Drops, early: seq<Step>, late: seq<Step>)
    ensures Run(t, early + late) == Run(Run(t, early), late)
  {
    if late == [] {
      assert early + late == early;
    } else {
      var n := |late| - 1;
      assert (early + late)[..|early + late| - 1] == early + late[..n];
      RunSplits(t, early, late[..n]);
    }
  }

  // ---------------------------------------------------------------------
  // What the aggregate means
  // ---------------------------------------------------------------------

  datatype Casualty = Casualty(at: real, age: real)

  /** The drops of one schedule not yet surfaced: those since the last clear. */
  function Outstanding(t: Drops, steps: seq<Step>, sid: nat): seq<Casualty> {
    if steps == [] then []
    else
      var last, before := steps[|steps|-1], Run(t, steps[..|steps|-1]);
      var earlier := Outstanding(t, steps[..|steps|-1], sid);
      if last.Record? && last.scheduleId == sid then earlier + [Casualty(last.at, Max(0.0, last.age))]
      else if last.Acknowledge? && last.notice.scheduleId == sid && Clears(before, last.agent, last.notice) then []
      else earlier
  }

  ghost predicate Aggregates(d: Drop, cs: seq<Casualty>) {
    && d.count == |cs|
    && (forall k | 0 <= k < |cs| :: d.first <= cs[k].at <= d.last && cs[k].age <= d.maxAge)
    && (cs != [] ==> (exists k :: 0 <= k < |cs| && cs[k].at == d.first)
                     && (exists k :: 0 <= k < |cs| && cs[k].at == d.last)
                     && (exists k :: 0 <= k < |cs| && cs[k].age == d.maxAge))
  }

  lemma AggregateGrows(d: Drop, cs: seq<Casualty>, c: Casualty)
    requires Aggregates(d, cs) && cs != []
    ensures forall e: Drop | e.count == d.count + 1 && e.first == Min(d.first, c.at) && e.last == Max(d.last, c.at) &&
                             e.maxAge == Max(d.maxAge, c.age) ::
              Aggregates(e, cs + [c])
  {
    var more := cs + [c];
    var i :| 0 <= i < |cs| && cs[i].at == d.first;
    var j :| 0 <= j < |cs| && cs[j].at == d.last;
    var k :| 0 <= k < |cs| && cs[k].age == d.maxAge;
    assert more[i] == cs[i] && more[j] == cs[j] && more[k] == cs[k] && more[|cs|] == c;
  }

  /** The bounded row is the exact aggregate of the outstanding drops: their
      number, first and last time, and greatest age. */
  lemma {:induction false} RowIsAggregate(t: Drops, steps: seq<Step>, sid: nat)
    requires sid !in t
    ensures var cs := Outstanding(t, steps, sid);
            if sid in Run(t, steps) then Aggregates(Run(t, steps)[sid], cs) else cs == []
  {
    if steps == [] {
    } else {
      var early := steps[..|steps|-1];
      var last := steps[|steps|-1];
      RowIsAggregate(t, early, sid);
      var cs := Outstanding(t, early, sid);
      if last.Record? && last.scheduleId == sid {
        var c := Casualty(last.at, Max(0.0, last.age));
        if cs == [] {
          assert [c][0] == c;
          assert cs + [c] == [c];
          assert Aggregates(Run(t, steps)[sid], [c]);
        } else {
          AggregateGrows(Run(t, early)[sid], cs, c);
        }
      }
    }
  }
}
