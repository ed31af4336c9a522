/**
 The outbox reaper: five set-based maintenance phases over the wake table, each
 run as a loop of LIMIT-ed batches. The heart of the module is that a batch
 never changes which of the remaining rows are candidates, so the batch size
 cannot change what a phase does.
 */
module OutboxReaper {
  import opened WakeRow

  const DISCARD_REASON := "retired via discard"
  const PAYLOAD_TRIMMED := "[payload trimmed by outbox reaper]"
  const LEGACY_PATTERN := "RECEIPT_ABANDONED:"

  type Wakes = map<nat, Wake>

  datatype Phase = AbandonPhase | AcceptedReap | AbandonedReap | ParkedReap | PayloadTrim

  datatype Windows = Windows(
    now: real, abandonAfter: real, retainAccepted: real,
    retainAbandoned: real, retainParked: real, trimAfter: real)

  predicate ValidWindows(p: Windows) {
    p.now > 0.0 && p.abandonAfter > 0.0 && p.retainAccepted > 0.0 &&
    p.retainAbandoned > 0.0 && p.retainParked > 0.0 && p.trimAfter > 0.0
  }

  function AsciiUpper(c: char): char {
    if 'a' <= c <= 'z' then (c as int - 32) as char else c
  }

  /** `last_error LIKE 'RECEIPT_ABANDONED:%'`: LIKE ignores ASCII case and its
      underscore stands for any one character. */
  predicate LegacyMarker(e: string) {
    |LEGACY_PATTERN| <= |e| &&
    forall i | 0 <= i < |LEGACY_PATTERN| ::
      LEGACY_PATTERN[i] == '_' || AsciiUpper(e[i]) == LEGACY_PATTERN[i]
  }

  /** A live quarantine marker that was not an explicit discard. */
  predicate Undiscarded(w: Wake) {
    w.acceptedAt == 0.0 && w.abandonedAt == 0.0 && w.parkedAt > 0.0 && w.lastError != DISCARD_REASON
  }

  predicate Discarded(w: Wake) {
    w.acceptedAt == 0.0 && w.abandonedAt == 0.0 && w.parkedAt > 0.0 && w.lastError == DISCARD_REASON
  }

  /** Order on quarantine markers: by park time, then by id. */
  predicate Newer(a: Wake, i: nat, b: Wake, j: nat) {
    a.parkedAt > b.parkedAt || (a.parkedAt == b.parkedAt && i > j)
  }

  predicate Supersedes(wakes: Wakes, n: nat, id: nat)
    requires n in wakes && id in wakes
  {
    wakes[n].scheduleId == wakes[id].scheduleId && Undiscarded(wakes[n]) && Newer(wakes[n], n, wakes[id], id)
  }

  predicate HasNewer(wakes: Wakes, id: nat)
    requires id in wakes
  {
    exists n :: n in wakes && Supersedes(wakes, n, id)
  }

  /** The sub-select of each phase. */
  predicate Candidate(ph: Phase, p: Windows, wakes: Wakes, id: nat)
    requires id in wakes
  {
    var w := wakes[id];
    match ph
    case AbandonPhase =>
      w.acceptedAt == 0.0 && w.abandonedAt == 0.0 && w.pastedAt == 0.0 &&
      ((w.parkedAt == 0.0 && w.firedAt < p.now - p.abandonAfter) ||
       (w.parkedAt > 0.0 && LegacyMarker(w.lastError)))
    case AcceptedReap =>
      w.acceptedAt > 0.0 && w.acceptedAt < p.now - p.retainAccepted
    case AbandonedReap =>
      (w.acceptedAt == 0.0 && w.parkedAt == 0.0 && w.abandonedAt > 0.0 && w.abandonedAt < p.now - p.retainAbandoned) ||
      (Discarded(w) && w.parkedAt < p.now - p.retainAbandoned)
    case ParkedReap =>
      Undiscarded(w) && w.parkedAt < p.now - p.retainParked && HasNewer(wakes, id)
    case PayloadTrim =>
      w.prompt != PAYLOAD_TRIMMED &&
      ((w.acceptedAt > 0.0 && w.acceptedAt < p.now - p.trimAfter) ||
       (w.acceptedAt == 0.0 && w.parkedAt == 0.0 && w.abandonedAt > 0.0 && w.abandonedAt < p.now - p.trimAfter) ||
       (Discarded(w) && w.parkedAt < p.now - p.trimAfter) ||
       (Undiscarded(w) && w.parkedAt < p.now - p.trimAfter && HasNewer(wakes, id)))
  }

  function Candidates(ph: Phase, p: Windows, wakes: Wakes): set<nat> {
    set id | id in wakes && Candidate(ph, p, wakes, id)
  }

  predicate Deletes(ph: Phase) {
    ph.AcceptedReap? || ph.AbandonedReap? || ph.ParkedReap?
  }

  /** What a non-deleting phase writes into one row. */
  function Effect(ph: Phase, p: Windows, w: Wake): Wake {
    match ph
    case AbandonPhase => w.(abandonedAt := p.now, parkedAt := 0.0, drainParkedAt := 0.0)
    case PayloadTrim => w.(prompt := PAYLOAD_TRIMMED)
    case _ => w
  }

  /** The statement of one phase, applied to a chosen set of ids. */
  function Applied(ph: Phase, p: Windows, wakes: Wakes, ids: set<nat>): Wakes {
    map id | id in wakes && !(Deletes(ph) && id in ids) ::
      if id in ids then Effect(ph, p, wakes[id]) else wakes[id]
  }

  /** A phase with no LIMIT at all. */
  function OneShot(ph: Phase, p: Windows, wakes: Wakes): Wakes {
    Applied(ph, p, wakes, Candidates(ph, p, wakes))
  }

  /** The whole pass, each phase one-shot. */
  function ReapPass(p: Windows, wakes: Wakes): Wakes {
    var abandoned := OneShot(AbandonPhase, p, wakes);
    var accepted := OneShot(AcceptedReap, p, abandoned);
    var terminal := OneShot(AbandonedReap, p, accepted);
    var parked := OneShot(ParkedReap, p, terminal);
    OneShot(PayloadTrim, p, parked)
  }

  // ---------------------------------------------------------------------
  // Why a batch leaves the rest of the candidate set alone
  // ---------------------------------------------------------------------

  /** Above any superseded marker stands one that nothing supersedes. */
  lemma {:induction false} NewestAbove(wakes: Wakes, id: nat, n: nat, above: set<nat>) returns (top: nat)
    requires id in wakes && n in wakes && Supersedes(wakes, n, id)
    requires above == set m | m in wakes && Supersedes(wakes, m, n)
    ensures top in wakes && Supersedes(wakes, top, id) && !HasNewer(wakes, top)
    decreases above
  {
    if above == {} {
      assert forall m | m in wakes :: m !in above;
      return n;
    }
    var m :| m in above;
    var higher := set k | k in wakes && Supersedes(wakes, k, m);
    assert m !in higher;
    assert higher < above by {
      forall k | k in higher ensures k in above { assert Supersedes(wakes, k, n); }
    }
    top := NewestAbove(wakes, id, m, higher);
  }

  /** Deleting superseded markers keeps every "a newer row exists" test true. */
  lemma NewerSurvives(p: Windows, wakes: Wakes, ids: set<nat>, id: nat)
    requires ids <= Candidates(ParkedReap, p, wakes)
    requires id in wakes && id !in ids
    ensures HasNewer(Applied(ParkedReap, p, wakes, ids), id) <==> HasNewer(wakes, id)
  {
    var after := Applied(ParkedReap, p, wakes, ids);
    if HasNewer(after, id) {
      var n :| n in after && Supersedes(after, n, id);
      assert n in wakes && Supersedes(wakes, n, id);
    }
    if HasNewer(wakes, id) {
      var n :| n in wakes && Supersedes(wakes, n, id);
      var top := NewestAbove(wakes, id, n, set m | m in wakes && Supersedes(wakes, m, n));
      assert top !in Candidates(ParkedReap, p, wakes);
      assert top in after && Supersedes(after, top, id);
    }
  }

  /** In every other phase the surviving markers are untouched or irrelevant. */
  lemma TrimKeepsNewer(p: Windows, wakes: Wakes, ids: set<nat>, id: nat)
    requires id in wakes
    ensures id in Applied(PayloadTrim, p, wakes, ids)
    ensures HasNewer(Applied(PayloadTrim, p, wakes, ids), id) <==> HasNewer(wakes, id)
  {
    var after := Applied(PayloadTrim, p, wakes, ids);
    forall n | n in wakes ensures Supersedes(after, n, id) <==> Supersedes(wakes, n, id) {}
    if HasNewer(wakes, id) {
      var n :| n in wakes && Supersedes(wakes, n, id);
      assert Supersedes(after, n, id);
    }
    if HasNewer(after, id) {
      var n :| n in after && Supersedes(after, n, id);
      assert Supersedes(wakes, n, id);
    }
  }

  /** One batch removes exactly itself from the candidate set. */
  lemma BatchShrinksCandidates(ph: Phase, p: Windows, wakes: Wakes, ids: set<nat>)
    requires ValidWindows(p)
    requires ids <= Candidates(ph, p, wakes)
    ensures Candidates(ph, p, Applied(ph, p, wakes, ids)) == Candidates(ph, p, wakes) - ids
  {
    var after := Applied(ph, p, wakes, ids);
    forall id | id in wakes && id !in ids
      ensures id in after && after[id] == wakes[id]
      ensures Candidate(ph, p, after, id) <==> Candidate(ph, p, wakes, id)
    {
      if ph == ParkedReap { NewerSurvives(p, wakes, ids, id); }
      if ph == PayloadTrim { TrimKeepsNewer(p, wakes, ids, id); }
    }
    forall id | id in ids ensures id !in Candidates(ph, p, after) {}
  }

  /** Two batches in a row are one larger batch. */
  lemma BatchesCompose(ph: Phase, p: Windows, wakes: Wakes, ids: set<nat>, more: set<nat>)
    requires ids !! more
    ensures Applied(ph, p, Applied(ph, p, wakes, ids), more) == Applied(ph, p, wakes, ids + more)
  {
  }

  /** Runs a list of batches one after the other. */
  function RunBatches(ph: Phase, p: Windows, wakes: Wakes, batches: seq<set<nat>>): Wakes
    decreases |batches|
  {
    if batches == [] then wakes
    else RunBatches(ph, p, Applied(ph, p, wakes, batches[0]), batches[1..])
  }

  /** Every batch is drawn from the candidates standing when it runs, and the
      list ends only when none is left. */
  predicate ExhaustiveBatches(ph: Phase, p: Windows, wakes: Wakes, batches: seq<set<nat>>)
    decreases |batches|
  {
    if batches == [] then Candidates(ph, p, wakes) == {}
    else batches[0] <= Candidates(ph, p, wakes) &&
         ExhaustiveBatches(ph, p, Applied(ph, p, wakes, batches[0]), batches[1..])
  }

  /** Whatever the batches were, the phase did what the unlimited statement does. */
  lemma {:induction false} BatchingIsInvisible(ph: Phase, p: Windows, wakes: Wakes, batches: seq<set<nat>>)
    requires ValidWindows(p)
    requires ExhaustiveBatches(ph, p, wakes, batches)
    ensures RunBatches(ph, p, wakes, batches) == OneShot(ph, p, wakes)
    decreases |batches|
  {
    if batches == [] {
    } else {
      var first := batches[0];
      var rest := Candidates(ph, p, wakes) - first;
      BatchShrinksCandidates(ph, p, wakes, first);
      BatchingIsInvisible(ph, p, Applied(ph, p, wakes, first), batches[1..]);
      BatchesCompose(ph, p, wakes, first, rest);
      assert first + rest == Candidates(ph, p, wakes);
    }
  }
}
