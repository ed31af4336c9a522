/**
 `ApiReadiness`: one startup deadline in front of prompt submission. A timeout
 refuses the waiters held so far, a late server still opens the gate, and a close
 is final. Futures are numbered; the server's flags and the clock are read anew
 at every refresh.
 */
module ApiReadiness {
  import opened Prelude

  datatype Future = Held | Answered(value: bool) | Cancelled

  /** What `_refresh` reads: the clock and the two server flags. */
  datatype Reading = Reading(now: real, started: bool, shouldExit: bool)

  /** `seenStarted`, `toldTrue` and `toldFalse` are history: whether some refresh
      saw a started server, and how many callers were answered without a future. */
  datatype Gate = Gate(
    attached: bool, closed: bool, expired: bool, ready: bool,
    startedAt: real, cap: real, monitoring: bool, refused: nat,
    waiters: set<nat>, futures: map<nat, Future>, nextFuture: nat,
    seenStarted: bool, toldTrue: nat, toldFalse: nat)

  function WithAnswer(g: Gate, value: bool): set<nat> {
    set f | f in g.futures && g.futures[f] == Answered(value)
  }

  function HeldWaiters(g: Gate): set<nat> {
    set f | f in g.waiters && f in g.futures && g.futures[f].Held?
  }

  /** Answers every held waiter. */
  function Resolved(g: Gate, value: bool): Gate {
    g.(futures := map f | f in g.futures :: if f in HeldWaiters(g) then Answered(value) else g.futures[f])
  }

  function Refused(g: Gate): Gate {
    Resolved(g, false).(refused := g.refused + |HeldWaiters(g)|)
  }

  function ClosedNow(g: Gate): Gate {
    if g.closed then g else Refused(g.(closed := true))
  }

  predicate DeadlinePassed(g: Gate, r: Reading) {
    !g.ready && !g.expired && g.startedAt != 0.0 && r.now - g.startedAt >= g.cap
  }

  /** `_refresh`. */
  function Refreshed(g: Gate, r: Reading): Gate {
    if g.closed || !g.attached then g
    else if r.shouldExit then ClosedNow(g)
    else
      var timed := if DeadlinePassed(g, r) then Refused(g.(expired := true)) else g;
      if r.started && !timed.ready then Resolved(timed.(ready := true, seenStarted := true), true)
      else timed
  }

  predicate Open(g: Gate) {
    !g.closed && (!g.attached || g.ready)
  }

  function Told(g: Gate, value: bool): Gate {
    if value then g.(toldTrue := g.toldTrue + 1)
    else g.(toldFalse := g.toldFalse + 1, refused := g.refused + 1)
  }

  /** `can_submit`: its answer is whether the refreshed gate is open. */
  function Submit(g: Gate, r: Reading): Gate {
    Told(Refreshed(g, r), Open(Refreshed(g, r)))
  }

  function Enqueue(g: Gate): Gate {
    g.(waiters := g.waiters + {g.nextFuture},
       futures := g.futures[g.nextFuture := Held],
       nextFuture := g.nextFuture + 1)
  }

  /** `wait` up to its await: answer at once, or hold a future. A second reading
      is taken when the gate is closed or expired. */
  function Wait(g: Gate, r: Reading, again: Reading): Gate {
    var now := Refreshed(g, r);
    if Open(now) then Told(now, true)
    else if now.closed || now.expired then Submit(now, again)
    else Enqueue(now)
  }

  function Start(g: Gate, cap: real, now: real): Gate {
    if !g.attached || g.monitoring || g.closed then g
    else g.(cap := cap, startedAt := now, monitoring := true)
  }

  /** The awaiting task is cancelled: an unresolved future becomes done. */
  function Cancel(g: Gate, f: nat): Gate {
    if f in g.futures && g.futures[f].Held? then g.(futures := g.futures[f := Cancelled]) else g
  }

  /** `finally: self._waiters.pop(...)`, once the future is done. */
  function Leave(g: Gate, f: nat): Gate {
    if f in g.futures && !g.futures[f].Held? then g.(waiters := g.waiters - {f}) else g
  }

  // ---------------------------------------------------------------------
  // Runs
  // ---------------------------------------------------------------------

  datatype Step =
    | AttachStep
    | StartStep(cap: real, now: real)
    | RefreshStep(reading: Reading)
    | SubmitStep(reading: Reading)
    | WaitStep(reading: Reading, again: Reading)
    | CancelStep(future: nat)
    | LeaveStep(future: nat)
    | CloseStep

  function Next(g: Gate, step: Step): Gate {
    match step
    case AttachStep => g.(attached := true)
    case StartStep(cap, now) => Start(g, cap, now)
    case RefreshStep(r) => Refreshed(g, r)
    case SubmitStep(r) => Submit(g, r)
    case WaitStep(r, again) => Wait(g, r, again)
    case CancelStep(f) => Cancel(g, f)
    case LeaveStep(f) => Leave(g, f)
    case CloseStep => ClosedNow(g)
  }

  function Run(g: Gate, steps: seq<Step>): Gate {
    if steps == [] then g else Next(Run(g, steps[..|steps|-1]), steps[|steps|-1])
  }

  const DEFAULT_CAP := 600.0

  const INITIAL := Gate(false, false, false, false, 0.0, DEFAULT_CAP, false, 0, {}, map[], 0, false, 0, 0)

  /** Bookkeeping, provenance of every True, and the exact refusal count. */
  predicate Core(g: Gate) {
    && g.waiters <= g.futures.Keys
    && (forall f | f in g.futures :: f < g.nextFuture && (g.futures[f].Held? ==> f in g.waiters))
    && (g.futures != map[] ==> g.attached)
    && (g.ready ==> g.seenStarted)
    && (WithAnswer(g, true) != {} ==> g.seenStarted)
    && g.refused == |WithAnswer(g, false)| + g.toldFalse
  }

  /** Once ready, expired or closed, nobody is left waiting. */
  predicate NobodyStranded(g: Gate) {
    g.ready || g.expired || g.closed ==> HeldWaiters(g) == {}
  }

  predicate Inv(g: Gate) {
    Core(g) && NobodyStranded(g)
  }

  /** What one step may do to the latches, the futures and the answers. */
  predicate Evolves(g: Gate, h: Gate) {
    && (g.closed ==> h.closed) && (g.expired ==> h.expired) && (g.ready ==> h.ready) && (g.attached ==> h.attached)
    && (g.seenStarted ==> h.seenStarted)
    && g.nextFuture <= h.nextFuture && g.refused <= h.refused
    // a future is resolved at most once
    && (forall f | f in g.futures :: f in h.futures && (!g.futures[f].Held? ==> h.futures[f] == g.futures[f]))
    // a new True, by future or at once, needs a started server and an open gate
    && (WithAnswer(h, true) != WithAnswer(g, true) ==> h.seenStarted && !h.closed)
    && (h.toldTrue != g.toldTrue && h.attached ==> h.seenStarted && !h.closed)
    // after close nobody is let through
    && (g.closed ==> WithAnswer(h, true) == WithAnswer(g, true) && h.toldTrue == g.toldTrue)
  }

  lemma ResolvedAnswers(g: Gate, value: bool)
    requires g.waiters <= g.futures.Keys
    ensures WithAnswer(Resolved(g, value), value) == WithAnswer(g, value) + HeldWaiters(g)
    ensures WithAnswer(Resolved(g, value), !value) == WithAnswer(g, !value)
    ensures HeldWaiters(Resolved(g, value)) == {}
    ensures WithAnswer(g, value) !! HeldWaiters(g)
  {
  }

  lemma RefuseSound(g: Gate)
    requires Core(g)
    ensures Core(Refused(g)) && HeldWaiters(Refused(g)) == {} && Evolves(g, Refused(g))
    ensures WithAnswer(Refused(g), true) == WithAnswer(g, true)
  {
    ResolvedAnswers(g, false);
    var h := Refused(g);
    assert WithAnswer(h, false) == WithAnswer(Resolved(g, false), false);
    assert WithAnswer(h, true) == WithAnswer(Resolved(g, false), true);
    assert HeldWaiters(h) == HeldWaiters(Resolved(g, false));
  }

  lemma CloseSound(g: Gate)
    requires Inv(g)
    ensures Inv(ClosedNow(g)) && Evolves(g, ClosedNow(g)) && ClosedNow(g).closed
  {
    if !g.closed {
      var latched := g.(closed := true);
      assert WithAnswer(latched, true) == WithAnswer(g, true) && WithAnswer(latched, false) == WithAnswer(g, false);
      RefuseSound(latched);
    }
  }

  lemma ExpireSound(g: Gate)
    requires Inv(g) && !g.closed
    ensures Inv(Refused(g.(expired := true))) && Evolves(g, Refused(g.(expired := true)))
  {
    var latched := g.(expired := true);
    assert WithAnswer(latched, true) == WithAnswer(g, true) && WithAnswer(latched, false) == WithAnswer(g, false);
    RefuseSound(latched);
  }

  lemma ReadySound(g: Gate)
    requires Inv(g) && !g.closed
    ensures Inv(Resolved(g.(ready := true, seenStarted := true), true))
    ensures Evolves(g, Resolved(g.(ready := true, seenStarted := true), true))
  {
    var latched := g.(ready := true, seenStarted := true);
    assert WithAnswer(latched, true) == WithAnswer(g, true) && WithAnswer(latched, false) == WithAnswer(g, false);
    ResolvedAnswers(latched, true);
  }

  lemma EvolvesTransitive(g: Gate, h: Gate, k: Gate)
    requires Evolves(g, h) && Evolves(h, k) && h.attached == k.attached
    requires k.closed ==> h.closed || (WithAnswer(h, true) == WithAnswer(g, true) && h.toldTrue == g.toldTrue)
    ensures Evolves(g, k)
  {
  }

  lemma RefreshSound(g: Gate, r: Reading)
    requires Inv(g)
    ensures Inv(Refreshed(g, r)) && Evolves(g, Refreshed(g, r))
    ensures Refreshed(g, r).toldTrue == g.toldTrue && Refreshed(g, r).attached == g.attached
    ensures !Refreshed(g, r).closed ==> !g.closed
  {
    if g.closed || !g.attached {
    } else if r.shouldExit {
      CloseSound(g);
    } else {
      var timed := if DeadlinePassed(g, r) then Refused(g.(expired := true)) else g;
      if DeadlinePassed(g, r) { ExpireSound(g); }
      if r.started && !timed.ready { ReadySound(timed); }
    }
  }

  lemma ToldSound(g: Gate, value: bool)
    requires Inv(g) && (value ==> Open(g))
    ensures Inv(Told(g, value)) && Evolves(g, Told(g, value))
  {
  }

  lemma SubmitSound(g: Gate, r: Reading)
    requires Inv(g)
    ensures Inv(Submit(g, r)) && Evolves(g, Submit(g, r))
  {
    RefreshSound(g, r);
    var now := Refreshed(g, r);
    ToldSound(now, Open(now));
    hide Inv, Refreshed, WithAnswer;
    EvolvesTransitive(g, now, Told(now, Open(now)));
  }

  lemma EnqueueSound(g: Gate)
    requires Inv(g) && g.attached && !g.ready && !g.expired && !g.closed
    ensures Inv(Enqueue(g)) && Evolves(g, Enqueue(g))
  {
    var h := Enqueue(g);
    assert WithAnswer(h, true) == WithAnswer(g, true) && WithAnswer(h, false) == WithAnswer(g, false);
  }

  lemma WaitSound(g: Gate, r: Reading, again: Reading)
    requires Inv(g)
    ensures Inv(Wait(g, r, again)) && Evolves(g, Wait(g, r, again))
  {
    RefreshSound(g, r);
    var now := Refreshed(g, r);
    if Open(now) {
      ToldSound(now, true);
    } else if now.closed || now.expired {
      SubmitSound(now, again);
    } else {
      EnqueueSound(now);
    }
    hide Inv, Refreshed, WithAnswer, Submit;
    EvolvesTransitive(g, now, Wait(g, r, again));
  }

  lemma CancelSound(g: Gate, f: nat)
    requires Inv(g)
    ensures Inv(Cancel(g, f)) && Evolves(g, Cancel(g, f))
  {
    var h := Cancel(g, f);
    assert WithAnswer(h, true) == WithAnswer(g, true) && WithAnswer(h, false) == WithAnswer(g, false);
    assert HeldWaiters(h) <= HeldWaiters(g);
  }

  lemma LeaveSound(g: Gate, f: nat)
    requires Inv(g)
    ensures Inv(Leave(g, f)) && Evolves(g, Leave(g, f))
  {
    var h := Leave(g, f);
    assert WithAnswer(h, true) == WithAnswer(g, true) && WithAnswer(h, false) == WithAnswer(g, false);
    assert HeldWaiters(h) == HeldWaiters(g);
  }

  /** A step that leaves waiters, futures, latches and counters alone. */
  lemma SameAnswers(g: Gate, h: Gate)
    requires Inv(g) && (g.attached ==> h.attached)
    requires h == g.(attached := h.attached, cap := h.cap, startedAt := h.startedAt, monitoring := h.monitoring)
    ensures Inv(h) && Evolves(g, h)
  {
    assert WithAnswer(h, true) == WithAnswer(g, true) && WithAnswer(h, false) == WithAnswer(g, false);
    assert HeldWaiters(h) == HeldWaiters(g);
  }

  /** Every step keeps the promises. */
  lemma StepSound(g: Gate, step: Step)
    requires Inv(g)
    ensures Inv(Next(g, step)) && Evolves(g, Next(g, step))
  {
    hide Inv, Evolves, Refreshed, Submit, Wait, Cancel, Leave, ClosedNow;
    match step
    case AttachStep => SameAnswers(g, Next(g, step));
    case StartStep(_, _) => SameAnswers(g, Next(g, step));
    case RefreshStep(r) => RefreshSound(g, r);
    case SubmitStep(r) => SubmitSound(g, r);
    case WaitStep(r, again) => WaitSound(g, r, again);
    case CancelStep(f) => CancelSound(g, f);
    case LeaveStep(f) => LeaveSound(g, f);
    case CloseStep => CloseSound(g);
  }

  lemma InitialSound()
    ensures Inv(INITIAL)
  {
  }

  /** For every interleaving: the promises hold in the end, and the last step was
      a legal evolution. */
  lemma {:induction false} RunSound(steps: seq<Step>)
    ensures Inv(Run(INITIAL, steps))
    ensures forall k | 0 <= k < |steps| :: Evolves(Run(INITIAL, steps[..k]), Run(INITIAL, steps[..k+1]))
  {
    hide Inv, Evolves, Next;
    if steps == [] {
      InitialSound();
    } else {
      var n := |steps| - 1;
      RunSound(steps[..n]);
      StepSound(Run(INITIAL, steps[..n]), steps[n]);
      assert steps[..n+1] == steps && steps[..n+1][..n] == steps[..n];
      forall k | 0 <= k < n ensures Evolves(Run(INITIAL, steps[..k]), Run(INITIAL, steps[..k+1])) {
        assert steps[..n][..k] == steps[..k] && steps[..n][..k+1] == steps[..k+1];
      }
    }
  }

  predicate ReadsStarted(step: Step) {
    match step
    case RefreshStep(r) => r.started
    case SubmitStep(r) => r.started
    case WaitStep(r, again) => r.started || again.started
    case _ => false
  }

  /** The history flag is honest: it is set only if some reading of the run really
      showed a started server. */
  lemma {:induction false} SeenMeansStarted(steps: seq<Step>)
    ensures Run(INITIAL, steps).seenStarted ==> exists k :: 0 <= k < |steps| && ReadsStarted(steps[k])
  {
    if steps != [] {
      var n := |steps| - 1;
      SeenMeansStarted(steps[..n]);
      if Run(INITIAL, steps[..n]).seenStarted {
        var k :| 0 <= k < n && ReadsStarted(steps[..n][k]);
        assert ReadsStarted(steps[k]);
      } else if Run(INITIAL, steps).seenStarted {
        assert ReadsStarted(steps[n]);
      }
    }
  }

  lemma RefusedAnswers(g: Gate)
    requires g.waiters <= g.futures.Keys
    ensures WithAnswer(Refused(g), false) == WithAnswer(g, false) + HeldWaiters(g)
    ensures HeldWaiters(Refused(g)) == {} && Refused(g).waiters <= Refused(g).futures.Keys
    ensures WithAnswer(g, false) == WithAnswer(g.(expired := false), false)
    ensures HeldWaiters(g) == HeldWaiters(g.(expired := false))
  {
  }

  lemma OpenedAnswers(g: Gate)
    requires g.waiters <= g.futures.Keys
    ensures var h := Resolved(g.(ready := true, seenStarted := true), true);
            HeldWaiters(h) == {} && WithAnswer(h, false) == WithAnswer(g, false)
  {
  }

  /** A gate that timed out still opens for later submissions when the server comes up. */
  lemma LateRecovery(g: Gate, r: Reading)
    requires Inv(g) && g.attached && !g.closed && r.started && !r.shouldExit
    ensures Open(Refreshed(g, r)) && HeldWaiters(Refreshed(g, r)) == {}
    ensures WithAnswer(Refreshed(g, r), false) ==
            WithAnswer(g, false) + (if DeadlinePassed(g, r) then HeldWaiters(g) else {})
    ensures Submit(g, r).toldTrue == g.toldTrue + 1
  {
    RefreshSound(g, r);
    var timed := if DeadlinePassed(g, r) then Refused(g.(expired := true)) else g;
    if DeadlinePassed(g, r) { RefusedAnswers(g.(expired := true)); }
    if !timed.ready { OpenedAnswers(timed); }
    hide Core, NobodyStranded, Evolves, WithAnswer, HeldWaiters;
  }

  // ---------------------------------------------------------------------
  // What each call does, and why anyone is refused
  // ---------------------------------------------------------------------

  /** A waiter who has had no answer yet. */
  predicate Waits(g: Gate, f: nat) { f in g.waiters && f in g.futures && g.futures[f] == Held }

  /** The startup deadline has come: it is checked only while it can still matter. */
  predicate Late(g: Gate, now: real) {
    !g.ready && !g.expired && g.startedAt != 0.0 && now >= g.startedAt + g.cap
  }

  /** One refresh of an attached, open gate: a stopped server closes it; otherwise the
      deadline expires it and a started server opens it, in that order. */
  lemma RefreshMeans(g: Gate, r: Reading)
    requires g.attached && !g.closed
    ensures var h := Refreshed(g, r);
            && (h.closed <==> r.shouldExit)
            && (h.expired <==> g.expired || (!r.shouldExit && Late(g, r.now)))
            && (h.ready <==> g.ready || (!r.shouldExit && r.started))
            && (forall f | Waits(g, f) ::
                  h.futures[f] == (if r.shouldExit || Late(g, r.now) then Answered(false)
                                   else if r.started && !g.ready then Answered(true)
                                   else Held))
            && (forall f | f in g.futures && !Waits(g, f) :: h.futures[f] == g.futures[f])
            && h.futures.Keys == g.futures.Keys && h.waiters == g.waiters
            && h.startedAt == g.startedAt && h.cap == g.cap && h.attached
  {
    hide WithAnswer;
  }

  /** A gate not attached or already closed is left as it is. */
  lemma RefreshIdle(g: Gate, r: Reading)
    requires !g.attached || g.closed
    ensures Refreshed(g, r) == g
  {
  }

  /** The deadline runs from the first start of an attached, open gate. */
  lemma StartMeans(g: Gate, cap: real, now: real)
    ensures var h := Next(g, StartStep(cap, now));
            && (if g.attached && !g.monitoring && !g.closed
                then h.startedAt == now && h.cap == cap && h.monitoring
                else h.startedAt == g.startedAt && h.cap == g.cap && h.monitoring == g.monitoring)
            && h.(startedAt := g.startedAt, cap := g.cap, monitoring := g.monitoring) == g
  {
  }

  /** A close refuses whoever still waits, and nobody else. */
  lemma CloseMeans(g: Gate)
    ensures var h := Next(g, CloseStep);
            && h.closed && h.futures.Keys == g.futures.Keys
            && (forall f | f in g.futures ::
                  h.futures[f] == (if !g.closed && Waits(g, f) then Answered(false) else g.futures[f]))
  {
    hide WithAnswer;
  }

  /** The bookkeeping steps: attaching, a cancelled wait, and leaving once answered. */
  lemma BookkeepingMeans(g: Gate, f: nat)
    ensures Next(g, AttachStep).attached && Next(g, AttachStep).(attached := g.attached) == g
    ensures var h := Next(g, CancelStep(f));
            h == if f in g.futures && g.futures[f] == Held then g.(futures := g.futures[f := Cancelled]) else g
    ensures var h := Next(g, LeaveStep(f));
            if f in g.futures && g.futures[f] != Held then f !in h.waiters && h.waiters == g.waiters - {f} else h == g
  {
  }

  /** A wait that finds the gate neither open nor closed nor expired is queued. */
  lemma WaitMeans(g: Gate, r: Reading, again: Reading)
    ensures var now, h := Refreshed(g, r), Next(g, WaitStep(r, again));
            if !now.closed && (!now.attached || now.ready) then
              h.toldTrue == now.toldTrue + 1 && h.(toldTrue := now.toldTrue) == now
            else if now.closed || now.expired then h == Next(now, SubmitStep(again))
            else Waits(h, now.nextFuture) && h.nextFuture == now.nextFuture + 1 &&
                 h.waiters == now.waiters + {now.nextFuture} && h.refused == now.refused
  {
    hide Refreshed;
  }

  /** A submission is answered by the state of the refreshed gate, and each refusal counted. */
  lemma SubmitMeans(g: Gate, r: Reading)
    ensures var now, h := Refreshed(g, r), Next(g, SubmitStep(r));
            h == if !now.closed && (!now.attached || now.ready) then now.(toldTrue := now.toldTrue + 1)
                 else now.(toldFalse := now.toldFalse + 1, refused := now.refused + 1)
  {
    hide Refreshed;
  }

  /** Why a waiter is told False by one step: a close, a stopped server, or a reading at
      or past the deadline. */
  predicate Refuses(g: Gate, step: Step) {
    match step
    case CloseStep => true
    case RefreshStep(r) => r.shouldExit || Late(g, r.now)
    case SubmitStep(r) => r.shouldExit || Late(g, r.now)
    case WaitStep(r, again) => r.shouldExit || Late(g, r.now) || again.shouldExit || Late(g, again.now)
    case _ => false
  }

  lemma RefreshRefuses(g: Gate, r: Reading, f: nat)
    requires f in g.futures && g.futures[f] != Answered(false)
    ensures f in Refreshed(g, r).futures
    ensures Refreshed(g, r).futures[f] == Answered(false) ==> r.shouldExit || Late(g, r.now)
    ensures forall now: real | Late(Refreshed(g, r), now) :: Late(g, now)
  {
    if g.attached && !g.closed { RefreshMeans(g, r); } else { RefreshIdle(g, r); }
    hide Refreshed;
  }

  lemma StepRefuses(g: Gate, step: Step, f: nat)
    requires Inv(g) && f in g.futures && g.futures[f] != Answered(false)
    ensures f in Next(g, step).futures && (Next(g, step).futures[f] == Answered(false) ==> Refuses(g, step))
  {
    match step
    case RefreshStep(r) => RefreshRefuses(g, r, f);
    case SubmitStep(r) => RefreshRefuses(g, r, f);
    case WaitStep(r, again) => WaitRefuses(g, r, again, f);
    case _ => hide Refreshed;
  }

  lemma WaitRefuses(g: Gate, r: Reading, again: Reading, f: nat)
    requires Inv(g) && f in g.futures && g.futures[f] != Answered(false)
    ensures f in Wait(g, r, again).futures
    ensures Wait(g, r, again).futures[f] == Answered(false) ==> Refuses(g, WaitStep(r, again))
  {
    hide Refreshed, Inv, Late;
    RefreshRefuses(g, r, f);
    FutureIsNew(g, r);
    var h := Refreshed(g, r);
    RefreshKeepsFutures(h, again);
    if h.futures[f] != Answered(false) { RefreshRefuses(h, again, f); }
  }

  /** Over every interleaving: a waiter who was told False was told so by a close, by a
      stopped server, or at a reading at or past the deadline. */
  lemma {:induction false} RefusalHasCause(steps: seq<Step>, f: nat)
    requires f in Run(INITIAL, steps).futures && Run(INITIAL, steps).futures[f] == Answered(false)
    ensures exists k :: 0 <= k < |steps| && Refuses(Run(INITIAL, steps[..k]), steps[k])
  {
    var n := |steps| - 1;
    var g := Run(INITIAL, steps[..n]);
    RunSound(steps[..n]);
    if f !in g.futures {
      NewFutureIsHeld(g, steps[n], f);
      assert false;
    } else {
      if g.futures[f] == Answered(false) {
        RefusalHasCause(steps[..n], f);
        var k :| 0 <= k < n && Refuses(Run(INITIAL, steps[..n][..k]), steps[..n][k]);
        assert steps[..n][..k] == steps[..k];
      } else {
        StepRefuses(g, steps[n], f);
      }
    }
  }

  lemma NewFutureIsHeld(g: Gate, step: Step, f: nat)
    requires Inv(g) && f !in g.futures && f in Next(g, step).futures
    ensures Next(g, step).futures[f] == Held
  {
    hide Refreshed, Inv, HeldWaiters;
    match step
    case RefreshStep(r) => RefreshKeepsFutures(g, r);
    case SubmitStep(r) => RefreshKeepsFutures(g, r);
    case WaitStep(r, again) =>
      RefreshKeepsFutures(g, r);
      RefreshKeepsFutures(Refreshed(g, r), again);
    case _ =>
  }

  lemma RefreshKeepsFutures(g: Gate, r: Reading)
    ensures Refreshed(g, r).futures.Keys == g.futures.Keys
  {
    if g.attached && !g.closed { RefreshMeans(g, r); } else { RefreshIdle(g, r); }
    hide Refreshed;
  }

  /** And within the deadline nobody is: with no stop and no close, a waiter of a started
      gate is held through every refresh before start plus cap, until the server is up. */
  lemma HeldUntilDeadline(g: Gate, r: Reading, f: nat)
    requires g.attached && !g.closed && !r.shouldExit && !r.started && Waits(g, f)
    ensures Refreshed(g, r).futures[f] == Held <==>
            (g.ready || g.expired || g.startedAt == 0.0 || r.now < g.startedAt + g.cap)
  {
    RefreshMeans(g, r);
  }

  class ApiReadiness {
    var attached: bool
    var closed: bool
    var expired: bool
    var ready: bool
    var startedAt: real
    var cap: real
    var monitoring: bool
    var refused: nat
    var waiters: set<nat>
    var futures: map<nat, Future>
    var nextFuture: nat
    ghost var seenStarted: bool
    ghost var toldTrue: nat
    ghost var toldFalse: nat

    ghost function State(): Gate
      reads this
    {
      Gate(attached, closed, expired, ready, startedAt, cap, monitoring, refused, waiters, futures, nextFuture,
           seenStarted, toldTrue, toldFalse)
    }

    ghost predicate Valid()
      reads this
    {
      Inv(State())
    }

    constructor ()
      ensures State() == INITIAL && Valid()
    {
      attached, closed, expired, ready := false, false, false, false;
      startedAt, cap, monitoring, refused := 0.0, DEFAULT_CAP, false, 0;
      waiters, futures, nextFuture := {}, map[], 0;
      seenStarted, toldTrue, toldFalse := false, 0, 0;
      new;
      InitialSound();
    }

    method Attach()
      requires Valid()
      modifies this
      ensures State() == Next(old(State()), AttachStep) && Valid()
    {
      StepSound(State(), AttachStep);
      attached := true;
    }

    /** `start`: the cap read from the environment if it is a positive number, otherwise
        the default of ten minutes. */
    method Start(setting: Option<real>, now: real)
      requires Valid()
      modifies this
      ensures var chosen := if setting.Some? && setting.value > 0.0 then setting.value else 600.0;
              State() == Next(old(State()), StartStep(chosen, now)) && Valid()
    {
      var chosen := if setting.Some? && setting.value > 0.0 then setting.value else DEFAULT_CAP;
      StepSound(State(), StartStep(chosen, now));
      if !attached || monitoring || closed { return; }
      cap := chosen;
      startedAt := now;
      monitoring := true;
    }

    /** `future.set_result`: only ever called on a future nobody has answered. */
    method SetResult(f: nat, value: bool)
      requires f in futures && futures[f].Held?
      modifies this`futures
      ensures futures == old(futures)[f := Answered(value)]
    {
      futures := futures[f := Answered(value)];
    }

    /** The loop that answers every waiter not yet done. */
    method ResolveAll(value: bool)
      requires waiters <= futures.Keys
      modifies this`futures
      ensures State() == Resolved(old(State()), value)
    {
      var todo := set f | f in waiters && !futures[f].Answered? && !futures[f].Cancelled?;
      assert todo == HeldWaiters(State());
      ghost var held := todo;
      while todo != {}
        invariant todo <= held && futures.Keys == old(futures).Keys
        invariant forall f | f in todo :: futures[f].Held?
        invariant forall f | f in futures ::
                    futures[f] == if f in held && f !in todo then Answered(value) else old(futures)[f]
        decreases todo
      {
        var f :| f in todo;
        SetResult(f, value);
        todo := todo - {f};
      }
    }

    method RefuseWaiters()
      requires waiters <= futures.Keys
      modifies this`futures, this`refused
      ensures State() == Refused(old(State()))
    {
      var held := set f | f in waiters && futures[f].Held?;
      assert held == HeldWaiters(State());
      refused := refused + |held|;
      ResolveAll(false);
    }

    method CloseNow()
      requires Valid()
      modifies this
      ensures State() == Next(old(State()), CloseStep) && Valid()
    {
      CloseSound(State());
      if !closed {
        closed := true;
        RefuseWaiters();
      }
    }

    method Refresh(r: Reading)
      requires Valid()
      modifies this
      ensures State() == Next(old(State()), RefreshStep(r)) && Valid()
    {
      RefreshSound(State(), r);
      WaitersKnown(State());
      hide Core, NobodyStranded, Evolves;
      if closed || !attached { return; }
      if r.shouldExit {
        CloseNow();
        return;
      }
      if !ready && !expired && startedAt != 0.0 && r.now - startedAt >= cap {
        expired := true;
        RefuseWaiters();
      }
      if r.started {
        if !ready {
          ready := true;
          seenStarted := true;
          ResolveAll(true);
        }
      }
    }

    method CanSubmit(r: Reading) returns (answer: bool)
      requires Valid()
      modifies this
      ensures State() == Next(old(State()), SubmitStep(r)) && Valid()
      ensures answer <==> !closed && (!attached || ready)
      ensures answer ==> toldTrue == old(toldTrue) + 1 && toldFalse == old(toldFalse)
      ensures !answer ==> toldFalse == old(toldFalse) + 1 && toldTrue == old(toldTrue) && refused > old(refused)
    {
      hide Inv, Evolves, Refreshed, WithAnswer, HeldWaiters, Resolved;
      SubmitSound(State(), r);
      ToldCounts(State(), r);
      Refresh(r);
      if !closed && (!attached || ready) {
        toldTrue := toldTrue + 1;
        return true;
      }
      refused := refused + 1;
      toldFalse := toldFalse + 1;
      return false;
    }

    /** `wait` up to its await: an answer now, or the future to await. */
    method WaitFor(r: Reading, again: Reading) returns (answer: Option<bool>, held: nat)
      requires Valid()
      modifies this
      ensures State() == Next(old(State()), WaitStep(r, again)) && Valid()
      ensures answer.Some? ==> (answer.value <==> Open(State()))
      ensures answer.None? ==> held in futures && futures[held].Held? && held in waiters && held !in old(futures)
    {
      hide Inv, Evolves, Refreshed, Submit, WithAnswer, HeldWaiters, Resolved;
      WaitSound(State(), r, again);
      FutureIsNew(State(), r);
      Refresh(r);
      held := 0;
      if !closed && (!attached || ready) {
        toldTrue := toldTrue + 1;
        return Some(true), held;
      }
      if closed || expired {
        var late := CanSubmit(again);
        return Some(late), held;
      }
      held := nextFuture;
      futures := futures[held := Held];
      nextFuture := nextFuture + 1;
      waiters := waiters + {held};
      answer := None;
    }

    method CancelWait(f: nat)
      requires Valid()
      modifies this
      ensures State() == Next(old(State()), CancelStep(f)) && Valid()
    {
      CancelSound(State(), f);
      if f in futures && futures[f].Held? {
        futures := futures[f := Cancelled];
      }
    }

    method LeaveWait(f: nat)
      requires Valid()
      modifies this
      ensures State() == Next(old(State()), LeaveStep(f)) && Valid()
    {
      LeaveSound(State(), f);
      if f in futures && !futures[f].Held? {
        waiters := waiters - {f};
      }
    }
  }

  lemma WaitersKnown(g: Gate)
    requires Inv(g)
    ensures g.waiters <= g.futures.Keys
  {
  }

  lemma FutureIsNew(g: Gate, r: Reading)
    requires Inv(g)
    ensures Refreshed(g, r).nextFuture == g.nextFuture && g.nextFuture !in g.futures
  {
  }

  lemma ToldCounts(g: Gate, r: Reading)
    requires Inv(g)
    ensures Refreshed(g, r).toldTrue == g.toldTrue && Refreshed(g, r).toldFalse == g.toldFalse
    ensures Refreshed(g, r).refused >= g.refused
  {
  }
}
