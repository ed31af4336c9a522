/**
 `AgentComms`: `_send` checks that a parent exists, and `get_thread` walks up at
 most fifty parents and then takes the recursive closure of the children.
 */
module MessageThreads {
  import opened Prelude
  import opened FiniteSets

  datatype Message = Message(parent: Option<nat>, sender: string, recipient: string, content: string, timestamp: real)

  type Messages = map<nat, Message>

  const WALK_LIMIT := 50

  /** The parent the upward walk follows: a NULL or zero reference ends it. */
  function WalkParent(t: Messages, m: nat): Option<nat> {
    if m in t && t[m].parent.Some? && t[m].parent.value != 0 then t[m].parent else None
  }

  function WalkUp(t: Messages, m: nat, steps: nat): nat
    decreases steps
  {
    if steps == 0 || WalkParent(t, m).None? then m else WalkUp(t, WalkParent(t, m).value, steps - 1)
  }

  /** The walk stays at an unknown id, at a message without a parent, and at a zero
      reference; otherwise it goes to the parent, known or not. */
  lemma WalkMeans(t: Messages, m: nat, steps: nat)
    ensures WalkUp(t, m, 0) == m
    ensures m !in t || t[m].parent.None? || t[m].parent == Some(0) ==> WalkUp(t, m, steps) == m
    ensures m in t && t[m].parent.Some? && t[m].parent.value > 0 ==>
              WalkUp(t, m, steps + 1) == WalkUp(t, t[m].parent.value, steps)
  {
  }

  /** The message n replies above d, if every message on the way exists. */
  function Ancestor(t: Messages, d: nat, n: nat): Option<nat>
    decreases n
  {
    if d !in t then None
    else if n == 0 then Some(d)
    else if t[d].parent.None? then None
    else Ancestor(t, t[d].parent.value, n - 1)
  }

  ghost predicate Descends(t: Messages, d: nat, r: nat) {
    exists n: nat :: Ancestor(t, d, n) == Some(r)
  }

  /** The tree under r. */
  ghost function Tree(t: Messages, r: nat): set<nat> {
    set d | d in t && Descends(t, d, r)
  }

  predicate IsChild(t: Messages, c: nat, p: nat) {
    c in t && t[c].parent == Some(p)
  }

  // ---------------------------------------------------------------------
  // The closure query, over any parent map at all
  // ---------------------------------------------------------------------

  lemma ChildDescends(t: Messages, c: nat, p: nat, r: nat)
    requires IsChild(t, c, p) && Descends(t, p, r)
    ensures Descends(t, c, r)
  {
    var n: nat :| Ancestor(t, p, n) == Some(r);
    assert Ancestor(t, c, n + 1) == Some(r);
  }

  /** A set with the root and all children of its members holds the whole tree. */
  lemma {:induction false} ClosedHoldsTree(t: Messages, r: nat, s: set<nat>, d: nat, n: nat)
    requires r in s
    requires forall c, p | IsChild(t, c, p) && p in s :: c in s
    requires Ancestor(t, d, n) == Some(r)
    ensures d in s
    decreases n
  {
    if n > 0 {
      var p := t[d].parent.value;
      ClosedHoldsTree(t, r, s, p, n - 1);
      assert IsChild(t, d, p);
    }
  }

  /** The recursive query: it ends on every table, cyclic ones included. */
  method Closure(t: Messages, root: nat) returns (found: set<nat>)
    ensures found == Tree(t, root)
  {
    found := if root in t then {root} else {};
    if root in t { assert Ancestor(t, root, 0) == Some(root); }
    var frontier := found;
    while frontier != {}
      invariant frontier <= found <= t.Keys
      invariant root in t ==> root in found
      invariant forall d | d in found :: Descends(t, d, root)
      invariant forall c, p | IsChild(t, c, p) && p in found && p !in frontier :: c in found
      decreases t.Keys - found, frontier != {}
    {
      var next := set c | c in t && t[c].parent.Some? && t[c].parent.value in frontier && c !in found;
      forall c | c in next ensures Descends(t, c, root) {
        ChildDescends(t, c, t[c].parent.value, root);
      }
      if next != {} {
        var c :| c in next;
        assert c in t.Keys - found;
      }
      found := found + next;
      frontier := next;
    }
    forall d | d in Tree(t, root) ensures d in found {
      var n: nat :| Ancestor(t, d, n) == Some(root);
      RootExists(t, d, n, root);
      ClosedHoldsTree(t, root, found, d, n);
    }
  }

  lemma {:induction false} RootExists(t: Messages, d: nat, n: nat, r: nat)
    requires Ancestor(t, d, n) == Some(r)
    ensures r in t
    decreases n
  {
    if n > 0 { RootExists(t, t[d].parent.value, n - 1, r); }
  }

  /** The walk really follows replies, so its end is an ancestor if it exists. */
  lemma {:induction false} WalkIsAncestor(t: Messages, m: nat, steps: nat)
    requires m in t
    ensures WalkUp(t, m, steps) in t ==> Descends(t, m, WalkUp(t, m, steps))
    decreases steps
  {
    if steps == 0 || WalkParent(t, m).None? {
      assert Ancestor(t, m, 0) == Some(m);
    } else {
      var p := WalkParent(t, m).value;
      assert WalkUp(t, m, steps) == WalkUp(t, p, steps - 1);
      assert IsChild(t, m, p);
      if p in t {
        WalkIsAncestor(t, p, steps - 1);
        if WalkUp(t, m, steps) in t { ChildDescends(t, m, p, WalkUp(t, m, steps)); }
      }
    }
  }

  // ---------------------------------------------------------------------
  // The forest `_send` keeps
  // ---------------------------------------------------------------------

  predicate Forest(t: Messages, nextId: nat) {
    nextId >= 1 &&
    forall m | m in t :: 1 <= m < nextId && (t[m].parent.Some? ==> t[m].parent.value in t && t[m].parent.value < m)
  }

  function Depth(t: Messages, nextId: nat, m: nat): nat
    requires Forest(t, nextId) && m in t
    decreases m
  {
    if t[m].parent.None? then 0 else 1 + Depth(t, nextId, t[m].parent.value)
  }

  function Root(t: Messages, nextId: nat, m: nat): (r: nat)
    requires Forest(t, nextId) && m in t
    ensures r in t && t[r].parent.None? && r <= m
    decreases m
  {
    if t[m].parent.None? then m else Root(t, nextId, t[m].parent.value)
  }

  /** In a forest the walk stays on existing messages, and reaches the true root
      exactly when the message is at most that deep. */
  lemma {:induction false} WalkReachesRootIff(t: Messages, nextId: nat, m: nat, steps: nat)
    requires Forest(t, nextId) && m in t
    ensures WalkUp(t, m, steps) in t
    ensures WalkUp(t, m, steps) == Root(t, nextId, m) <==> Depth(t, nextId, m) <= steps
    ensures Root(t, nextId, WalkUp(t, m, steps)) == Root(t, nextId, m)
    decreases steps
  {
    if t[m].parent.Some? && steps > 0 {
      WalkReachesRootIff(t, nextId, t[m].parent.value, steps - 1);
    }
  }

  lemma {:induction false} AncestorsAreOlder(t: Messages, nextId: nat, d: nat, n: nat)
    requires Forest(t, nextId) && Ancestor(t, d, n).Some?
    ensures Ancestor(t, d, n).value <= d
    ensures Ancestor(t, d, n).value == d <==> n == 0
    decreases n
  {
    if n > 0 { AncestorsAreOlder(t, nextId, t[d].parent.value, n - 1); }
  }

  lemma {:induction false} RootIsAncestor(t: Messages, nextId: nat, m: nat)
    requires Forest(t, nextId) && m in t
    ensures Ancestor(t, m, Depth(t, nextId, m)) == Some(Root(t, nextId, m))
    decreases m
  {
    if t[m].parent.Some? { RootIsAncestor(t, nextId, t[m].parent.value); }
  }

  /** The thread `get_thread` returns. */
  ghost function Thread(t: Messages, m: nat): set<nat> {
    Tree(t, WalkUp(t, m, WALK_LIMIT))
  }

  /** A message is always in its own thread; the thread is the whole tree exactly
      when the message is at most fifty replies deep. */
  lemma ThreadOfMessage(t: Messages, nextId: nat, m: nat)
    requires Forest(t, nextId) && m in t
    ensures m in Thread(t, m)
    ensures Thread(t, m) == Tree(t, Root(t, nextId, m)) <==> Depth(t, nextId, m) <= WALK_LIMIT
  {
    var top, root := WalkUp(t, m, WALK_LIMIT), Root(t, nextId, m);
    WalkReachesRootIff(t, nextId, m, WALK_LIMIT);
    WalkIsAncestor(t, m, WALK_LIMIT);
    if top != root {
      assert root in Tree(t, root) by { assert Ancestor(t, root, 0) == Some(root); }
      if Descends(t, root, top) {
        var n: nat :| Ancestor(t, root, n) == Some(top);
        AncestorsAreOlder(t, nextId, root, n);
      }
      assert root !in Thread(t, m);
    }
  }

  /** All messages of one tree see the same thread while it is at most fifty deep. */
  lemma SameTreeSameThread(t: Messages, nextId: nat, m: nat, other: nat)
    requires Forest(t, nextId) && m in t && other in t
    requires Depth(t, nextId, m) <= WALK_LIMIT && Depth(t, nextId, other) <= WALK_LIMIT
    ensures Thread(t, m) == Thread(t, other) <==> Root(t, nextId, m) == Root(t, nextId, other)
  {
    ThreadOfMessage(t, nextId, m);
    ThreadOfMessage(t, nextId, other);
    var a, b := Root(t, nextId, m), Root(t, nextId, other);
    if Thread(t, m) == Thread(t, other) {
      assert a in Tree(t, a) by { assert Ancestor(t, a, 0) == Some(a); }
      assert b in Tree(t, b) by { assert Ancestor(t, b, 0) == Some(b); }
      var n: nat :| Ancestor(t, a, n) == Some(b);
      AncestorsAreOlder(t, nextId, a, n);
      var k: nat :| Ancestor(t, b, k) == Some(a);
      AncestorsAreOlder(t, nextId, b, k);
    }
  }

  /** On a table `_send` did not build, a message is in its own thread exactly when
      the walk did not end on a missing parent; it never loops either way. */
  lemma InOwnThreadIff(t: Messages, m: nat)
    requires m in t
    ensures m in Thread(t, m) <==> WalkUp(t, m, WALK_LIMIT) in t
  {
    var top := WalkUp(t, m, WALK_LIMIT);
    WalkIsAncestor(t, m, WALK_LIMIT);
    if m in Thread(t, m) {
      var n: nat :| Ancestor(t, m, n) == Some(top);
      RootExists(t, m, n, top);
    }
  }

  function Sent(t: Messages, id: nat, msg: Message): Messages { t[id := msg] }

  /** The table and the next id after some sends, refused ones included. */
  function AfterSends(msgs: seq<Message>): (Messages, nat) {
    if msgs == [] then (map[], 1)
    else
      var (t, id) := AfterSends(msgs[..|msgs|-1]);
      var msg := msgs[|msgs|-1];
      if msg.parent.Some? && msg.parent.value !in t then (t, id) else (Sent(t, id, msg), id + 1)
  }

  /** What any senders build is a forest, so the theorems above are about it. */
  lemma {:induction false} SendsBuildForest(msgs: seq<Message>)
    ensures Forest(AfterSends(msgs).0, AfterSends(msgs).1)
  {
    if msgs != [] { SendsBuildForest(msgs[..|msgs|-1]); }
  }

  function Link(m: nat): Message { Message(if m <= 1 then None else Some(m - 1), "", "", "", 0.0) }

  /** A chain of n messages, each a reply to the one before. */
  function Chain(n: nat): Messages {
    map m: nat | 1 <= m <= n :: Link(m)
  }

  function ChainMessages(n: nat): seq<Message> { seq(n, k requires 0 <= k < n => Link(k + 1)) }

  /** Sending the links one after the other builds the chain. */
  lemma {:induction false} ChainIsSent(n: nat)
    ensures AfterSends(ChainMessages(n)) == (Chain(n), n + 1)
  {
    if n == 0 {
      assert Chain(0) == map[];
    } else {
      ChainIsSent(n - 1);
      assert ChainMessages(n)[..n - 1] == ChainMessages(n - 1);
      assert Sent(Chain(n - 1), n, Link(n)) == Chain(n);
    }
  }

  lemma {:induction false} ChainDepth(n: nat, m: nat)
    requires 1 <= m <= n
    ensures Forest(Chain(n), n + 1) && Depth(Chain(n), n + 1, m) == m - 1 && Root(Chain(n), n + 1, m) == 1
  {
    if m > 1 { ChainDepth(n, m - 1); }
  }

  /** Fifty-two sends, each a reply to the last: message 52 sits 51 replies deep and its
      thread leaves out the root that message 51 still sees. */
  lemma LongChainSplits()
    ensures var t := AfterSends(ChainMessages(52)).0;
            Thread(t, 52) != Thread(t, 51) == Tree(t, 1)
  {
    ChainIsSent(52);
    ChainDepth(52, 52);
    ChainDepth(52, 51);
    ThreadOfMessage(Chain(52), 53, 52);
    ThreadOfMessage(Chain(52), 53, 51);
  }

  /** On any table a thread is empty exactly when the walk ends on an unknown id: an
      unknown message asked for, or a foreign row whose parent is missing. */
  lemma ThreadEmptyIff(t: Messages, m: nat)
    ensures Thread(t, m) == {} <==> WalkUp(t, m, WALK_LIMIT) !in t
  {
    var top := WalkUp(t, m, WALK_LIMIT);
    if top in t {
      assert Ancestor(t, top, 0) == Some(top);
      assert top in Thread(t, m);
    } else {
      forall d, n: nat | d in t ensures Ancestor(t, d, n) != Some(top) {
        if Ancestor(t, d, n) == Some(top) { RootExists(t, d, n, top); }
      }
    }
  }

  /** After any sends, exactly the unknown ids have an empty thread. */
  lemma SentThreadEmptyIff(msgs: seq<Message>, m: nat)
    ensures Thread(AfterSends(msgs).0, m) == {} <==> m !in AfterSends(msgs).0
  {
    var (t, nextId) := AfterSends(msgs);
    SendsBuildForest(msgs);
    ThreadEmptyIff(t, m);
    if m in t {
      WalkReachesRootIff(t, nextId, m, WALK_LIMIT);
    }
  }

  /** A new reply joins exactly the trees its parent is in. */
  lemma ReplyJoinsParentTrees(t: Messages, nextId: nat, msg: Message, r: nat)
    requires Forest(t, nextId) && r in t
    requires msg.parent.Some? ==> msg.parent.value in t
    ensures Forest(Sent(t, nextId, msg), nextId + 1)
    ensures Tree(Sent(t, nextId, msg), r) ==
            Tree(t, r) + (if msg.parent.Some? && msg.parent.value in Tree(t, r) then {nextId} else {})
  {
    var after := Sent(t, nextId, msg);
    forall d | d in t ensures Descends(after, d, r) <==> Descends(t, d, r) {
      forall n: nat ensures Ancestor(after, d, n) == Ancestor(t, d, n) { OldAncestors(t, nextId, msg, d, n); }
      if Descends(t, d, r) { var n: nat :| Ancestor(t, d, n) == Some(r); assert Ancestor(after, d, n) == Some(r); }
      if Descends(after, d, r) { var n: nat :| Ancestor(after, d, n) == Some(r); assert Ancestor(t, d, n) == Some(r); }
    }
    if msg.parent.Some? {
      var p := msg.parent.value;
      assert IsChild(after, nextId, p);
      if p in Tree(t, r) { ChildDescends(after, nextId, p, r); }
      if Descends(after, nextId, r) {
        var n: nat :| Ancestor(after, nextId, n) == Some(r);
        assert n > 0 && Ancestor(after, p, n - 1) == Some(r);
      }
    } else {
      assert forall n: nat :: Ancestor(after, nextId, n) != Some(r);
    }
  }

  lemma {:induction false} OldAncestors(t: Messages, nextId: nat, msg: Message, d: nat, n: nat)
    requires Forest(t, nextId) && d in t
    ensures Ancestor(Sent(t, nextId, msg), d, n) == Ancestor(t, d, n)
    decreases n
  {
    if n > 0 && t[d].parent.Some? { OldAncestors(t, nextId, msg, t[d].parent.value, n - 1); }
  }

  class AgentComms {
    var messages: Messages
    var nextId: nat

    predicate Valid()
      reads this
    {
      Forest(messages, nextId)
    }

    constructor ()
      ensures Valid() && messages == map[] && nextId == 1
    {
      messages, nextId := map[], 1;
    }

    /** `_send`: a parent must reference an existing message. */
    method Send(msg: Message) returns (r: Result<nat>)
      requires Valid()
      modifies this
      ensures Valid()
      ensures r.Err? <==> msg.parent.Some? && msg.parent.value !in old(messages)
      ensures r.Err? ==> messages == old(messages) && nextId == old(nextId)
      ensures r.Ok? ==> r.value == old(nextId) && r.value !in old(messages)
      ensures r.Ok? ==> messages == Sent(old(messages), r.value, msg) && nextId == old(nextId) + 1
      ensures r.Ok? ==> messages.Keys == old(messages).Keys + {r.value} && messages[r.value] == msg
      ensures r.Ok? ==> forall m | m in old(messages) :: messages[m] == old(messages)[m]
    {
      if msg.parent.Some? && msg.parent.value !in messages {
        return Err("parent_message_id does not reference an existing message");
      }
      r := Ok(nextId);
      messages := messages[nextId := msg];
      nextId := nextId + 1;
    }

    /** `get_thread` without a session filter. */
    method GetThread(messageId: nat) returns (list: seq<nat>)
      ensures forall m :: m in list <==> m in Thread(messages, messageId)
      ensures forall m | m in list :: m in messages
      ensures forall i, j | 0 <= i < j < |list| ::
                list[i] in messages && list[j] in messages && list[i] != list[j] &&
                messages[list[i]].timestamp <= messages[list[j]].timestamp
    {
      var rootId := messageId;
      var steps := 0;
      while steps < WALK_LIMIT
        invariant steps <= WALK_LIMIT
        invariant WalkUp(messages, messageId, WALK_LIMIT) == WalkUp(messages, rootId, WALK_LIMIT - steps)
      {
        if rootId !in messages || messages[rootId].parent.None? || messages[rootId].parent.value == 0 {
          break;
        }
        rootId := messages[rootId].parent.value;
        steps := steps + 1;
      }
      var found := Closure(messages, rootId);
      list := SortByTime(messages, found);
    }
  }

  function ByTime(t: Messages): (nat, nat) -> bool {
    (i, j) => i in t && j in t && t[i].timestamp <= t[j].timestamp
  }

  /** ORDER BY timestamp ASC, each row once. */
  method SortByTime(t: Messages, ids: set<nat>) returns (list: seq<nat>)
    requires ids <= t.Keys
    ensures forall m :: m in list <==> m in ids
    ensures forall i, j | 0 <= i < j < |list| ::
              list[i] in t && list[j] in t && list[i] != list[j] && t[list[i]].timestamp <= t[list[j]].timestamp
  {
    list := SortSet(ids, ByTime(t));
    assert Sorted(list, ByTime(t));
    forall i, j | 0 <= i < j < |list|
      ensures list[i] in t && list[j] in t && list[i] != list[j] && t[list[i]].timestamp <= t[list[j]].timestamp
    {
      assert ByTime(t)(list[i], list[j]);
    }
  }
}
