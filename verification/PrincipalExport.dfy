/**
 `export_messaging_continuity`: the chats an agent talks to, merged from the
 approval table, the group table, undelivered messages and the record of chats
 active when the old lease stopped. One proposal per chat.
 */
module PrincipalExport {
  import opened Prelude
  import opened FiniteSets
  import opened PyText

  datatype Approved = Approved(chatId: string, displayName: string, status: string, approvedBy: string)
  datatype Group = Group(chatId: string, platform: string, title: string, alias: string, chatType: string, active: bool)
  datatype Pending = Pending(chatId: string, delivered: bool)

  /** One `activeChats` entry; a missing title is "". */
  datatype LeaseChat = LeaseChat(chatId: string, platform: Option<string>, title: string, isGroup: bool)
  datatype LeaseStop = NoRecord | NoChatList | Record(chats: seq<LeaseChat>)

  datatype Tables = Tables(approved: seq<Approved>, groups: seq<Group>, pending: seq<Pending>)

  datatype PlatformSource = GroupTable | IdShape | Unresolved | FromLeaseStop
  datatype Gate = ApprovedUsers | GroupChats | PendingMessages | LeaseStopOnly
  datatype LeaseNote =
    | NotCompared | OnlyInLeaseStop | AbsentAtLeaseStop | Confirmed
    | ResolvedByLeaseStop | PlatformConflict(v2: string, lease: string)

  datatype Proposal = Proposal(
    id: string, platform: string, source: PlatformSource, name: string, status: string,
    approvedBy: string, isGroup: bool, held: nat, gate: Gate, note: LeaseNote)

  // ---------------------------------------------------------------------
  // Platforms and source keys
  // ---------------------------------------------------------------------

  predicate Digits(s: string) { forall i | 0 <= i < |s| :: '0' <= s[i] <= '9' }

  /** The id-shape heuristic; None is unresolved. */
  function ShapePlatform(id: string): Option<string> {
    var text := Strip(id);
    if text == "web" || text == "admin" then Some("web")
    else if 2 <= |text| <= 17 && text[0] == '-' && Digits(text[1..]) then Some("telegram")
    else if 17 <= |text| <= 20 && Digits(text) then Some("discord")
    else if 1 <= |text| <= 13 && Digits(text) then Some("telegram")
    else None
  }

  function GroupOf(groups: seq<Group>, id: string): Option<Group> {
    if groups == [] then None
    else if groups[|groups|-1].chatId == id then Some(groups[|groups|-1])
    else GroupOf(groups[..|groups|-1], id)
  }

  function ResolvePlatform(groups: seq<Group>, id: string): (string, PlatformSource) {
    match GroupOf(groups, id)
    case Some(g) => (g.platform, GroupTable)
    case None =>
      match ShapePlatform(id)
      case Some(platform) => (platform, IdShape)
      case None => ("unknown", Unresolved)
  }

  predicate SafeChar(c: char) {
    'A' <= c <= 'Z' || 'a' <= c <= 'z' || '0' <= c <= '9' || c in "._:@-"
  }

  predicate SafeKey(id: string) {
    1 <= |id| <= 80 && forall i | 0 <= i < |id| :: SafeChar(id[i])
  }

  /** `_principal_key_component`; `digest` is the shortened SHA-256. */
  function KeyComponent(digest: string -> string, id: string): string {
    if SafeKey(id) then "raw-" + id else "sha256-" + digest(id)
  }

  function SourceKey(agent: string, digest: string -> string, id: string): string {
    "inventory:connector-principal:" + agent + ":" + KeyComponent(digest, id)
  }

  lemma CutPrefix(prefix: string, a: string, b: string)
    ensures prefix + a == prefix + b <==> a == b
  {
    assert (prefix + a)[|prefix|..] == a && (prefix + b)[|prefix|..] == b;
  }

  /** Two chats share a source key only when both are hashed and their digests collide. */
  lemma KeysCollideIff(agent: string, digest: string -> string, a: string, b: string)
    ensures SourceKey(agent, digest, a) == SourceKey(agent, digest, b) <==>
            (a == b || (!SafeKey(a) && !SafeKey(b) && digest(a) == digest(b)))
  {
    CutPrefix("inventory:connector-principal:" + agent + ":", KeyComponent(digest, a), KeyComponent(digest, b));
    CutPrefix("raw-", a, b);
    CutPrefix("sha256-", digest(a), digest(b));
    assert ("raw-" + a)[0] == 'r' && ("raw-" + b)[0] == 'r';
    assert ("sha256-" + digest(a))[0] == 's' && ("sha256-" + digest(b))[0] == 's';
  }

  // ---------------------------------------------------------------------
  // What the proposals should be
  // ---------------------------------------------------------------------

  function HeldFor(pending: seq<Pending>, id: string): nat {
    if pending == [] then 0
    else
      var last := pending[|pending|-1];
      HeldFor(pending[..|pending|-1], id) + (if last.chatId == id && !last.delivered then 1 else 0)
  }

  function Undelivered(pending: seq<Pending>): nat {
    if pending == [] then 0
    else Undelivered(pending[..|pending|-1]) + (if pending[|pending|-1].delivered then 0 else 1)
  }

  function ApprovedIds(rows: seq<Approved>): set<string> { set a | a in rows :: a.chatId }
  function ActiveIds(groups: seq<Group>): set<string> { set g | g in groups && g.active :: g.chatId }
  function HeldIds(pending: seq<Pending>): set<string> { set m | m in pending && !m.delivered :: m.chatId }
  function LeaseIds(chats: seq<LeaseChat>): set<string> { set c | c in chats :: Strip(c.chatId) }

  /** The chats V2's own tables know. */
  function TableIds(t: Tables): set<string> { ApprovedIds(t.approved) + ActiveIds(t.groups) + HeldIds(t.pending) }

  /** `UNIQUE(agent_name, chat_id)` on both tables. */
  predicate UniqueChats(t: Tables) {
    (forall i, j | 0 <= i < j < |t.approved| :: t.approved[i].chatId != t.approved[j].chatId) &&
    (forall i, j | 0 <= i < j < |t.groups| :: t.groups[i].chatId != t.groups[j].chatId)
  }

  function OrElse(a: string, b: string): string { if a != "" then a else b }

  function OfApproved(t: Tables, a: Approved): Proposal {
    var (platform, source) := ResolvePlatform(t.groups, a.chatId);
    var meta := GroupOf(t.groups, a.chatId);
    Proposal(
      a.chatId, platform, source, OrElse(a.displayName, if meta.Some? then meta.value.title else ""),
      a.status, a.approvedBy, meta.Some? && meta.value.chatType != "dm",
      HeldFor(t.pending, a.chatId), ApprovedUsers, NotCompared)
  }

  function OfGroup(t: Tables, g: Group): Proposal {
    Proposal(
      g.chatId, g.platform, GroupTable, OrElse(g.title, g.alias), "group-active-without-gate-row", "", true,
      HeldFor(t.pending, g.chatId), GroupChats, NotCompared)
  }

  function OfHeld(t: Tables, id: string): Proposal {
    var (platform, source) := ResolvePlatform(t.groups, id);
    Proposal(
      id, platform, source, "", "pending-inbound-without-gate-row", "", false,
      HeldFor(t.pending, id), PendingMessages, NotCompared)
  }

  function OfLease(t: Tables, c: LeaseChat): Proposal {
    Proposal(
      Strip(c.chatId), if c.platform.Some? then c.platform.value else "unknown", FromLeaseStop, c.title,
      "active-without-v2-state", "", c.isGroup,
      HeldFor(t.pending, Strip(c.chatId)), LeaseStopOnly, NotCompared)
  }

  /** The row each chat deserves: the gate table wins over the group table over held mail over the record. */
  predicate Deserved(t: Tables, chats: seq<LeaseChat>, p: Proposal) {
    if p.id in ApprovedIds(t.approved) then exists a :: a in t.approved && p == OfApproved(t, a)
    else if p.id in ActiveIds(t.groups) then exists g :: g in t.groups && g.active && p == OfGroup(t, g)
    else if p.id in HeldIds(t.pending) then p == OfHeld(t, p.id)
    else exists k | 0 <= k < |chats| :: FirstMention(chats, k, p.id) && p == OfLease(t, chats[k])
  }

  predicate FirstMention(chats: seq<LeaseChat>, k: nat, id: string) {
    k < |chats| && Strip(chats[k].chatId) == id && forall j | 0 <= j < k :: Strip(chats[j].chatId) != id
  }

  /** The last mention of each chat in the record. */
  function LastMention(chats: seq<LeaseChat>, id: string): Option<LeaseChat> {
    if chats == [] then None
    else if Strip(chats[|chats|-1].chatId) == id then Some(chats[|chats|-1])
    else LastMention(chats[..|chats|-1], id)
  }

  function LeasePlatform(c: LeaseChat): string { if c.platform.Some? then Strip(c.platform.value) else "" }

  /** How a proposal is settled against the record. */
  function Settled(chats: seq<LeaseChat>, p: Proposal): Proposal {
    if p.gate.LeaseStopOnly? then p.(note := OnlyInLeaseStop)
    else
      match LastMention(chats, p.id)
      case None => p.(note := AbsentAtLeaseStop)
      case Some(c) =>
        var said := LeasePlatform(c);
        var q := p.(name := OrElse(p.name, c.title));
        if said == "" then q.(note := Confirmed)
        else if p.source.Unresolved? then q.(platform := said, source := FromLeaseStop, note := ResolvedByLeaseStop)
        else if p.platform != said then q.(note := PlatformConflict(p.platform, said))
        else q.(note := Confirmed)
  }

  predicate DistinctIds(ps: seq<Proposal>) { forall i, j | 0 <= i < j < |ps| :: ps[i].id != ps[j].id }

  function HeldTotal(ps: seq<Proposal>): nat {
    if ps == [] then 0 else HeldTotal(ps[..|ps|-1]) + ps[|ps|-1].held
  }

  // ---------------------------------------------------------------------
  // The export
  // ---------------------------------------------------------------------

  function IdsOf(ps: seq<Proposal>): set<string> { set p | p in ps :: p.id }

  /** One row per chat, each the row that chat deserves. */
  predicate Good(t: Tables, chats: seq<LeaseChat>, ps: seq<Proposal>) {
    DistinctIds(ps) && forall p | p in ps :: Deserved(t, chats, p)
  }

  lemma Added(t: Tables, chats: seq<LeaseChat>, ps: seq<Proposal>, p: Proposal)
    requires Good(t, chats, ps) && p.id !in IdsOf(ps) && Deserved(t, chats, p)
    ensures Good(t, chats, ps + [p]) && IdsOf(ps + [p]) == IdsOf(ps) + {p.id}
  {
  }

  /** Rows of the gate table. */
  method FromApproved(t: Tables, ghost chats: seq<LeaseChat>) returns (ps: seq<Proposal>)
    requires UniqueChats(t)
    ensures Good(t, chats, ps) && IdsOf(ps) == ApprovedIds(t.approved)
  {
    ps := [];
    for i := 0 to |t.approved|
      invariant |ps| == i && forall k | 0 <= k < i :: ps[k].id == t.approved[k].chatId
      invariant Good(t, chats, ps) && IdsOf(ps) == ApprovedIds(t.approved[..i])
    {
      hide Good, Deserved, DistinctIds;
      var row := t.approved[i];
      ApprovedRow(t, chats, i);
      hide ApprovedIds, ResolvePlatform, GroupOf, HeldFor;
      Added(t, chats, ps, OfApproved(t, row));
      ps := ps + [OfApproved(t, row)];
    }
    assert t.approved[..|t.approved|] == t.approved;
  }

  lemma ApprovedRow(t: Tables, chats: seq<LeaseChat>, i: nat)
    requires UniqueChats(t) && i < |t.approved|
    ensures ApprovedIds(t.approved[..i+1]) == ApprovedIds(t.approved[..i]) + {t.approved[i].chatId}
    ensures t.approved[i].chatId !in ApprovedIds(t.approved[..i])
    ensures Deserved(t, chats, OfApproved(t, t.approved[i]))
  {
  }

  /** Active groups the gate table never recorded. */
  method AddGroups(t: Tables, ghost chats: seq<LeaseChat>, before: seq<Proposal>) returns (ps: seq<Proposal>)
    requires UniqueChats(t) && Good(t, chats, before) && IdsOf(before) == ApprovedIds(t.approved)
    ensures Good(t, chats, ps) && IdsOf(ps) == ApprovedIds(t.approved) + ActiveIds(t.groups)
  {
    ps := before;
    for i := 0 to |t.groups|
      invariant Good(t, chats, ps) && IdsOf(ps) == ApprovedIds(t.approved) + ActiveIds(t.groups[..i])
    {
      hide Good, Deserved, DistinctIds, IdsOf;
      var row := t.groups[i];
      GroupRow(t, chats, i);
      if row.chatId !in ApprovedIds(t.approved) && row.active {
        hide ApprovedIds, ActiveIds;
        Added(t, chats, ps, OfGroup(t, row));
        ps := ps + [OfGroup(t, row)];
      }
    }
    assert t.groups[..|t.groups|] == t.groups;
  }

  lemma GroupRow(t: Tables, chats: seq<LeaseChat>, i: nat)
    requires UniqueChats(t) && i < |t.groups|
    ensures ActiveIds(t.groups[..i+1]) ==
            ActiveIds(t.groups[..i]) + if t.groups[i].active then {t.groups[i].chatId} else {}
    ensures t.groups[i].chatId !in ActiveIds(t.groups[..i])
    ensures t.groups[i].chatId !in ApprovedIds(t.approved) && t.groups[i].active ==>
              Deserved(t, chats, OfGroup(t, t.groups[i]))
  {
  }

  /** Undelivered messages whose chat has no row yet, in id order. */
  method AddHeld(t: Tables, ghost chats: seq<LeaseChat>, before: seq<Proposal>) returns (ps: seq<Proposal>)
    requires Good(t, chats, before) && IdsOf(before) == ApprovedIds(t.approved) + ActiveIds(t.groups)
    ensures Good(t, chats, ps) && IdsOf(ps) == TableIds(t)
  {
    ps := before;
    var covered := IdsOf(before);
    var held := SortStrings(HeldIds(t.pending));
    for i := 0 to |held|
      invariant Good(t, chats, ps)
      invariant IdsOf(ps) == covered + Members(held[..i])
    {
      hide Good, DistinctIds, IdsOf, ApprovedIds, ActiveIds, HeldIds;
      OneMoreMember(held, i);
      if held[i] !in covered {
        Added(t, chats, ps, OfHeld(t, held[i]));
        ps := ps + [OfHeld(t, held[i])];
      }
    }
    assert Members(held[..|held|]) == HeldIds(t.pending);
  }

  function Members(ids: seq<string>): set<string> { set id | id in ids }

  lemma OneMoreMember(ids: seq<string>, i: nat)
    requires i < |ids| && forall j | 0 <= j < i :: ids[j] != ids[i]
    ensures ids[i] in ids && ids[i] !in Members(ids[..i])
    ensures Members(ids[..i+1]) == Members(ids[..i]) + {ids[i]}
  {
    assert ids[..i+1] == ids[..i] + [ids[i]];
  }

  /** Chats active at lease stop that no V2 table knows; a blank id refuses the record. */
  method AddLeaseChats(t: Tables, chats: seq<LeaseChat>, before: seq<Proposal>) returns (ok: bool, ps: seq<Proposal>)
    requires Good(t, chats, before) && IdsOf(before) == TableIds(t)
    ensures ok <==> "" !in LeaseIds(chats)
    ensures ok ==> Good(t, chats, ps) && IdsOf(ps) == TableIds(t) + LeaseIds(chats)
  {
    ps := before;
    for i := 0 to |chats|
      invariant "" !in LeaseIds(chats[..i])
      invariant Good(t, chats, ps) && IdsOf(ps) == TableIds(t) + LeaseIds(chats[..i])
    {
      hide Good, DistinctIds, IdsOf, Deserved, TableIds, HeldFor;
      var id := Strip(chats[i].chatId);
      LeaseRow(t, chats, i);
      if id == "" { return false, ps; }
      if id !in IdsOf(ps) {
        hide LeaseIds, Strip;
        Added(t, chats, ps, OfLease(t, chats[i]));
        ps := ps + [OfLease(t, chats[i])];
      }
    }
    assert chats[..|chats|] == chats;
    ok := true;
  }

  lemma LeaseRow(t: Tables, chats: seq<LeaseChat>, i: nat)
    requires i < |chats|
    ensures LeaseIds(chats[..i+1]) == LeaseIds(chats[..i]) + {Strip(chats[i].chatId)}
    ensures LeaseIds(chats[..i+1]) <= LeaseIds(chats)
    ensures Strip(chats[i].chatId) !in TableIds(t) + LeaseIds(chats[..i]) ==> Deserved(t, chats, OfLease(t, chats[i]))
  {
  }

  /** `lease_entries`: later mentions replace earlier ones. */
  method LeaseEntries(chats: seq<LeaseChat>) returns (entries: map<string, LeaseChat>)
    ensures forall id :: id in entries <==> LastMention(chats, id).Some?
    ensures forall id | id in entries :: LastMention(chats, id) == Some(entries[id])
  {
    entries := map[];
    for i := 0 to |chats|
      invariant forall id :: id in entries <==> LastMention(chats[..i], id).Some?
      invariant forall id | id in entries :: LastMention(chats[..i], id) == Some(entries[id])
    {
      assert chats[..i+1][..i] == chats[..i];
      entries := entries[Strip(chats[i].chatId) := chats[i]];
    }
    assert chats[..|chats|] == chats;
  }

  /** The record settles provenance: each row is edited in place. */
  method Settle(chats: seq<LeaseChat>, entries: map<string, LeaseChat>, before: seq<Proposal>)
    returns (ps: seq<Proposal>)
    requires forall id :: id in entries <==> LastMention(chats, id).Some?
    requires forall id | id in entries :: LastMention(chats, id) == Some(entries[id])
    ensures |ps| == |before| && forall i | 0 <= i < |ps| :: ps[i] == Settled(chats, before[i])
  {
    ps := before;
    for i := 0 to |before|
      invariant |ps| == |before|
      invariant forall k | 0 <= k < i :: ps[k] == Settled(chats, before[k])
      invariant forall k | i <= k < |ps| :: ps[k] == before[k]
    {
      var p := ps[i];
      if p.gate.LeaseStopOnly? {
        ps := ps[i := p.(note := OnlyInLeaseStop)];
        continue;
      }
      if p.id !in entries {
        ps := ps[i := p.(note := AbsentAtLeaseStop)];
        continue;
      }
      var said := LeasePlatform(entries[p.id]);
      if said == "" {
        p := p.(note := Confirmed);
      } else if p.source.Unresolved? {
        p := p.(platform := said, source := FromLeaseStop, note := ResolvedByLeaseStop);
      } else if p.platform != said {
        p := p.(note := PlatformConflict(p.platform, said));
      } else {
        p := p.(note := Confirmed);
      }
      if p.name == "" && entries[p.id].title != "" { p := p.(name := entries[p.id].title); }
      ps := ps[i := p];
    }
  }

  function Chats(lease: LeaseStop): seq<LeaseChat> { if lease.Record? then lease.chats else [] }

  function Noted(lease: LeaseStop, p: Proposal): Proposal { if lease.Record? then Settled(lease.chats, p) else p }

  /** `ps` is `v2`, one deserved row per chat, settled against the record where there is one. */
  predicate SettledFrom(t: Tables, lease: LeaseStop, v2: seq<Proposal>, ps: seq<Proposal>) {
    Good(t, Chats(lease), v2) && |ps| == |v2| && forall i | 0 <= i < |ps| :: ps[i] == Noted(lease, v2[i])
  }

  /** `export_messaging_continuity`: the rows and the summary's total of held messages. */
  method ExportPrincipals(t: Tables, lease: LeaseStop)
    returns (proposals: Result<seq<Proposal>>, heldTotal: nat, ghost v2: seq<Proposal>)
    requires UniqueChats(t)
    ensures proposals.Err? <==> lease.NoChatList? || "" in LeaseIds(Chats(lease))
    ensures proposals.Ok? ==>
              && SettledFrom(t, lease, v2, proposals.value)
              && DistinctIds(proposals.value)
              && IdsOf(proposals.value) == TableIds(t) + LeaseIds(Chats(lease))
              && heldTotal == Undelivered(t.pending)
  {
    hide Good, Deserved, DistinctIds, IdsOf, ApprovedIds, ActiveIds, HeldIds, Settled, UniqueChats;
    var chats := Chats(lease);
    var rows := FromApproved(t, chats);
    rows := AddGroups(t, chats, rows);
    rows := AddHeld(t, chats, rows);
    v2 := rows;
    match lease {
      case NoRecord =>
      case NoChatList => return Err("no activeChats list"), 0, v2;
      case Record(_) =>
        var ok, more := AddLeaseChats(t, chats, rows);
        if !ok { return Err("activeChats entry lacks chatId"), 0, v2; }
        v2 := more;
        var entries := LeaseEntries(chats);
        rows := Settle(chats, entries, more);
    }
    SettlingKeepsIds(t, lease, v2, rows);
    heldTotal := SumHeld(rows);
    HeldConserved(t.pending, rows);
    proposals := Ok(rows);
  }

  /** `held_total` of the summary. */
  method SumHeld(rows: seq<Proposal>) returns (total: nat)
    ensures total == HeldTotal(rows)
  {
    total := 0;
    for i := 0 to |rows|
      invariant total == HeldTotal(rows[..i])
    {
      assert rows[..i+1][..i] == rows[..i];
      total := total + rows[i].held;
    }
    assert rows[..|rows|] == rows;
  }

  lemma SettlingKeepsIds(t: Tables, lease: LeaseStop, v2: seq<Proposal>, ps: seq<Proposal>)
    requires SettledFrom(t, lease, v2, ps)
    ensures DistinctIds(ps) && IdsOf(ps) == IdsOf(v2)
    ensures forall i | 0 <= i < |ps| :: ps[i].held == HeldFor(t.pending, ps[i].id)
  {
    hide Deserved, Settled;
    forall i | 0 <= i < |ps| ensures ps[i].id == v2[i].id && ps[i].held == HeldFor(t.pending, v2[i].id) {
      RowIdentity(t, lease, v2[i]);
    }
    forall p | p in v2 ensures p.id in IdsOf(ps) {
      var i :| 0 <= i < |v2| && v2[i] == p;
      assert ps[i] in ps;
    }
    forall p | p in ps ensures p.id in IdsOf(v2) {
      var i :| 0 <= i < |ps| && ps[i] == p;
      assert v2[i] in v2;
    }
  }

  lemma RowIdentity(t: Tables, lease: LeaseStop, p: Proposal)
    requires Deserved(t, Chats(lease), p)
    ensures Noted(lease, p).id == p.id && Noted(lease, p).held == p.held == HeldFor(t.pending, p.id)
  {
    DeservedFacts(t, Chats(lease), p);
    hide Deserved, LastMention, LeasePlatform;
  }

  lemma DeservedFacts(t: Tables, chats: seq<LeaseChat>, p: Proposal)
    requires Deserved(t, chats, p)
    ensures p.held == HeldFor(t.pending, p.id)
    ensures p.gate.LeaseStopOnly? <==> p.id !in TableIds(t)
    ensures p.gate.LeaseStopOnly? ==> p.source.FromLeaseStop? && exists c :: c in chats && Strip(c.chatId) == p.id
    ensures !p.gate.LeaseStopOnly? ==> (p.source.Unresolved? <==> !HasGroup(t, p.id) && ShapePlatform(p.id).None?)
  {
    GroupOfIff(t.groups, p.id);
    hide ShapePlatform, HeldFor, ApprovedIds, HeldIds, OrElse, Strip, GroupOf;
  }

  // ---------------------------------------------------------------------
  // What the owner can rely on
  // ---------------------------------------------------------------------

  lemma {:induction false} HeldIff(pending: seq<Pending>, id: string)
    ensures HeldFor(pending, id) > 0 <==> id in HeldIds(pending)
  {
    if pending != [] {
      var n := |pending| - 1;
      assert pending == pending[..n] + [pending[n]];
      HeldIff(pending[..n], id);
    }
  }

  /** Every undelivered message is counted in exactly one row. */
  lemma {:induction false} HeldConserved(pending: seq<Pending>, ps: seq<Proposal>)
    requires DistinctIds(ps) && HeldIds(pending) <= IdsOf(ps)
    requires forall i | 0 <= i < |ps| :: ps[i].held == HeldFor(pending, ps[i].id)
    ensures HeldTotal(ps) == Undelivered(pending)
  {
    if pending == [] {
      NothingHeld(ps);
    } else {
      var n := |pending| - 1;
      var last := pending[n];
      assert pending == pending[..n] + [last];
      var earlier := seq(|ps|, i requires 0 <= i < |ps| => ps[i].(held := HeldFor(pending[..n], ps[i].id)));
      SameIds(ps, earlier);
      HeldConserved(pending[..n], earlier);
      OneCounts(earlier, ps, if last.delivered then None else Some(last.chatId));
    }
  }

  lemma SameIds(a: seq<Proposal>, b: seq<Proposal>)
    requires |a| == |b| && forall i | 0 <= i < |a| :: a[i].id == b[i].id
    ensures IdsOf(a) == IdsOf(b)
  {
  }

  lemma {:induction false} NothingHeld(ps: seq<Proposal>)
    requires forall i | 0 <= i < |ps| :: ps[i].held == 0
    ensures HeldTotal(ps) == 0
  {
    if ps != [] { NothingHeld(ps[..|ps|-1]); }
  }

  /** One more message for one chat raises the total by one if the chat has a row, which is then unique. */
  lemma {:induction false} OneCounts(before: seq<Proposal>, after: seq<Proposal>, id: Option<string>)
    requires |before| == |after| && DistinctIds(after)
    requires forall i | 0 <= i < |after| ::
               after[i].held == before[i].held + if id == Some(after[i].id) then 1 else 0
    ensures HeldTotal(after) == HeldTotal(before) + if id.Some? && id.value in IdsOf(after) then 1 else 0
  {
    if after != [] {
      var n := |after| - 1;
      assert after == after[..n] + [after[n]];
      OneCounts(before[..n], after[..n], id);
      if id == Some(after[n].id) {
        forall p | p in after[..n] ensures p.id != after[n].id { }
      }
    }
  }

  predicate SharesDigest(digest: string -> string, a: string, b: string) {
    !SafeKey(a) && !SafeKey(b) && digest(a) == digest(b)
  }

  /** The exported source keys are distinct if and only if no two hashed ids share a digest. */
  lemma SourceKeysDistinctIff(agent: string, digest: string -> string, ps: seq<Proposal>)
    requires DistinctIds(ps)
    ensures (forall i, j | 0 <= i < j < |ps| ::
               SourceKey(agent, digest, ps[i].id) != SourceKey(agent, digest, ps[j].id))
            <==> (forall i, j | 0 <= i < j < |ps| :: !SharesDigest(digest, ps[i].id, ps[j].id))
  {
    forall i, j | 0 <= i < j < |ps|
      ensures SourceKey(agent, digest, ps[i].id) == SourceKey(agent, digest, ps[j].id) <==>
              SharesDigest(digest, ps[i].id, ps[j].id)
    {
      KeysCollideIff(agent, digest, ps[i].id, ps[j].id);
    }
    hide SourceKey, SharesDigest;
  }

  /** What an id's shape tells, blanks around it aside: a run of digits by its length, a
      minus and digits, or one of two words. */
  lemma ShapeMeans(id: string)
    ensures var text := Strip(id);
            && ((text == "web" || text == "admin") ==> ShapePlatform(id) == Some("web"))
            && (Digits(text) && 1 <= |text| <= 13 ==> ShapePlatform(id) == Some("telegram"))
            && (Digits(text) && 14 <= |text| <= 16 ==> ShapePlatform(id) == None)
            && (Digits(text) && 17 <= |text| <= 20 ==> ShapePlatform(id) == Some("discord"))
            && (Digits(text) && (|text| == 0 || |text| > 20) ==> ShapePlatform(id) == None)
            && (text != "" && text[0] == '-' && Digits(text[1..]) ==>
                  ShapePlatform(id) == if 2 <= |text| <= 17 then Some("telegram") else None)
            && ((text != "web" && text != "admin" && !Digits(text) &&
                 !(text != "" && text[0] == '-' && Digits(text[1..]))) ==> ShapePlatform(id) == None)
  {
    var text := Strip(id);
    assert "web"[0] == 'w' && "admin"[0] == 'a';
    hide Strip;
  }

  lemma ShapeExamples()
    ensures ShapePlatform(" 5") == Some("telegram") && ShapePlatform("-5") == Some("telegram")
    ensures ShapePlatform("+5") == None
  {
    StrippedFive();
    StripClean("-5");
    StripClean("+5");
    ShapeMeans(" 5");
    ShapeMeans("-5");
    ShapeMeans("+5");
    assert "-5"[1..] == "5" && "+5"[0] == '+';
  }

  lemma StripClean(s: string)
    requires s != "" && !IsSpace(s[0]) && !IsSpace(s[|s|-1])
    ensures Strip(s) == s
  {
  }

  /** Where a platform comes from: the chat's group row if there is one, else its shape. */
  lemma PlatformMeans(groups: seq<Group>, id: string)
    requires forall i, j | 0 <= i < j < |groups| :: groups[i].chatId != groups[j].chatId
    ensures var (platform, source) := ResolvePlatform(groups, id);
            if exists g :: g in groups && g.chatId == id
            then source == GroupTable && exists g :: g in groups && g.chatId == id && platform == g.platform
            else if ShapePlatform(id).Some? then source == IdShape && Some(platform) == ShapePlatform(id)
            else source == Unresolved && platform == "unknown"
  {
    GroupOfIff(groups, id);
    hide ShapePlatform, GroupOf;
  }

  ghost function Undeliv(pending: seq<Pending>, id: string): set<nat> {
    set i | 0 <= i < |pending| && pending[i].chatId == id && !pending[i].delivered
  }

  /** The held count of a chat is the number of its undelivered messages. */
  lemma {:induction false} HeldCounted(pending: seq<Pending>, id: string)
    ensures HeldFor(pending, id) == |Undeliv(pending, id)|
  {
    if pending != [] {
      var n := |pending| - 1;
      HeldCounted(pending[..n], id);
      assert forall i | 0 <= i < n :: pending[..n][i] == pending[i];
      GrownByOne(Undeliv(pending, id), Undeliv(pending[..n], id), n, pending[n].chatId == id && !pending[n].delivered);
    }
  }

  ghost function AllUndelivered(pending: seq<Pending>): set<nat> {
    set i | 0 <= i < |pending| && !pending[i].delivered
  }

  lemma {:induction false} UndeliveredCounted(pending: seq<Pending>)
    ensures Undelivered(pending) == |AllUndelivered(pending)|
  {
    if pending != [] {
      var n := |pending| - 1;
      UndeliveredCounted(pending[..n]);
      assert forall i | 0 <= i < n :: pending[..n][i] == pending[i];
      GrownByOne(AllUndelivered(pending), AllUndelivered(pending[..n]), n, !pending[n].delivered);
    }
  }

  /** The row of an approved chat: the gate's name, status and approver; a missing name and
      the group flag come from the group table. */
  lemma ApprovedRowMeans(t: Tables, chats: seq<LeaseChat>, a: Approved, p: Proposal)
    requires UniqueChats(t) && a in t.approved && p.id == a.chatId && Deserved(t, chats, p)
    ensures p.gate == ApprovedUsers && p.status == a.status && p.approvedBy == a.approvedBy
    ensures a.displayName != "" ==> p.name == a.displayName
    ensures a.displayName == "" ==>
              (forall g | g in t.groups && g.chatId == a.chatId :: p.name == g.title) &&
              (!HasGroup(t, a.chatId) ==> p.name == "")
    ensures p.isGroup <==> exists g :: g in t.groups && g.chatId == a.chatId && g.chatType != "dm"
    ensures (p.platform, p.source) == ResolvePlatform(t.groups, a.chatId) && p.held == HeldFor(t.pending, a.chatId)
  {
    var b :| b in t.approved && p == OfApproved(t, b);
    assert b == a;
    GroupOfIff(t.groups, a.chatId);
    hide ResolvePlatform, GroupOf, HeldFor, ActiveIds, HeldIds;
    assert forall g | g in t.groups && g.chatId == a.chatId :: GroupOf(t.groups, a.chatId) == Some(g);
  }

  /** The row of an active group without a gate row. */
  lemma GroupRowMeans(t: Tables, chats: seq<LeaseChat>, g: Group, p: Proposal)
    requires UniqueChats(t) && g in t.groups && g.active && g.chatId !in ApprovedIds(t.approved)
    requires p.id == g.chatId && Deserved(t, chats, p)
    ensures p.gate == GroupChats && p.status == "group-active-without-gate-row" && p.approvedBy == "" && p.isGroup
    ensures p.platform == g.platform && p.source == GroupTable && p.held == HeldFor(t.pending, g.chatId)
    ensures p.name == (if g.title != "" then g.title else g.alias)
  {
    var h :| h in t.groups && h.active && p == OfGroup(t, h);
    assert h == g;
  }

  /** The row of a stranger whose mail is held. */
  lemma HeldRowMeans(t: Tables, chats: seq<LeaseChat>, p: Proposal)
    requires p.id in HeldIds(t.pending) && p.id !in ApprovedIds(t.approved) && p.id !in ActiveIds(t.groups)
    requires Deserved(t, chats, p)
    ensures p.gate == PendingMessages && p.status == "pending-inbound-without-gate-row" && p.approvedBy == ""
    ensures p.name == "" && !p.isGroup && p.held == HeldFor(t.pending, p.id)
    ensures (p.platform, p.source) == ResolvePlatform(t.groups, p.id)
  {
  }

  /** The row of a chat only the record knows: its first mention there. */
  lemma LeaseRowMeans(t: Tables, chats: seq<LeaseChat>, p: Proposal)
    requires p.id !in TableIds(t) && Deserved(t, chats, p)
    ensures p.gate == LeaseStopOnly && p.status == "active-without-v2-state"
    ensures p.approvedBy == "" && p.source == FromLeaseStop
    ensures exists k :: 0 <= k < |chats| && Strip(chats[k].chatId) == p.id &&
                        (forall j | 0 <= j < k :: Strip(chats[j].chatId) != p.id) &&
                        p.name == chats[k].title && p.isGroup == chats[k].isGroup &&
                        p.platform == (if chats[k].platform.Some? then chats[k].platform.value else "unknown")
  {
  }

  /** What the record says of a chat, blanks aside; "" when it says nothing. */
  predicate SaysLast(chats: seq<LeaseChat>, id: string, c: LeaseChat) {
    exists k | 0 <= k < |chats| ::
      chats[k] == c && Strip(c.chatId) == id && forall j | k < j < |chats| :: Strip(chats[j].chatId) != id
  }

  lemma {:induction false} LastMentionIsLast(chats: seq<LeaseChat>, id: string)
    requires LastMention(chats, id).Some?
    ensures SaysLast(chats, id, LastMention(chats, id).value)
  {
    var n := |chats| - 1;
    hide Strip;
    if Strip(chats[n].chatId) != id {
      LastMentionIsLast(chats[..n], id);
      var c := LastMention(chats, id).value;
      var k :| 0 <= k < n && chats[..n][k] == c && Strip(c.chatId) == id &&
               forall j | k < j < n :: Strip(chats[..n][j].chatId) != id;
      assert chats[k] == c;
      forall j | k < j < |chats| ensures Strip(chats[j].chatId) != id {
        if j < n { assert chats[..n][j] == chats[j]; }
      }
    }
  }

  /** How a row of the tables is settled against its last mention in the record. */
  lemma SettledMeans(t: Tables, chats: seq<LeaseChat>, p: Proposal)
    requires !p.gate.LeaseStopOnly? && LastMention(chats, p.id).Some?
    ensures var c, q := LastMention(chats, p.id).value, Settled(chats, p);
            var said := if c.platform.Some? then Strip(c.platform.value) else "";
            && SaysLast(chats, p.id, c)
            && (q.note == Confirmed <==> said == "" || (!p.source.Unresolved? && p.platform == said))
            && (q.note == PlatformConflict(p.platform, said) <==>
                  said != "" && !p.source.Unresolved? && p.platform != said)
            && (q.note == ResolvedByLeaseStop <==> said != "" && p.source.Unresolved?)
            && (q.note == ResolvedByLeaseStop ==> q.platform == said && q.source == FromLeaseStop)
            && (q.note != ResolvedByLeaseStop ==> q.platform == p.platform && q.source == p.source)
            && q.name == (if p.name != "" then p.name else c.title)
            && q.(platform := p.platform, source := p.source, name := p.name, note := p.note) == p
  {
    LastMentionIsLast(chats, p.id);
    hide Strip, LastMention, SaysLast;
  }

  /** Without a record nothing is compared. */
  lemma NotComparedWithoutRecord(t: Tables, p: Proposal)
    requires Deserved(t, [], p)
    ensures Noted(NoRecord, p) == p && p.note == NotCompared
  {
  }

  /** A safe id is kept readable; any other is hashed. */
  lemma KeyMeans(digest: string -> string, id: string)
    ensures KeyComponent(digest, id) ==
            if 1 <= |id| <= 80 && (forall i | 0 <= i < |id| ::
                 'a' <= id[i] <= 'z' || 'A' <= id[i] <= 'Z' || '0' <= id[i] <= '9' ||
                 id[i] == '.' || id[i] == '_' || id[i] == ':' || id[i] == '@' || id[i] == '-')
            then "raw-" + id else "sha256-" + digest(id)
  {
  }

  /** A chat only the lease-stop record knows holds no mail. */
  lemma LeaseOnlyHoldsNothing(t: Tables, lease: LeaseStop, p: Proposal)
    requires Deserved(t, Chats(lease), p)
    ensures Noted(lease, p).gate.LeaseStopOnly? <==> p.id !in TableIds(t)
    ensures p.id !in TableIds(t) ==> Noted(lease, p).held == 0
  {
    DeservedFacts(t, Chats(lease), p);
    hide Deserved, ApprovedIds, ActiveIds, LastMention;
    HeldIff(t.pending, p.id);
  }

  predicate HasGroup(t: Tables, id: string) { exists g :: g in t.groups && g.chatId == id }

  lemma {:induction false} GroupOfIff(groups: seq<Group>, id: string)
    ensures GroupOf(groups, id).Some? <==> exists g :: g in groups && g.chatId == id
    ensures GroupOf(groups, id).Some? ==> GroupOf(groups, id).value in groups && GroupOf(groups, id).value.chatId == id
  {
    if groups != [] {
      var n := |groups| - 1;
      assert groups == groups[..n] + [groups[n]];
      GroupOfIff(groups[..n], id);
    }
  }

  /** The record only ever settles platforms that V2 left open. */
  lemma PlatformRewrittenIff(t: Tables, lease: LeaseStop, p: Proposal)
    requires Deserved(t, Chats(lease), p)
    ensures Noted(lease, p).note.ResolvedByLeaseStop? || Noted(lease, p).platform == p.platform
    ensures Noted(lease, p).note.ResolvedByLeaseStop? <==>
            (&& p.id in TableIds(t) && !HasGroup(t, p.id) && ShapePlatform(p.id).None?
             && LastMention(Chats(lease), p.id).Some? && LeasePlatform(LastMention(Chats(lease), p.id).value) != "")
  {
    DeservedFacts(t, Chats(lease), p);
    hide Deserved, TableIds, HasGroup, ShapePlatform, LastMention, LeasePlatform;
  }

  /** A row whose stripped id the record names is reconciled with it if and only if the
      id carries no surrounding blanks: the record's ids are stripped, the tables' are not. */
  lemma MatchedIffStripped(t: Tables, chats: seq<LeaseChat>, p: Proposal)
    requires Deserved(t, chats, p) && Strip(p.id) in LeaseIds(chats)
    ensures Settled(chats, p).note != AbsentAtLeaseStop <==> Strip(p.id) == p.id
  {
    DeservedFacts(t, chats, p);
    hide Deserved, TableIds, HasGroup, ShapePlatform, Strip;
    AbsentIff(chats, p);
    if p.id in LeaseIds(chats) { RecordIdsStripped(chats, p.id); }
  }

  lemma AbsentIff(chats: seq<LeaseChat>, p: Proposal)
    ensures Settled(chats, p).note == AbsentAtLeaseStop <==> !p.gate.LeaseStopOnly? && p.id !in LeaseIds(chats)
  {
    MentionIff(chats, p.id);
    hide LeaseIds, LastMention, LeasePlatform, OrElse;
  }

  lemma RecordIdsStripped(chats: seq<LeaseChat>, id: string)
    requires id in LeaseIds(chats)
    ensures Strip(id) == id
  {
    var c :| c in chats && Strip(c.chatId) == id;
    StripTwice(c.chatId);
  }

  lemma StripTwice(s: string)
    ensures Strip(Strip(s)) == Strip(s)
  {
    StripIdempotent(s, IsSpace);
  }

  lemma {:induction false} MentionIff(chats: seq<LeaseChat>, id: string)
    ensures LastMention(chats, id).Some? <==> id in LeaseIds(chats)
  {
    if chats != [] {
      var n := |chats| - 1;
      assert chats == chats[..n] + [chats[n]];
      MentionIff(chats[..n], id);
    }
  }

  /** An id padded with blanks, and its bare form in the record, come out as two
      principals: in every export of such a chat one row is absent at lease stop and
      another is known to the record alone. */
  lemma PaddedChatIsTwoPrincipals(t: Tables, lease: LeaseStop, v2: seq<Proposal>, ps: seq<Proposal>, id: string)
    requires SettledFrom(t, lease, v2, ps) && IdsOf(ps) == TableIds(t) + LeaseIds(Chats(lease)) && lease.Record?
    requires id in TableIds(t) && Strip(id) != id && Strip(id) in LeaseIds(lease.chats) && Strip(id) !in TableIds(t)
    ensures exists p, q :: p in ps && q in ps && p.id == id && q.id == Strip(id) &&
                           p.note == AbsentAtLeaseStop && q.note == OnlyInLeaseStop
  {
    SettlingKeepsIds(t, lease, v2, ps);
    var p :| p in ps && p.id == id;
    var q :| q in ps && q.id == Strip(id);
    var i :| 0 <= i < |ps| && ps[i] == p;
    var j :| 0 <= j < |ps| && ps[j] == q;
    RowIdentity(t, lease, v2[i]);
    RowIdentity(t, lease, v2[j]);
    MatchedIffStripped(t, lease.chats, v2[i]);
    DeservedFacts(t, lease.chats, v2[j]);
    hide Deserved, TableIds, LastMention, Strip, LeasePlatform;
  }

  /** The approved chat " 5" and the recorded chat "5": the export has these two rows. */
  lemma PaddedFive(v2: seq<Proposal>, ps: seq<Proposal>)
    requires SettledFrom(PaddedTables(), PaddedRecord(), v2, ps)
    requires IdsOf(ps) == TableIds(PaddedTables()) + LeaseIds(Chats(PaddedRecord()))
    ensures UniqueChats(PaddedTables()) && IdsOf(ps) == {" 5", "5"}
    ensures exists p, q :: p in ps && q in ps && p.id == " 5" && q.id == "5" &&
                           p.note == AbsentAtLeaseStop && q.note == OnlyInLeaseStop
  {
    var t, record := PaddedTables(), PaddedRecord();
    StrippedFive();
    assert record.chats[0] in record.chats && t.approved[0] in t.approved;
    assert TableIds(t) == {" 5"} && LeaseIds(record.chats) == {"5"} by { hide SettledFrom, IdsOf, Strip; }
    hide Strip, TableIds, LeaseIds;
    PaddedChatIsTwoPrincipals(t, record, v2, ps, " 5");
  }

  /** That export exists, and its rows are those two. */
  method ExportPadded() returns (rows: seq<Proposal>)
    ensures IdsOf(rows) == {" 5", "5"}
    ensures exists p, q :: p in rows && q in rows && p.id == " 5" && q.id == "5" &&
                           p.note == AbsentAtLeaseStop && q.note == OnlyInLeaseStop
  {
    PaddedTablesAreSound();
    hide UniqueChats, SettledFrom, TableIds, LeaseIds, IdsOf, PaddedTables;
    var result, _, v2 := ExportPrincipals(PaddedTables(), PaddedRecord());
    rows := result.value;
    PaddedFive(v2, rows);
  }

  lemma PaddedTablesAreSound()
    ensures UniqueChats(PaddedTables()) && PaddedRecord().Record? && "" !in LeaseIds(Chats(PaddedRecord()))
  {
    StrippedFive();
  }

  function PaddedTables(): Tables { Tables([Approved(" 5", "", "approved", "")], [], []) }

  function PaddedRecord(): LeaseStop { Record([LeaseChat("5", None, "", false)]) }

  lemma StrippedFive()
    ensures Strip(" 5") == "5" && Strip("5") == "5"
  {
    assert " 5"[1..] == "5";
    assert LStrip(" 5", IsSpace) == LStrip("5", IsSpace);
  }
}
