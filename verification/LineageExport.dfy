/**
 `export_agent`: V2 reflections become V3 memory records. Where several rows
 supersede one parent only the latest keeps the link; links to rows outside the
 export are dropped; project labels are merged ignoring case.
 */
module LineageExport {
  import opened Prelude
  import opened FiniteSets
  import opened PyText

  /** One reflection row; `supersedes` is "" when NULL or empty. */
  datatype Row = Row(
    id: string, kind: string, content: string, project: string,
    active: bool, supersedes: string, createdAt: string)

  /** `include_inactive`, the kinds V3 knows, `str.lower`, and the secret scan. */
  datatype Config = Config(
    includeInactive: bool, kinds: set<string>, lower: string -> string, scan: Row -> Option<string>)

  datatype Skip = Inactive | UnknownKind(kind: string) | EmptyContent | SecretFlagged(what: string)

  datatype Scope = InProject(name: string) | OfAgent

  /** Source keys are `project:<agent>:<folded>` and `memory:<agent>:<id>`. */
  datatype Project = Project(folded: string, name: string)

  datatype Memory = Memory(id: string, kind: string, content: string, scope: Scope, supersedes: Option<string>)

  // ---------------------------------------------------------------------
  // What the export should contain
  // ---------------------------------------------------------------------

  function SkipOf(cfg: Config, row: Row): Option<Skip> {
    if !cfg.includeInactive && !row.active then Some(Inactive)
    else if Strip(row.kind) !in cfg.kinds then Some(UnknownKind(Strip(row.kind)))
    else if Strip(row.content) == [] then Some(EmptyContent)
    else if cfg.scan(row).Some? then Some(SecretFlagged(cfg.scan(row).value))
    else None
  }

  /** The rows that become memory records, in order. */
  function Kept(cfg: Config, rows: seq<Row>): seq<Row> {
    if rows == [] then []
    else Kept(cfg, rows[..|rows|-1]) + (if SkipOf(cfg, rows[|rows|-1]).None? then [rows[|rows|-1]] else [])
  }

  /** The other rows, in order. */
  function Refused(cfg: Config, rows: seq<Row>): seq<Row> {
    if rows == [] then []
    else Refused(cfg, rows[..|rows|-1]) + (if SkipOf(cfg, rows[|rows|-1]).Some? then [rows[|rows|-1]] else [])
  }

  /** Their reasons. */
  function Skips(cfg: Config, rows: seq<Row>): multiset<Skip> {
    if rows == [] then multiset{}
    else
      var last := SkipOf(cfg, rows[|rows|-1]);
      Skips(cfg, rows[..|rows|-1]) + (if last.Some? then multiset{last.value} else multiset{})
  }

  predicate Claims(cfg: Config, row: Row, parent: string) {
    row.supersedes != [] && row.supersedes == parent && (cfg.includeInactive || row.active)
  }

  /** Claim order: created_at, then id. */
  predicate Later(a: Row, b: Row) {
    Less(b.createdAt, a.createdAt) || (b.createdAt == a.createdAt && Less(b.id, a.id))
  }

  /** The latest claimant of a parent, among every row that may claim. */
  predicate Wins(cfg: Config, rows: seq<Row>, row: Row) {
    Claims(cfg, row, row.supersedes) &&
    forall r | r in rows && Claims(cfg, r, row.supersedes) :: r == row || Later(row, r)
  }

  predicate Exported(cfg: Config, rows: seq<Row>, id: string) {
    exists r :: r in rows && r.id == id && SkipOf(cfg, r).None?
  }

  function Link(cfg: Config, rows: seq<Row>, row: Row): Option<string> {
    if Wins(cfg, rows, row) && Exported(cfg, rows, row.supersedes) then Some(row.supersedes) else None
  }

  /** The first-seen spelling of a project label. */
  function FirstLabel(cfg: Config, rows: seq<Row>, folded: string): Option<string> {
    if rows == [] then None
    else if FirstLabel(cfg, rows[..|rows|-1], folded).Some? then FirstLabel(cfg, rows[..|rows|-1], folded)
    else
      var tag := Strip(rows[|rows|-1].project);
      if tag != [] && cfg.lower(tag) == folded then Some(tag) else None
  }

  function ScopeOf(cfg: Config, rows: seq<Row>, row: Row): Scope {
    var tag := Strip(row.project);
    if tag == [] then OfAgent
    else match FirstLabel(cfg, rows, cfg.lower(tag)) case Some(name) => InProject(name) case None => OfAgent
  }

  function MemoryOf(cfg: Config, rows: seq<Row>, row: Row): Memory {
    Memory(row.id, Strip(row.kind), Strip(row.content), ScopeOf(cfg, rows, row), Link(cfg, rows, row))
  }

  predicate UniqueIds(rows: seq<Row>) {
    forall i, j | 0 <= i < j < |rows| :: rows[i].id != rows[j].id
  }

  // ---------------------------------------------------------------------
  // The export
  // ---------------------------------------------------------------------

  lemma LaterTotal(a: Row, b: Row)
    ensures Later(a, b) || Later(b, a) || (a.createdAt == b.createdAt && a.id == b.id)
  {
    LessTotal(a.createdAt, b.createdAt);
    LessTotal(a.id, b.id);
  }

  lemma LaterTransitive(a: Row, b: Row, c: Row)
    requires Later(a, b) && Later(b, c)
    ensures Later(a, c)
  {
    LessIrreflexive(a.createdAt);
    LessIrreflexive(b.createdAt);
    if Less(c.createdAt, b.createdAt) && Less(b.createdAt, a.createdAt) {
      LessTransitive(c.createdAt, b.createdAt, a.createdAt);
    }
    if b.createdAt == a.createdAt && b.createdAt == c.createdAt { LessTransitive(c.id, b.id, a.id); }
  }

  /** The best claimant of each parent so far. */
  predicate WinnersOf(cfg: Config, rows: seq<Row>, winners: map<string, Row>) {
    && (forall p | p in winners :: winners[p] in rows && Claims(cfg, winners[p], p))
    && (forall r | r in rows && Claims(cfg, r, r.supersedes) ::
          r.supersedes in winners && (r == winners[r.supersedes] || Later(winners[r.supersedes], r)))
  }

  lemma ClaimantAdded(cfg: Config, rows: seq<Row>, winners: map<string, Row>, row: Row)
    requires WinnersOf(cfg, rows, winners) && Claims(cfg, row, row.supersedes)
    requires forall r | r in rows :: r.id != row.id
    ensures row.supersedes in winners && !Later(row, winners[row.supersedes]) ==> WinnersOf(cfg, rows + [row], winners)
    ensures row.supersedes !in winners || Later(row, winners[row.supersedes]) ==>
              WinnersOf(cfg, rows + [row], winners[row.supersedes := row])
  {
    var p := row.supersedes;
    if p in winners {
      var best := winners[p];
      LaterTotal(row, best);
      if Later(row, best) {
        forall r | r in rows && Claims(cfg, r, p) ensures Later(row, r) {
          if r != best { LaterTransitive(row, best, r); }
        }
      }
    }
  }

  /** `fork_winners`: the latest claimant of each parent. */
  method ForkWinners(cfg: Config, rows: seq<Row>) returns (winners: map<string, Row>)
    requires UniqueIds(rows)
    ensures WinnersOf(cfg, rows, winners)
  {
    winners := map[];
    for i := 0 to |rows|
      invariant WinnersOf(cfg, rows[..i], winners)
    {
      var row := rows[i];
      assert rows[..i+1] == rows[..i] + [row];
      if row.supersedes != [] && (cfg.includeInactive || row.active) {
        ClaimantAdded(cfg, rows[..i], winners, row);
        if row.supersedes !in winners || Later(row, winners[row.supersedes]) {
          winners := winners[row.supersedes := row];
        }
      }
    }
    assert rows[..|rows|] == rows;
  }

  /** `canonical_projects`: first-seen casing wins, over every row. */
  method CanonicalProjects(cfg: Config, rows: seq<Row>) returns (canonical: map<string, string>)
    ensures forall folded ::
              if FirstLabel(cfg, rows, folded).Some?
              then folded in canonical && canonical[folded] == FirstLabel(cfg, rows, folded).value
              else folded !in canonical
  {
    canonical := map[];
    for i := 0 to |rows|
      invariant forall folded ::
                  if FirstLabel(cfg, rows[..i], folded).Some?
                  then folded in canonical && canonical[folded] == FirstLabel(cfg, rows[..i], folded).value
                  else folded !in canonical
    {
      assert rows[..i+1][..i] == rows[..i];
      var tag := Strip(rows[i].project);
      if tag != [] && cfg.lower(tag) !in canonical {
        canonical := canonical[cfg.lower(tag) := tag];
      }
    }
    assert rows[..|rows|] == rows;
  }

  /** One record per folded label, sorted by it. */
  method ProjectRecords(canonical: map<string, string>) returns (projects: seq<Project>)
    ensures forall p :: p in projects <==> p.folded in canonical && p.name == canonical[p.folded]
    ensures forall i, j | 0 <= i < j < |projects| :: Less(projects[i].folded, projects[j].folded)
  {
    var folded := SortStrings(canonical.Keys);
    forall k | 0 <= k < |folded| ensures folded[k] in canonical { assert folded[k] in folded; }
    projects := [];
    hide Less;
    for i := 0 to |folded|
      invariant |projects| == i
      invariant forall k | 0 <= k < i :: projects[k] == Project(folded[k], canonical[folded[k]])
    {
      projects := projects + [Project(folded[i], canonical[folded[i]])];
    }
    ProjectsListed(canonical, folded, projects);
  }

  lemma ProjectsListed(canonical: map<string, string>, folded: seq<string>, projects: seq<Project>)
    requires |projects| == |folded| && forall f :: f in folded <==> f in canonical
    requires forall k | 0 <= k < |folded| ::
               folded[k] in canonical && projects[k] == Project(folded[k], canonical[folded[k]])
    ensures forall p :: p in projects <==> p.folded in canonical && p.name == canonical[p.folded]
  {
    forall p: Project | p.folded in canonical && p.name == canonical[p.folded] ensures p in projects {
      assert p.folded in folded;
      var k :| 0 <= k < |folded| && folded[k] == p.folded;
      assert projects[k] == p;
    }
  }

  /** Before the dangling pass: the fork winner keeps its link, exported or not. */
  function ForkLinked(cfg: Config, rows: seq<Row>, row: Row): Memory {
    Memory(row.id, Strip(row.kind), Strip(row.content), ScopeOf(cfg, rows, row),
           if Wins(cfg, rows, row) then Some(row.supersedes) else None)
  }

  /** Rows that reach the link step, before the secret scan. */
  predicate ReachesLink(cfg: Config, row: Row) {
    SkipOf(cfg, row).None? || SkipOf(cfg, row).value.SecretFlagged?
  }

  function ForkDrops(cfg: Config, all: seq<Row>, rows: seq<Row>): nat {
    if rows == [] then 0
    else
      var last := rows[|rows|-1];
      ForkDrops(cfg, all, rows[..|rows|-1]) +
      (if ReachesLink(cfg, last) && last.supersedes != [] && !Wins(cfg, all, last) then 1 else 0)
  }

  lemma WinnerDecides(cfg: Config, rows: seq<Row>, winners: map<string, Row>, row: Row)
    requires UniqueIds(rows) && WinnersOf(cfg, rows, winners) && row in rows && Claims(cfg, row, row.supersedes)
    ensures winners[row.supersedes].id == row.id <==> Wins(cfg, rows, row)
  {
    var best := winners[row.supersedes];
    var i :| 0 <= i < |rows| && rows[i] == row;
    var j :| 0 <= j < |rows| && rows[j] == best;
    if Wins(cfg, rows, row) && best != row {
      LaterTransitive(row, best, row);
      LessIrreflexive(row.createdAt);
      LessIrreflexive(row.id);
    }
  }

  /** `winners` and `canonical` as the two passes before the main loop leave them. */
  ghost predicate Prepared(cfg: Config, rows: seq<Row>, winners: map<string, Row>, canonical: map<string, string>) {
    && UniqueIds(rows)
    && WinnersOf(cfg, rows, winners)
    && (forall folded ::
          if FirstLabel(cfg, rows, folded).Some?
          then folded in canonical && canonical[folded] == FirstLabel(cfg, rows, folded).value
          else folded !in canonical)
  }

  /** One turn of the main loop: the row's skip reason or its record, and whether its link lost a fork. */
  method RecordRow(cfg: Config, rows: seq<Row>, winners: map<string, Row>, canonical: map<string, string>, row: Row)
    returns (skip: Option<Skip>, memory: Option<Memory>, forked: bool)
    requires Prepared(cfg, rows, winners, canonical) && row in rows
    ensures skip == SkipOf(cfg, row)
    ensures memory == if skip.None? then Some(ForkLinked(cfg, rows, row)) else None
    ensures forked <==> ReachesLink(cfg, row) && row.supersedes != [] && !Wins(cfg, rows, row)
  {
    LabelIsCanonical(cfg, rows, row);
    hide Wins, FirstLabel, UniqueIds, WinnersOf;
    skip, memory, forked := None, None, false;
    if !cfg.includeInactive && !row.active { return Some(Inactive), None, false; }
    LinkDecision(cfg, rows, winners, row);
    var kind := Strip(row.kind);
    if kind !in cfg.kinds { return Some(UnknownKind(kind)), None, false; }
    var content := Strip(row.content);
    if content == [] { return Some(EmptyContent), None, false; }
    var link := None;
    if row.supersedes != [] && winners[row.supersedes].id == row.id {
      link := Some(row.supersedes);
    } else if row.supersedes != [] {
      forked := true;
    }
    var flagged := cfg.scan(row);
    if flagged.Some? { return Some(SecretFlagged(flagged.value)), None, forked; }
    var tag := Strip(row.project);
    var scope := if tag != [] then InProject(canonical[cfg.lower(tag)]) else OfAgent;
    memory := Some(Memory(row.id, kind, content, scope, link));
  }

  /** The main loop of `export_agent` over the rows. */
  method MemoryRecords(cfg: Config, rows: seq<Row>, winners: map<string, Row>, canonical: map<string, string>)
    returns (memories: seq<Memory>, skipped: multiset<Skip>, forkDropped: nat)
    requires Prepared(cfg, rows, winners, canonical)
    ensures |memories| == |Kept(cfg, rows)|
    ensures forall k | 0 <= k < |memories| :: memories[k] == ForkLinked(cfg, rows, Kept(cfg, rows)[k])
    ensures skipped == Skips(cfg, rows)
    ensures forkDropped == ForkDrops(cfg, rows, rows)
  {
    NoRowsYet(cfg, rows);
    hide Prepared, Wins, SkipOf, ForkLinked, Kept, Skips, ForkDrops, ReachesLink;
    memories, skipped, forkDropped := [], multiset{}, 0;
    for i := 0 to |rows|
      invariant |memories| == |Kept(cfg, rows[..i])|
      invariant forall k | 0 <= k < |memories| :: memories[k] == ForkLinked(cfg, rows, Kept(cfg, rows[..i])[k])
      invariant skipped == Skips(cfg, rows[..i])
      invariant forkDropped == ForkDrops(cfg, rows, rows[..i])
    {
      OneMoreRow(cfg, rows, i);
      var skip, memory, forked := RecordRow(cfg, rows, winners, canonical, rows[i]);
      if forked { forkDropped := forkDropped + 1; }
      match skip {
        case Some(reason) => skipped := skipped + multiset{reason};
        case None => memories := memories + [memory.value];
      }
    }
    assert rows[..|rows|] == rows;
  }

  lemma NoRowsYet(cfg: Config, all: seq<Row>)
    ensures Kept(cfg, all[..0]) == [] && Skips(cfg, all[..0]) == multiset{} && ForkDrops(cfg, all, all[..0]) == 0
  {
  }

  /** What one more row adds to each of the three results. */
  lemma OneMoreRow(cfg: Config, all: seq<Row>, i: nat)
    requires i < |all|
    ensures Kept(cfg, all[..i+1]) == Kept(cfg, all[..i]) + if SkipOf(cfg, all[i]).None? then [all[i]] else []
    ensures Skips(cfg, all[..i+1]) ==
            Skips(cfg, all[..i]) + if SkipOf(cfg, all[i]).Some? then multiset{SkipOf(cfg, all[i]).value} else multiset{}
    ensures ForkDrops(cfg, all, all[..i+1]) ==
            ForkDrops(cfg, all, all[..i]) +
            if ReachesLink(cfg, all[i]) && all[i].supersedes != [] && !Wins(cfg, all, all[i]) then 1 else 0
  {
    assert all[..i+1][..i] == all[..i] && all[..i+1][i] == all[i];
    hide SkipOf, ReachesLink, Wins;
  }

  lemma LinkDecision(cfg: Config, rows: seq<Row>, winners: map<string, Row>, row: Row)
    requires UniqueIds(rows) && WinnersOf(cfg, rows, winners) && row in rows
    requires cfg.includeInactive || row.active
    ensures row.supersedes == [] ==> !Wins(cfg, rows, row)
    ensures row.supersedes != [] ==> row.supersedes in winners
    ensures row.supersedes != [] ==> (winners[row.supersedes].id == row.id <==> Wins(cfg, rows, row))
  {
    if row.supersedes != [] { WinnerDecides(cfg, rows, winners, row); }
  }

  lemma {:induction false} LabelIsCanonical(cfg: Config, rows: seq<Row>, row: Row)
    requires row in rows
    ensures Strip(row.project) != [] ==> FirstLabel(cfg, rows, cfg.lower(Strip(row.project))).Some?
  {
    if row in rows[..|rows|-1] { LabelIsCanonical(cfg, rows[..|rows|-1], row); }
  }

  /** A link whose parent is not a memory record of this export is dropped. */
  function Undangled(m: Memory, keys: set<string>): Memory {
    if m.supersedes.Some? && m.supersedes.value !in keys then m.(supersedes := None) else m
  }

  /** How many of them hold a link that the pass drops. */
  function DanglingIn(memories: seq<Memory>, keys: set<string>): nat {
    if memories == [] then 0
    else
      var m := memories[|memories|-1];
      DanglingIn(memories[..|memories|-1], keys) +
      (if m.supersedes.Some? && m.supersedes.value !in keys then 1 else 0)
  }

  function KeysOf(memories: seq<Memory>): set<string> {
    set m | m in memories :: m.id
  }

  method DropDangling(memories: seq<Memory>) returns (out: seq<Memory>, dropped: nat)
    ensures |out| == |memories|
    ensures forall k | 0 <= k < |out| :: out[k] == Undangled(memories[k], KeysOf(memories))
    ensures dropped == DanglingIn(memories, KeysOf(memories))
  {
    var keys := KeysOf(memories);
    hide KeysOf;
    out, dropped := [], 0;
    for i := 0 to |memories|
      invariant |out| == i
      invariant forall k | 0 <= k < i :: out[k] == Undangled(memories[k], keys)
      invariant dropped == DanglingIn(memories[..i], keys)
    {
      var m := memories[i];
      assert memories[..i+1][..i] == memories[..i];
      if m.supersedes.Some? && m.supersedes.value !in keys {
        out := out + [m.(supersedes := None)];
        dropped := dropped + 1;
      } else {
        out := out + [m];
      }
    }
    assert memories[..|memories|] == memories;
  }

  /** Among `kept`: fork winners whose parent is no record of the export. */
  function DanglingDrops(cfg: Config, all: seq<Row>, kept: seq<Row>): nat {
    if kept == [] then 0
    else
      var last := kept[|kept|-1];
      DanglingDrops(cfg, all, kept[..|kept|-1]) +
      (if Wins(cfg, all, last) && !Exported(cfg, all, last.supersedes) then 1 else 0)
  }

  lemma {:induction false} DanglingCounted(
      cfg: Config, rows: seq<Row>, kept: seq<Row>, linked: seq<Memory>, keys: set<string>)
    requires |linked| == |kept|
    requires forall k | 0 <= k < |linked| :: linked[k] == ForkLinked(cfg, rows, kept[k])
    requires forall id :: id in keys <==> Exported(cfg, rows, id)
    ensures DanglingIn(linked, keys) == DanglingDrops(cfg, rows, kept)
  {
    hide Wins, Exported, ScopeOf;
    if kept != [] {
      DanglingCounted(cfg, rows, kept[..|kept|-1], linked[..|linked|-1], keys);
      assert linked[|linked|-1] == ForkLinked(cfg, rows, kept[|kept|-1]);
    }
  }

  datatype Export = Export(
    projects: seq<Project>, memories: seq<Memory>,
    skipped: multiset<Skip>, forkDropped: nat, danglingDropped: nat)

  /** What V3's importer checks of the emitted records themselves. */
  predicate Importable(cfg: Config, e: Export) {
    // ids and, ignoring case, project names are distinct
    && (forall i, j | 0 <= i < j < |e.memories| :: e.memories[i].id != e.memories[j].id)
    && (forall i, j | 0 <= i < j < |e.projects| :: cfg.lower(e.projects[i].name) != cfg.lower(e.projects[j].name))
    // no forks
    && (forall i, j | 0 <= i < j < |e.memories| ::
          e.memories[i].supersedes.Some? ==> e.memories[i].supersedes != e.memories[j].supersedes)
    // no dangling links
    && (forall m | m in e.memories && m.supersedes.Some? ::
          exists k :: 0 <= k < |e.memories| && e.memories[k].id == m.supersedes.value)
    // every project scope names an emitted project
    && (forall m | m in e.memories && m.scope.InProject? ::
          exists k :: 0 <= k < |e.projects| && e.projects[k].name == m.scope.name)
  }

  lemma ExportIsImportable(cfg: Config, rows: seq<Row>, e: Export)
    requires UniqueIds(rows) && |e.memories| == |Kept(cfg, rows)|
    requires forall k | 0 <= k < |e.memories| :: e.memories[k] == MemoryOf(cfg, rows, Kept(cfg, rows)[k])
    requires forall p :: p in e.projects <==> FirstLabel(cfg, rows, p.folded) == Some(p.name)
    requires forall i, j | 0 <= i < j < |e.projects| :: Less(e.projects[i].folded, e.projects[j].folded)
    ensures Importable(cfg, e)
  {
    var kept := Kept(cfg, rows);
    KeptIdsDistinct(cfg, rows);
    NamesDistinct(cfg, rows, e.projects);
    hide Link, ScopeOf, Kept, FirstLabel, SkipOf, UniqueIds, Strip;
    forall i, j | 0 <= i < j < |e.memories| && e.memories[i].supersedes.Some?
      ensures e.memories[i].supersedes != e.memories[j].supersedes
    {
      NoForks(cfg, rows, i, j);
    }
    forall m | m in e.memories && m.supersedes.Some?
      ensures exists k :: 0 <= k < |e.memories| && e.memories[k].id == m.supersedes.value
    {
      var i :| 0 <= i < |e.memories| && e.memories[i] == m;
      NoDangling(cfg, rows, i);
      var k :| 0 <= k < |kept| && Link(cfg, rows, kept[i]) == Some(kept[k].id);
      assert e.memories[k].id == m.supersedes.value;
    }
    forall m | m in e.memories && m.scope.InProject?
      ensures exists k :: 0 <= k < |e.projects| && e.projects[k].name == m.scope.name
    {
      var i :| 0 <= i < |e.memories| && e.memories[i] == m;
      KeptIff(cfg, rows, kept[i]);
      ScopeIsProject(cfg, rows, kept[i]);
      var p := Project(cfg.lower(Strip(kept[i].project)), m.scope.name);
      assert p in e.projects;
    }
  }

  lemma NamesDistinct(cfg: Config, rows: seq<Row>, projects: seq<Project>)
    requires forall p :: p in projects <==> FirstLabel(cfg, rows, p.folded) == Some(p.name)
    requires forall i, j | 0 <= i < j < |projects| :: Less(projects[i].folded, projects[j].folded)
    ensures forall i, j | 0 <= i < j < |projects| :: cfg.lower(projects[i].name) != cfg.lower(projects[j].name)
  {
    forall i, j | 0 <= i < j < |projects| ensures cfg.lower(projects[i].name) != cfg.lower(projects[j].name) {
      assert projects[i] in projects && projects[j] in projects;
      LabelFolds(cfg, rows, projects[i].folded);
      LabelFolds(cfg, rows, projects[j].folded);
      LessIrreflexive(projects[i].folded);
    }
  }

  lemma ScopeIsProject(cfg: Config, rows: seq<Row>, row: Row)
    requires row in rows && ScopeOf(cfg, rows, row).InProject?
    ensures FirstLabel(cfg, rows, cfg.lower(Strip(row.project))) == Some(ScopeOf(cfg, rows, row).name)
  {
  }

  /** A row that is wanted, of a known kind, has content and is not flagged. */
  predicate Exportable(cfg: Config, r: Row) {
    && (cfg.includeInactive || r.active) && Strip(r.kind) in cfg.kinds
    && Strip(r.content) != "" && cfg.scan(r).None?
  }

  /** `export_agent`. */
  method ExportAgent(cfg: Config, rows: seq<Row>) returns (e: Export)
    requires UniqueIds(rows)
    ensures |e.memories| == |Kept(cfg, rows)|
    ensures forall k | 0 <= k < |e.memories| :: e.memories[k] == MemoryOf(cfg, rows, Kept(cfg, rows)[k])
    ensures e.skipped == Skips(cfg, rows) && |rows| == |e.memories| + |e.skipped|
    ensures forall p :: p in e.projects <==> FirstLabel(cfg, rows, p.folded) == Some(p.name)
    ensures forall i, j | 0 <= i < j < |e.projects| :: Less(e.projects[i].folded, e.projects[j].folded)
    ensures e.forkDropped == ForkDrops(cfg, rows, rows)
    ensures e.danglingDropped == DanglingDrops(cfg, rows, Kept(cfg, rows))
    ensures Importable(cfg, e)
    ensures forall r | r in rows ::
              (exists m :: m in e.memories && m.id == r.id) <==>
              Exportable(cfg, r)
    ensures forall m | m in e.memories :: exists r :: r in rows && m == MemoryOf(cfg, rows, r)
  {
    hide Kept, Skips, Refused, ForkDrops, DanglingDrops, SkipOf, Wins, Exported, ScopeOf, KeysOf, UniqueIds,
         FirstLabel, Importable, MemoryOf, ForkLinked, Undangled, DanglingIn, Less, Later, Reasons;
    var winners := ForkWinners(cfg, rows);
    var canonical := CanonicalProjects(cfg, rows);
    var projects := ProjectRecords(canonical);
    var linked, skipped, forkDropped := MemoryRecords(cfg, rows, winners, canonical);
    var memories, danglingDropped := DropDangling(linked);
    e := Export(projects, memories, skipped, forkDropped, danglingDropped);
    EveryRowOnce(cfg, rows);
    MemoriesDeserved(cfg, rows, linked, memories);
    ExportIsImportable(cfg, rows, e);
    ExportedRows(cfg, rows, e.memories);
  }

  /** A row is exported exactly when it is wanted, of a known kind, has content and is not
      flagged, and every record is a row's. */
  lemma ExportedRows(cfg: Config, rows: seq<Row>, memories: seq<Memory>)
    requires UniqueIds(rows) && |memories| == |Kept(cfg, rows)|
    requires forall k | 0 <= k < |memories| :: memories[k] == MemoryOf(cfg, rows, Kept(cfg, rows)[k])
    ensures forall r | r in rows ::
              (exists m :: m in memories && m.id == r.id) <==>
              Exportable(cfg, r)
    ensures forall m | m in memories :: exists r :: r in rows && m == MemoryOf(cfg, rows, r)
  {
    var kept := Kept(cfg, rows);
    hide ScopeOf, Link, Strip;
    forall r | r in rows
      ensures (exists m :: m in memories && m.id == r.id) <==>
              Exportable(cfg, r)
    {
      KeptIff(cfg, rows, r);
      if m :| m in memories && m.id == r.id {
        var k :| 0 <= k < |memories| && memories[k] == m;
        KeptIff(cfg, rows, kept[k]);
        SameIdSameRow(rows, kept[k], r);
      }
      if r in kept {
        var k :| 0 <= k < |kept| && kept[k] == r;
        assert memories[k] in memories && memories[k].id == r.id;
      }
    }
    forall m | m in memories ensures exists r :: r in rows && m == MemoryOf(cfg, rows, r) {
      var k :| 0 <= k < |memories| && memories[k] == m;
      KeptIff(cfg, rows, kept[k]);
    }
  }

  lemma SameIdSameRow(rows: seq<Row>, a: Row, b: Row)
    requires UniqueIds(rows) && a in rows && b in rows && a.id == b.id
    ensures a == b
  {
  }

  /** The fields of a record, from its row: trimmed kind and content, and the link kept
      exactly when this row is the latest claimant of an exported parent. */
  lemma RecordMeans(cfg: Config, rows: seq<Row>, row: Row)
    requires row in rows
    ensures var m := MemoryOf(cfg, rows, row);
            && m.id == row.id && m.kind == Strip(row.kind) && m.content == Strip(row.content)
            && (m.scope.OfAgent? <==> Strip(row.project) == "")
            && (m.scope.InProject? ==> cfg.lower(m.scope.name) == cfg.lower(Strip(row.project)))
            && (m.supersedes.Some? ==> m.supersedes.value == row.supersedes)
            && (m.supersedes.Some? <==>
                  && row.supersedes != "" && (cfg.includeInactive || row.active)
                  && Exported(cfg, rows, row.supersedes)
                  && forall r | r in rows && r != row && r.supersedes == row.supersedes &&
                                (cfg.includeInactive || r.active) ::
                       Less(r.createdAt, row.createdAt) || (r.createdAt == row.createdAt && Less(r.id, row.id)))
  {
    if Strip(row.project) != "" { ScopesAreEmitted(cfg, rows, row); }
    hide Strip, Less, Exported, FirstLabel;
  }

  /** Which reason a skipped row is given when several apply: the first of inactive,
      unknown kind, empty content, secret. */
  lemma ReasonMeans(cfg: Config, row: Row)
    ensures SkipOf(cfg, row) == Some(Inactive) <==> !(cfg.includeInactive || row.active)
    ensures forall k :: SkipOf(cfg, row) == Some(UnknownKind(k)) <==>
              ((cfg.includeInactive || row.active) && k == Strip(row.kind) && k !in cfg.kinds)
    ensures SkipOf(cfg, row) == Some(EmptyContent) <==>
            ((cfg.includeInactive || row.active) && Strip(row.kind) in cfg.kinds && Strip(row.content) == "")
    ensures forall what :: SkipOf(cfg, row) == Some(SecretFlagged(what)) <==>
              ((cfg.includeInactive || row.active) && Strip(row.kind) in cfg.kinds && Strip(row.content) != ""
               && cfg.scan(row) == Some(what))
  {
    hide Strip;
  }

  function SkippedFor(cfg: Config, rows: seq<Row>, reason: Skip): set<nat> {
    set i | 0 <= i < |rows| && SkipOf(cfg, rows[i]) == Some(reason)
  }

  /** Each reason is reported as often as rows were skipped for it. */
  lemma {:induction false} SkipsCounted(cfg: Config, rows: seq<Row>, reason: Skip)
    ensures Skips(cfg, rows)[reason] == |SkippedFor(cfg, rows, reason)|
  {
    hide SkipOf;
    if rows != [] {
      var n := |rows| - 1;
      SkipsCounted(cfg, rows[..n], reason);
      assert forall i | 0 <= i < n :: rows[..n][i] == rows[i];
      GrownByOne(SkippedFor(cfg, rows, reason), SkippedFor(cfg, rows[..n], reason), n,
                    SkipOf(cfg, rows[n]) == Some(reason));
    }
  }

  /** The rows whose link lost a fork: wanted, of a known kind, with content, and not the
      latest claimant of the parent they name. */
  ghost predicate LosesFork(cfg: Config, all: seq<Row>, row: Row) {
    && (cfg.includeInactive || row.active) && Strip(row.kind) in cfg.kinds && Strip(row.content) != ""
    && row.supersedes != ""
    && exists r :: r in all && r != row && r.supersedes == row.supersedes && (cfg.includeInactive || r.active) &&
                   !(Less(r.createdAt, row.createdAt) || (r.createdAt == row.createdAt && Less(r.id, row.id)))
  }

  ghost function ForkLosers(cfg: Config, all: seq<Row>, n: nat): set<nat>
    requires n <= |all|
  {
    set i | 0 <= i < n && LosesFork(cfg, all, all[i])
  }

  lemma {:induction false} ForkDropsCounted(cfg: Config, all: seq<Row>, n: nat)
    requires n <= |all|
    ensures ForkDrops(cfg, all, all[..n]) == |ForkLosers(cfg, all, n)|
  {
    hide LosesFork, Wins, ReachesLink, ForkDrops, Strip, Kept, Skips, SkipOf;
    NoRowsYet(cfg, all);
    if n > 0 {
      ForkDropsCounted(cfg, all, n - 1);
      OneMoreRow(cfg, all, n - 1);
      ForkLostIff(cfg, all, all[n - 1]);
      GrownByOne(ForkLosers(cfg, all, n), ForkLosers(cfg, all, n - 1), n - 1, LosesFork(cfg, all, all[n - 1]));
    }
  }

  lemma ForkLostIff(cfg: Config, all: seq<Row>, row: Row)
    ensures LosesFork(cfg, all, row) <==> ReachesLink(cfg, row) && row.supersedes != [] && !Wins(cfg, all, row)
  {
    hide Strip, Less;
  }

  /** The kept rows that win their parent but find it missing. */
  ghost function LostParents(cfg: Config, all: seq<Row>, kept: seq<Row>): set<nat> {
    set i | 0 <= i < |kept| && Wins(cfg, all, kept[i]) && !Exported(cfg, all, kept[i].supersedes)
  }

  lemma {:induction false} DanglingDropsCounted(cfg: Config, all: seq<Row>, kept: seq<Row>)
    ensures DanglingDrops(cfg, all, kept) == |LostParents(cfg, all, kept)|
  {
    hide Wins, Exported;
    if kept != [] {
      var n := |kept| - 1;
      DanglingDropsCounted(cfg, all, kept[..n]);
      assert forall i | 0 <= i < n :: kept[..n][i] == kept[i];
      GrownByOne(LostParents(cfg, all, kept), LostParents(cfg, all, kept[..n]), n,
                 Wins(cfg, all, kept[n]) && !Exported(cfg, all, kept[n].supersedes));
    }
  }

  /** The emitted spelling of a label is the first one in the rows. */
  lemma {:induction false} LabelIsFirst(cfg: Config, rows: seq<Row>, folded: string)
    requires FirstLabel(cfg, rows, folded).Some?
    ensures exists i :: 0 <= i < |rows| && Some(Strip(rows[i].project)) == FirstLabel(cfg, rows, folded) &&
                        Strip(rows[i].project) != "" && cfg.lower(Strip(rows[i].project)) == folded &&
                        forall j | 0 <= j < i ::
                          Strip(rows[j].project) == "" || cfg.lower(Strip(rows[j].project)) != folded
  {
    var n := |rows| - 1;
    hide Strip;
    if FirstLabel(cfg, rows[..n], folded).Some? {
      LabelIsFirst(cfg, rows[..n], folded);
    } else {
      forall j | 0 <= j < n ensures Strip(rows[j].project) == "" || cfg.lower(Strip(rows[j].project)) != folded {
        assert rows[..n][j] == rows[j];
        if Strip(rows[j].project) != "" { LabelIsCanonical(cfg, rows[..n], rows[j]); }
      }
    }
  }

  lemma MemoriesDeserved(cfg: Config, rows: seq<Row>, linked: seq<Memory>, memories: seq<Memory>)
    requires |linked| == |memories| == |Kept(cfg, rows)|
    requires forall k | 0 <= k < |linked| :: linked[k] == ForkLinked(cfg, rows, Kept(cfg, rows)[k])
    requires forall k | 0 <= k < |memories| :: memories[k] == Undangled(linked[k], KeysOf(linked))
    ensures forall k | 0 <= k < |memories| :: memories[k] == MemoryOf(cfg, rows, Kept(cfg, rows)[k])
    ensures DanglingIn(linked, KeysOf(linked)) == DanglingDrops(cfg, rows, Kept(cfg, rows))
  {
    KeysAreExported(cfg, rows, linked);
    DanglingCounted(cfg, rows, Kept(cfg, rows), linked, KeysOf(linked));
    hide Wins, Exported, ScopeOf, KeysOf, Kept;
  }

  lemma {:induction false} KeptIff(cfg: Config, rows: seq<Row>, r: Row)
    ensures r in Kept(cfg, rows) <==> r in rows && SkipOf(cfg, r).None?
  {
    if rows != [] {
      var n := |rows| - 1;
      assert rows == rows[..n] + [rows[n]];
      KeptIff(cfg, rows[..n], r);
    }
  }

  lemma KeysAreExported(cfg: Config, rows: seq<Row>, linked: seq<Memory>)
    requires |linked| == |Kept(cfg, rows)|
    requires forall k | 0 <= k < |linked| :: linked[k] == ForkLinked(cfg, rows, Kept(cfg, rows)[k])
    ensures forall id :: id in KeysOf(linked) <==> Exported(cfg, rows, id)
  {
    var kept := Kept(cfg, rows);
    var keys := KeysOf(linked);
    forall id | id in keys ensures Exported(cfg, rows, id) {
      var k :| 0 <= k < |linked| && linked[k].id == id;
      assert kept[k] in kept;
      KeptIff(cfg, rows, kept[k]);
    }
    forall id | Exported(cfg, rows, id) ensures id in keys {
      var r :| r in rows && r.id == id && SkipOf(cfg, r).None?;
      KeptIff(cfg, rows, r);
      var k :| 0 <= k < |kept| && kept[k] == r;
      assert linked[k] in linked && linked[k].id == id;
    }
  }

  // ---------------------------------------------------------------------
  // What V3 requires of the result
  // ---------------------------------------------------------------------

  /** Every input row is exported or skipped, exactly once: exported precisely when
      nothing speaks against it, skipped with the reason that does. */
  lemma EveryRowOnce(cfg: Config, rows: seq<Row>)
    ensures multiset(rows) == multiset(Kept(cfg, rows)) + multiset(Refused(cfg, rows))
    ensures forall r | r in Kept(cfg, rows) :: SkipOf(cfg, r).None?
    ensures forall r | r in Refused(cfg, rows) :: SkipOf(cfg, r).Some?
    ensures Skips(cfg, rows) == multiset(Reasons(cfg, Refused(cfg, rows)))
    ensures |rows| == |Kept(cfg, rows)| + |Skips(cfg, rows)|
  {
    RowsSplit(cfg, rows);
    SkipsAreReasons(cfg, rows);
    hide SkipOf, Kept, Refused, Skips;
    forall r | r in Kept(cfg, rows) ensures SkipOf(cfg, r).None? { KeptIff(cfg, rows, r); }
    assert |multiset(rows)| == |multiset(Kept(cfg, rows))| + |multiset(Refused(cfg, rows))|;
  }

  lemma {:induction false} RowsSplit(cfg: Config, rows: seq<Row>)
    ensures multiset(rows) == multiset(Kept(cfg, rows)) + multiset(Refused(cfg, rows))
  {
    hide SkipOf;
    if rows != [] {
      assert rows == rows[..|rows|-1] + [rows[|rows|-1]];
      RowsSplit(cfg, rows[..|rows|-1]);
    }
  }

  function Reasons(cfg: Config, rows: seq<Row>): seq<Skip> {
    seq(|rows|, k requires 0 <= k < |rows| => ReasonOf(cfg, rows[k]))
  }

  function ReasonOf(cfg: Config, row: Row): Skip { if SkipOf(cfg, row).Some? then SkipOf(cfg, row).value else Inactive }

  lemma {:induction false} SkipsAreReasons(cfg: Config, rows: seq<Row>)
    ensures forall r | r in Refused(cfg, rows) :: SkipOf(cfg, r).Some?
    ensures Skips(cfg, rows) == multiset(Reasons(cfg, Refused(cfg, rows)))
    ensures |Skips(cfg, rows)| == |Refused(cfg, rows)|
  {
    hide SkipOf;
    if rows != [] {
      var last := rows[|rows|-1];
      var refused := Refused(cfg, rows[..|rows|-1]);
      SkipsAreReasons(cfg, rows[..|rows|-1]);
      if SkipOf(cfg, last).Some? {
        assert Reasons(cfg, refused + [last]) == Reasons(cfg, refused) + [ReasonOf(cfg, last)];
      } else {
        assert refused + [] == refused;
      }
    }
  }

  lemma {:induction false} KeptIdsDistinct(cfg: Config, rows: seq<Row>)
    requires UniqueIds(rows)
    ensures UniqueIds(Kept(cfg, rows))
  {
    if rows != [] {
      var n := |rows| - 1;
      KeptIdsDistinct(cfg, rows[..n]);
      forall k | 0 <= k < |Kept(cfg, rows[..n])| ensures Kept(cfg, rows[..n])[k].id != rows[n].id {
        KeptIff(cfg, rows[..n], Kept(cfg, rows[..n])[k]);
      }
    }
  }

  /** No forks: no two exported records keep the same parent. */
  lemma NoForks(cfg: Config, rows: seq<Row>, i: nat, j: nat)
    requires UniqueIds(rows) && i < j < |Kept(cfg, rows)|
    requires Link(cfg, rows, Kept(cfg, rows)[i]).Some?
    ensures Link(cfg, rows, Kept(cfg, rows)[i]) != Link(cfg, rows, Kept(cfg, rows)[j])
  {
    var a, b := Kept(cfg, rows)[i], Kept(cfg, rows)[j];
    KeptIdsDistinct(cfg, rows);
    KeptIff(cfg, rows, a);
    KeptIff(cfg, rows, b);
    if Link(cfg, rows, a) == Link(cfg, rows, b) {
      assert Later(a, b) && Later(b, a);
      LaterTransitive(a, b, a);
      LessIrreflexive(a.createdAt);
      LessIrreflexive(a.id);
    }
  }

  /** No dangling links: a kept parent is the id of an exported record. */
  lemma NoDangling(cfg: Config, rows: seq<Row>, i: nat)
    requires i < |Kept(cfg, rows)| && Link(cfg, rows, Kept(cfg, rows)[i]).Some?
    ensures exists k :: 0 <= k < |Kept(cfg, rows)| && Link(cfg, rows, Kept(cfg, rows)[i]) == Some(Kept(cfg, rows)[k].id)
  {
    var parent := Link(cfg, rows, Kept(cfg, rows)[i]).value;
    var r :| r in rows && r.id == parent && SkipOf(cfg, r).None?;
    KeptIff(cfg, rows, r);
    var k :| 0 <= k < |Kept(cfg, rows)| && Kept(cfg, rows)[k] == r;
  }

  /** A project scope names the emitted spelling of the row's own label. */
  lemma ScopesAreEmitted(cfg: Config, rows: seq<Row>, row: Row)
    requires row in rows && Strip(row.project) != []
    ensures var scope := ScopeOf(cfg, rows, row);
            scope.InProject? &&
            FirstLabel(cfg, rows, cfg.lower(Strip(row.project))) == Some(scope.name) &&
            cfg.lower(scope.name) == cfg.lower(Strip(row.project))
  {
    LabelIsCanonical(cfg, rows, row);
    LabelFolds(cfg, rows, cfg.lower(Strip(row.project)));
  }

  lemma {:induction false} LabelFolds(cfg: Config, rows: seq<Row>, folded: string)
    ensures FirstLabel(cfg, rows, folded).Some? ==> cfg.lower(FirstLabel(cfg, rows, folded).value) == folded
  {
    if rows != [] { LabelFolds(cfg, rows[..|rows|-1], folded); }
  }
}
