/**
 `access_enforcement`: the fail-closed decision over a JSON permissions model,
 and the admin-folding transformation `access_gate` wraps around it. Reason
 strings are modelled by their parts.
 */
module AccessModel {
  import opened Prelude
  import opened FiniteSets
  import opened PyText

  datatype Json =
    | JNull | JBool(b: bool) | JNum(n: int) | JStr(s: string)
    | JList(items: seq<Json>) | JObj(fields: map<string, Json>)

  const SECTION_SYSTEMS := "systems"
  const ADMINS := "admins"

  /** `dict.get`: absent reads as null. */
  function Get(j: Json, key: string): Json {
    if j.JObj? && key in j.fields then j.fields[key] else JNull
  }

  // ---------------------------------------------------------------------
  // Identities
  // ---------------------------------------------------------------------

  predicate IsTrimmed(c: char) { c == ' ' || c == '\t' || c == '\r' || c == '\n' }

  function LowerChar(c: char): char { if 'A' <= c <= 'Z' then (c as int + 32) as char else c }

  function Lower(s: string): string { seq(|s|, i requires 0 <= i < |s| => LowerChar(s[i])) }

  predicate IsAscii(s: string) { forall i | 0 <= i < |s| :: s[i] < '\U{80}' }

  /** `_norm`: "" for anything but a plain ASCII string. */
  function Norm(j: Json): string {
    if j.JStr? && IsAscii(j.s) then Lower(StripOf(j.s, IsTrimmed)) else ""
  }

  /** `_email_of`: a string, or the email field of an object. */
  function EmailOf(member: Json): string {
    if member.JObj? then Norm(Get(member, "email")) else Norm(member)
  }

  /** The usable emails of a member list. */
  function Emails(members: seq<Json>): set<string> {
    set i | 0 <= i < |members| && EmailOf(members[i]) != "" :: EmailOf(members[i])
  }

  lemma EmailsAppend(a: seq<Json>, b: seq<Json>)
    ensures Emails(a + b) == Emails(a) + Emails(b)
  {
    var ab := a + b;
    forall e | e in Emails(a) ensures e in Emails(ab) {
      var i :| 0 <= i < |a| && EmailOf(a[i]) == e && e != "";
      assert ab[i] == a[i];
    }
    forall e | e in Emails(b) ensures e in Emails(ab) {
      var i :| 0 <= i < |b| && EmailOf(b[i]) == e && e != "";
      assert ab[|a| + i] == b[i];
    }
  }

  lemma EmailsSnoc(a: seq<Json>, m: Json)
    ensures Emails(a + [m]) == Emails(a) + (if EmailOf(m) != "" then {EmailOf(m)} else {})
  {
    EmailsAppend(a, [m]);
    assert Emails([m]) == if EmailOf(m) != "" then {EmailOf(m)} else {} by { assert [m][0] == m; }
  }

  function ListOf(j: Json): seq<Json> { if j.JList? then j.items else [] }

  /** `_admins`. */
  function Admins(model: Json): set<string> { Emails(ListOf(Get(model, ADMINS))) }

  // ---------------------------------------------------------------------
  // Rosters
  // ---------------------------------------------------------------------

  /** `_valid_seq`: an absent container is a valid empty one. */
  predicate ValidSeq(j: Json) { j.JList? || j.JNull? }

  /** The members of a department, or nothing if it is not a member list. */
  function Members(model: Json, group: string): seq<Json> {
    ListOf(Get(Get(model, "departments"), group))
  }

  function ScopeMembers(model: Json, scope: Json): seq<Json> {
    if scope.JStr? then Members(model, scope.s) else []
  }

  /** Emails reached through a list of scopes. */
  function ScopeEmails(model: Json, scopes: seq<Json>): set<string> {
    if scopes == [] then {}
    else ScopeEmails(model, scopes[..|scopes|-1]) + Emails(ScopeMembers(model, scopes[|scopes|-1]))
  }

  predicate BadMember(member: Json) { EmailOf(member) == "" }

  /** A scope that is no string, names no member list, or has an unusable member. */
  predicate BadScope(model: Json, scope: Json) {
    !scope.JStr? || !Get(Get(model, "departments"), scope.s).JList? ||
    exists m | m in Members(model, scope.s) :: BadMember(m)
  }

  function RosterEmails(model: Json, roster: Json): set<string> {
    ScopeEmails(model, ListOf(Get(roster, "scopes"))) + Emails(ListOf(Get(roster, "individuals")))
  }

  predicate BadRoster(model: Json, roster: Json) {
    || !ValidSeq(Get(roster, "scopes"))
    || (exists s | s in ListOf(Get(roster, "scopes")) :: BadScope(model, s))
    || !ValidSeq(Get(roster, "individuals"))
    || (exists m | m in ListOf(Get(roster, "individuals")) :: BadMember(m))
  }

  predicate IsFlat(field: Json) {
    field.JObj? && ("scopes" in field.fields || "individuals" in field.fields)
  }

  function SubRoster(field: Json, name: string): seq<Json> {
    if Get(field, name).JObj? then [Get(field, name)] else []
  }

  /** `_rosters_and_flag`: a flat roster wins; otherwise the `all` and `own` objects. */
  function Rosters(field: Json): seq<Json> {
    if IsFlat(field) then [field] else SubRoster(field, "all") + SubRoster(field, "own")
  }

  predicate BadField(field: Json) {
    if field.JNull? then false
    else if !field.JObj? then true
    else if IsFlat(field) then "all" in field.fields || "own" in field.fields
    else exists k | k in field.fields :: !(k == "all" || k == "own") || !field.fields[k].JObj?
  }

  function FieldEmails(model: Json, rosters: seq<Json>): set<string> {
    if rosters == [] then {}
    else FieldEmails(model, rosters[..|rosters|-1]) + RosterEmails(model, rosters[|rosters|-1])
  }

  predicate Misconfigured(model: Json, field: Json) {
    BadField(field) || exists r | r in Rosters(field) :: BadRoster(model, r)
  }

  // --- the loops -------------------------------------------------------

  method CollectMembers(members: seq<Json>) returns (emails: set<string>, bad: bool)
    ensures emails == Emails(members)
    ensures bad <==> exists m | m in members :: BadMember(m)
  {
    emails, bad := {}, false;
    for i := 0 to |members|
      invariant emails == Emails(members[..i])
      invariant bad <==> exists m | m in members[..i] :: BadMember(m)
    {
      var member := members[i];
      assert members[..i+1] == members[..i] + [member];
      EmailsSnoc(members[..i], member);
      var e := EmailOf(member);
      if e != "" { emails := emails + {e}; } else { bad := true; assert BadMember(member); }
    }
    assert members[..|members|] == members;
  }

  method CollectScopes(model: Json, scopes: seq<Json>) returns (emails: set<string>, bad: bool)
    ensures emails == ScopeEmails(model, scopes)
    ensures bad <==> exists s | s in scopes :: BadScope(model, s)
  {
    hide Emails, EmailOf, BadMember, ListOf;
    emails, bad := {}, false;
    for i := 0 to |scopes|
      invariant emails == ScopeEmails(model, scopes[..i])
      invariant bad <==> exists s | s in scopes[..i] :: BadScope(model, s)
    {
      var scope := scopes[i];
      assert scopes[..i+1] == scopes[..i] + [scope];
      var fromScope, badMember := CollectMembers(ScopeMembers(model, scope));
      emails := emails + fromScope;
      var badScope := !scope.JStr? || !Get(Get(model, "departments"), scope.s).JList? || badMember;
      assert badScope <==> BadScope(model, scope);
      bad := bad || badScope;
    }
    assert scopes[..|scopes|] == scopes;
  }

  method CollectRoster(model: Json, roster: Json) returns (emails: set<string>, bad: bool)
    ensures emails == RosterEmails(model, roster)
    ensures bad <==> BadRoster(model, roster)
  {
    hide Emails, EmailOf, BadScope, ScopeEmails;
    var fromScopes, badScope := CollectScopes(model, ListOf(Get(roster, "scopes")));
    var individuals, badIndividual := CollectMembers(ListOf(Get(roster, "individuals")));
    emails := fromScopes + individuals;
    bad := !ValidSeq(Get(roster, "scopes")) || badScope || !ValidSeq(Get(roster, "individuals")) || badIndividual;
  }

  /** `resolve_allowed_emails`, with the item field already looked up. */
  method ResolveAllowedEmails(model: Json, field: Json, admins: set<string>)
    returns (allowed: set<string>, configured: bool, misconfigured: bool)
    ensures allowed == admins + FieldEmails(model, Rosters(field))
    ensures configured <==> FieldEmails(model, Rosters(field)) != {}
    ensures misconfigured <==> Misconfigured(model, field)
  {
    hide RosterEmails, BadRoster, BadField, Rosters;
    var rosters := Rosters(field);
    misconfigured := BadField(field);
    var emails := {};
    for i := 0 to |rosters|
      invariant emails == FieldEmails(model, rosters[..i])
      invariant misconfigured <==> BadField(field) || exists r | r in rosters[..i] :: BadRoster(model, r)
    {
      assert rosters[..i+1] == rosters[..i] + [rosters[i]];
      var more, bad := CollectRoster(model, rosters[i]);
      emails := emails + more;
      misconfigured := misconfigured || bad;
    }
    assert rosters[..|rosters|] == rosters;
    configured := emails != {};
    allowed := admins + emails;
  }

  // ---------------------------------------------------------------------
  // The decision
  // ---------------------------------------------------------------------

  datatype Flag = Plain | IsMisconfigured | IsUnconfigured

  datatype Where = WholeModel | Section | Item

  datatype Reason =
    | MalformedKey
    | MalformedModel(at: Where)
    | Admin(section: string, key: string)
    | Unknown(section: string, key: string)
    | Public(section: string, key: string)
    | NoIdentity(section: string, key: string)
    | Allowed(section: string, key: string, field: string)
    | Denied(section: string, key: string, field: string, flag: Flag)

  datatype Decision = Decision(allow: bool, reason: Reason)

  predicate IdentChar(c: char) {
    'A' <= c <= 'Z' || 'a' <= c <= 'z' || '0' <= c <= '9' || c == '_' || c == '.' || c == '-'
  }

  /** `[A-Za-z0-9_.-]{1,128}`, anchored at both ends. */
  predicate IsIdent(s: string) {
    1 <= |s| <= 128 && forall i | 0 <= i < |s| :: IdentChar(s[i])
  }

  predicate IsIdentJson(j: Json) { j.JStr? && IsIdent(j.s) }

  function DenyFlag(misconfigured: bool, configured: bool): Flag {
    if misconfigured then IsMisconfigured else if !configured then IsUnconfigured else Plain
  }

  /** The decision for an identifier-shaped request, given the admin set. */
  function Decide(model: Json, admins: set<string>, e: string, key: string, section: string, field: string): Decision {
    var isAdmin := e != "" && e in admins;
    var items := Get(model, section);
    var item := Get(items, key);
    if !model.JObj? then Decision(false, MalformedModel(WholeModel))
    else if !items.JObj? then
      (if isAdmin then Decision(true, Admin(section, key)) else Decision(false, MalformedModel(Section)))
    else if item.JNull? then
      (if isAdmin then Decision(true, Admin(section, key)) else Decision(false, Unknown(section, key)))
    else if !item.JObj? then
      (if isAdmin then Decision(true, Admin(section, key)) else Decision(false, MalformedModel(Item)))
    else if section == SECTION_SYSTEMS && Get(item, "public") == JBool(true) then Decision(true, Public(section, key))
    else if e == "" then Decision(false, NoIdentity(section, key))
    else if isAdmin then Decision(true, Admin(section, key))
    else
      var emails := FieldEmails(model, Rosters(Get(item, field)));
      if e in emails then Decision(true, Allowed(section, key, field))
      else Decision(false, Denied(section, key, field, DenyFlag(Misconfigured(model, Get(item, field)), emails != {})))
  }

  /** `is_allowed` on any caller values. */
  function IsAllowed(model: Json, email: Json, key: Json, section: Json, field: Json): Decision {
    if !(IsIdentJson(key) && IsIdentJson(section) && IsIdentJson(field)) then Decision(false, MalformedKey)
    else Decide(model, Admins(model), Norm(email), key.s, section.s, field.s)
  }

  method CheckAllowed(model: Json, email: Json, key: Json, section: Json, field: Json) returns (d: Decision)
    ensures d == IsAllowed(model, email, key, section, field)
  {
    if !(key.JStr? && section.JStr? && field.JStr?) { return Decision(false, MalformedKey); }
    if !(IsIdent(key.s) && IsIdent(section.s) && IsIdent(field.s)) { return Decision(false, MalformedKey); }
    hide Rosters, FieldEmails, Misconfigured, Emails, Norm;
    var admins, _ := CollectMembers(ListOf(Get(model, ADMINS)));
    var e := Norm(email);
    var isAdmin := e != "" && e in admins;
    if !model.JObj? { return Decision(false, MalformedModel(WholeModel)); }
    var items := Get(model, section.s);
    if !items.JObj? {
      if isAdmin { return Decision(true, Admin(section.s, key.s)); }
      return Decision(false, MalformedModel(Section));
    }
    var item := Get(items, key.s);
    if item.JNull? {
      if isAdmin { return Decision(true, Admin(section.s, key.s)); }
      return Decision(false, Unknown(section.s, key.s));
    }
    if !item.JObj? {
      if isAdmin { return Decision(true, Admin(section.s, key.s)); }
      return Decision(false, MalformedModel(Item));
    }
    if section.s == SECTION_SYSTEMS && Get(item, "public") == JBool(true) {
      return Decision(true, Public(section.s, key.s));
    }
    if e == "" { return Decision(false, NoIdentity(section.s, key.s)); }
    if isAdmin { return Decision(true, Admin(section.s, key.s)); }
    var allowed, configured, misconfigured := ResolveAllowedEmails(model, Get(item, field.s), admins);
    if e in allowed { return Decision(true, Allowed(section.s, key.s, field.s)); }
    return Decision(false, Denied(section.s, key.s, field.s, DenyFlag(misconfigured, configured)));
  }

  // ---------------------------------------------------------------------
  // Groups
  // ---------------------------------------------------------------------

  predicate InGroup(model: Json, e: string, group: string) {
    e != "" && Get(model, "departments").JObj? && group in Get(model, "departments").fields &&
    e in Emails(Members(model, group))
  }

  /** `groups_for_email`: sorted, each group once. */
  method GroupsForEmail(model: Json, email: Json) returns (groups: seq<string>)
    ensures forall g :: g in groups <==> InGroup(model, Norm(email), g)
    ensures forall i, j | 0 <= i < j < |groups| :: Less(groups[i], groups[j])
  {
    var e := Norm(email);
    groups := [];
    if e == "" || !Get(model, "departments").JObj? { return; }
    hide Norm, Emails, EmailOf;
    var names := Get(model, "departments").fields.Keys;
    var found: set<string> := {};
    var todo := names;
    while todo != {}
      invariant todo <= names
      invariant forall g :: g in found <==> g !in todo && InGroup(model, e, g)
      decreases todo
    {
      var group :| group in todo;
      var emails, _ := CollectMembers(Members(model, group));
      if e in emails { found := found + {group}; }
      todo := todo - {group};
    }
    groups := SortStrings(found);
  }

  lemma {:induction false} ScopeEmailsIff(model: Json, scopes: seq<Json>, e: string)
    ensures e in ScopeEmails(model, scopes) <==>
            exists i :: 0 <= i < |scopes| && e in Emails(ScopeMembers(model, scopes[i]))
  {
    hide Emails, ScopeMembers;
    if scopes != [] {
      var n := |scopes| - 1;
      ScopeEmailsIff(model, scopes[..n], e);
      if e in ScopeEmails(model, scopes[..n]) {
        var i :| 0 <= i < n && e in Emails(ScopeMembers(model, scopes[..n][i]));
        assert e in Emails(ScopeMembers(model, scopes[i]));
      }
      if exists i :: 0 <= i < |scopes| && e in Emails(ScopeMembers(model, scopes[i])) {
        var i :| 0 <= i < |scopes| && e in Emails(ScopeMembers(model, scopes[i]));
        if i < n { assert scopes[..n][i] == scopes[i]; }
      }
    }
  }

  /** For a scopes-only roster of a non-public item, a non-admin is allowed exactly
      when one of the roster's scopes is among its groups. */
  lemma AllowedIffInScope(model: Json, email: Json, key: string, section: string, field: string)
    requires IsIdent(key) && IsIdent(section) && IsIdent(field)
    requires model.JObj? && Get(model, section).JObj? && Get(Get(model, section), key).JObj?
    requires var item := Get(Get(model, section), key);
             !(section == SECTION_SYSTEMS && Get(item, "public") == JBool(true)) &&
             IsFlat(Get(item, field)) && ListOf(Get(Get(item, field), "individuals")) == []
    requires Norm(email) !in Admins(model)
    ensures var scopes := ListOf(Get(Get(Get(Get(model, section), key), field), "scopes"));
            IsAllowed(model, email, JStr(key), JStr(section), JStr(field)).allow <==>
            exists i :: 0 <= i < |scopes| && scopes[i].JStr? && InGroup(model, Norm(email), scopes[i].s)
  {
    var e := Norm(email);
    var roster := Get(Get(Get(model, section), key), field);
    var scopes := ListOf(Get(roster, "scopes"));
    assert [roster][..0] == [] && [roster][|[roster]|-1] == roster;
    assert FieldEmails(model, Rosters(roster)) == RosterEmails(model, roster);
    assert Emails([]) == {};
    ScopeEmailsIff(model, scopes, e);
    forall i | 0 <= i < |scopes| && e != ""
      ensures e in Emails(ScopeMembers(model, scopes[i])) <==> scopes[i].JStr? && InGroup(model, e, scopes[i].s)
    {
      ScopeNeedsGroup(model, scopes[i], e);
    }
  }

  lemma ScopeNeedsGroup(model: Json, scope: Json, e: string)
    requires e != ""
    ensures e in Emails(ScopeMembers(model, scope)) <==> scope.JStr? && InGroup(model, e, scope.s)
  {
  }

  // ---------------------------------------------------------------------
  // What the decision means
  // ---------------------------------------------------------------------

  /** Identities: ASCII text without surrounding blanks, in lower case; nothing else counts. */
  lemma NormMeans(pre: string, s: string, post: string)
    requires IsAscii(pre + s + post) && s != "" && !IsTrimmed(s[0]) && !IsTrimmed(s[|s|-1])
    requires AllOf(pre, IsTrimmed) && AllOf(post, IsTrimmed)
    ensures var n := Norm(JStr(pre + s + post));
            |n| == |s| && forall i | 0 <= i < |s| ::
              n[i] == if 'A' <= s[i] <= 'Z' then (s[i] as int - 'A' as int + 'a' as int) as char else s[i]
  {
    StripPadded(pre, s, post, IsTrimmed);
  }

  lemma NormOfOthers(j: Json)
    requires !j.JStr? || !IsAscii(j.s)
    ensures Norm(j) == ""
  {
  }

  /** The keys a request may carry. */
  lemma IdentIff(j: Json)
    ensures IsIdentJson(j) <==>
            (j.JStr? && 1 <= |j.s| <= 128 && forall i | 0 <= i < |j.s| ::
               'a' <= j.s[i] <= 'z' || 'A' <= j.s[i] <= 'Z' || '0' <= j.s[i] <= '9' ||
               j.s[i] == '_' || j.s[i] == '.' || j.s[i] == '-')
  {
  }

  lemma EmailsIff(members: seq<Json>, e: string)
    ensures e in Emails(members) <==> e != "" && exists m :: m in members && EmailOf(m) == e
  {
  }

  /** A member is an object with an email, or the email itself. */
  lemma EmailOfMeans(m: Json)
    ensures EmailOf(m) == match m
                          case JObj(fields) => if "email" in fields then Norm(fields["email"]) else ""
                          case JStr(_) => Norm(m)
                          case _ => ""
  {
  }

  /** The rosters of a field: the field itself when it lists scopes or individuals, else
      the objects it keeps under `all` and `own`. */
  predicate IsRosterOf(field: Json, r: Json) {
    field.JObj? && r.JObj? &&
    if "scopes" in field.fields || "individuals" in field.fields then r == field
    else r == Get(field, "all") || r == Get(field, "own")
  }

  lemma RostersIff(field: Json, r: Json)
    ensures r in Rosters(field) <==> IsRosterOf(field, r)
  {
  }

  /** A roster reaches an email through an individual, or a member of a named department. */
  predicate Reaches(model: Json, r: Json, e: string) {
    || (exists m :: m in ListOf(Get(r, "individuals")) && EmailOf(m) == e)
    || (exists i | 0 <= i < |ListOf(Get(r, "scopes"))| ::
          var s := ListOf(Get(r, "scopes"))[i];
          s.JStr? && exists m :: m in ListOf(Get(Get(model, "departments"), s.s)) && EmailOf(m) == e)
  }

  lemma RosterEmailsIff(model: Json, r: Json, e: string)
    ensures e in RosterEmails(model, r) <==> e != "" && Reaches(model, r, e)
  {
    var scopes := ListOf(Get(r, "scopes"));
    ScopeEmailsIff(model, scopes, e);
    EmailsIff(ListOf(Get(r, "individuals")), e);
    forall i | 0 <= i < |scopes|
      ensures e in Emails(ScopeMembers(model, scopes[i])) <==>
              e != "" && scopes[i].JStr? &&
              exists m :: m in ListOf(Get(Get(model, "departments"), scopes[i].s)) && EmailOf(m) == e
    {
      EmailsIff(ScopeMembers(model, scopes[i]), e);
    }
    hide Emails, EmailOf, ScopeEmails, ScopeMembers;
  }

  lemma {:induction false} FieldEmailsIff(model: Json, rosters: seq<Json>, e: string)
    ensures e in FieldEmails(model, rosters) <==> e != "" && exists r :: r in rosters && Reaches(model, r, e)
  {
    hide RosterEmails, Reaches;
    if rosters != [] {
      var n := |rosters| - 1;
      assert rosters == rosters[..n] + [rosters[n]];
      FieldEmailsIff(model, rosters[..n], e);
      RosterEmailsIff(model, rosters[n], e);
    }
  }

  ghost predicate Listed(model: Json, field: Json, e: string) {
    e != "" && exists r :: IsRosterOf(field, r) && Reaches(model, r, e)
  }

  lemma ListedIff(model: Json, field: Json, e: string)
    ensures e in FieldEmails(model, Rosters(field)) <==> Listed(model, field, e)
  {
    FieldEmailsIff(model, Rosters(field), e);
    hide Rosters, FieldEmails, Reaches, IsRosterOf;
    forall r ensures r in Rosters(field) <==> IsRosterOf(field, r) { RostersIff(field, r); }
  }

  /** An identifier-shaped request for an item that exists is allowed if and only if the
      item is a public system, or the requester is known and is an admin or listed. For an
      item that does not, or a broken model, only admins are. */
  lemma AllowedIff(model: Json, email: Json, key: string, section: string, field: string)
    requires IsIdent(key) && IsIdent(section) && IsIdent(field)
    ensures var d := IsAllowed(model, email, JStr(key), JStr(section), JStr(field));
            var item := Get(Get(model, section), key);
            var admin := Norm(email) != "" && Norm(email) in Admins(model);
            d.allow <==>
            if model.JObj? && item.JObj? then
              || (section == "systems" && Get(item, "public") == JBool(true))
              || admin || Listed(model, Get(item, field), Norm(email))
            else admin && model.JObj?
  {
    var item := Get(Get(model, section), key);
    ListedIff(model, Get(item, field), Norm(email));
    assert Norm(email) == "" ==> !Listed(model, Get(item, field), Norm(email));
    hide Rosters, FieldEmails, Misconfigured, Norm, Listed, Emails;
  }

  /** Why a request is allowed: a public system before an admin before a roster. */
  lemma AllowanceMeans(model: Json, email: Json, key: string, section: string, field: string)
    requires IsIdent(key) && IsIdent(section) && IsIdent(field)
    requires IsAllowed(model, email, JStr(key), JStr(section), JStr(field)).allow
    ensures var item := Get(Get(model, section), key);
            IsAllowed(model, email, JStr(key), JStr(section), JStr(field)).reason ==
            if item.JObj? && section == "systems" && Get(item, "public") == JBool(true) then Public(section, key)
            else if Norm(email) in Admins(model) then Admin(section, key)
            else Allowed(section, key, field)
  {
    hide Rosters, FieldEmails, Misconfigured, Norm, Emails;
  }

  /** The `own` roster counts as much as the `all` roster. */
  lemma OwnRosterAllows(model: Json, email: Json, key: string, section: string, field: string, m: Json)
    requires IsIdent(key) && IsIdent(section) && IsIdent(field) && model.JObj?
    requires var item := Get(Get(model, section), key);
             var f := Get(item, field);
             item.JObj? && f.JObj? && "scopes" !in f.fields && "individuals" !in f.fields &&
             Get(f, "own").JObj? && m in ListOf(Get(Get(f, "own"), "individuals"))
    requires EmailOf(m) == Norm(email) != ""
    ensures IsAllowed(model, email, JStr(key), JStr(section), JStr(field)).allow
  {
    var f := Get(Get(Get(model, section), key), field);
    assert IsRosterOf(f, Get(f, "own")) && Reaches(model, Get(f, "own"), Norm(email));
    AllowedIff(model, email, key, section, field);
    hide IsAllowed, Norm, EmailOf;
  }

  /** Why a request for an existing item is refused: no usable identity, or not listed, and
      then whether the roster is malformed or reaches nobody. */
  lemma RefusalMeans(model: Json, email: Json, key: string, section: string, field: string)
    requires IsIdent(key) && IsIdent(section) && IsIdent(field)
    requires model.JObj? && Get(Get(model, section), key).JObj?
    requires !IsAllowed(model, email, JStr(key), JStr(section), JStr(field)).allow
    ensures var f := Get(Get(Get(model, section), key), field);
            IsAllowed(model, email, JStr(key), JStr(section), JStr(field)).reason ==
            if Norm(email) == "" then NoIdentity(section, key)
            else Denied(section, key, field,
                        if Misconfigured(model, f) then IsMisconfigured
                        else if forall e :: !Listed(model, f, e) then IsUnconfigured
                        else Plain)
  {
    var f := Get(Get(Get(model, section), key), field);
    forall e ensures e in FieldEmails(model, Rosters(f)) <==> Listed(model, f, e) { ListedIff(model, f, e); }
    assert FieldEmails(model, Rosters(f)) == {} <==> forall e :: e !in FieldEmails(model, Rosters(f));
    hide Rosters, FieldEmails, Misconfigured, Norm, Listed, Emails;
  }

  /** Why any other request is refused to a requester who is no admin. */
  lemma BrokenModelMeans(model: Json, email: Json, key: string, section: string, field: string)
    requires IsIdent(key) && IsIdent(section) && IsIdent(field)
    requires !IsAllowed(model, email, JStr(key), JStr(section), JStr(field)).allow
    ensures var reason := IsAllowed(model, email, JStr(key), JStr(section), JStr(field)).reason;
            && (!model.JObj? ==> reason == MalformedModel(WholeModel))
            && (model.JObj? && !Get(model, section).JObj? ==> reason == MalformedModel(Section))
            && (Get(model, section).JObj? && Get(Get(model, section), key).JNull? ==> reason == Unknown(section, key))
            && ((Get(model, section).JObj? && !Get(Get(model, section), key).JNull? &&
                 !Get(Get(model, section), key).JObj?) ==> reason == MalformedModel(Item))
  {
    hide Rosters, FieldEmails, Misconfigured, Norm, Emails;
  }

  /** When a roster is malformed: a container that is no list, a scope that names no member
      list, or a member without a usable email, listed or reached. */
  lemma RosterMalformedIff(model: Json, r: Json)
    ensures BadRoster(model, r) <==>
            || !(Get(r, "scopes").JList? || Get(r, "scopes").JNull?)
            || !(Get(r, "individuals").JList? || Get(r, "individuals").JNull?)
            || (exists m :: m in ListOf(Get(r, "individuals")) && EmailOf(m) == "")
            || (exists s :: s in ListOf(Get(r, "scopes")) &&
                  (!s.JStr? || !Get(Get(model, "departments"), s.s).JList? ||
                   exists m :: m in ListOf(Get(Get(model, "departments"), s.s)) && EmailOf(m) == ""))
  {
    hide EmailOf;
    assert forall m :: BadMember(m) <==> EmailOf(m) == "";
  }

  /** When a whole field is: not an object, both forms mixed, an entry beside `all` and
      `own`, one of these no object, or a malformed roster. An absent field is not. */
  lemma FieldMalformedIff(model: Json, field: Json)
    ensures Misconfigured(model, field) <==>
            match field
            case JNull => false
            case JObj(fields) =>
              (if "scopes" in fields || "individuals" in fields
               then "all" in fields || "own" in fields
               else exists k :: k in fields && ((k != "all" && k != "own") || !fields[k].JObj?)) ||
              exists r :: IsRosterOf(field, r) && BadRoster(model, r)
            case _ => true
  {
    hide BadRoster;
    forall r ensures r in Rosters(field) <==> IsRosterOf(field, r) { RostersIff(field, r); }
    hide IsRosterOf, Rosters;
    if !field.JObj? { NoRosters(field); }
  }

  lemma NoRosters(field: Json)
    requires !field.JObj?
    ensures Rosters(field) == []
  {
  }
}
