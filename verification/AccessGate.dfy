/** `AccessGate`: the cached, admin-folded model and the mode policy around it. */
module AccessGate {
  import opened Prelude
  import opened AccessModel

  datatype Mode = Off | Log | Enforce

  datatype GateResult = GateResult(checked: bool, allow: bool, reason: Option<Reason>, blocked: bool)

  /** A requester value: an identity of known kind, or something unrecognised. */
  datatype Requester = ByEmail(email: Json) | OtherKind

  /** The member lists of the named departments, one after the other. */
  function FoldedMembers(model: Json, scopes: seq<string>): seq<Json> {
    if scopes == [] then [] else FoldedMembers(model, scopes[..|scopes|-1]) + Members(model, scopes[|scopes|-1])
  }

  /** `_apply_admin_scopes`: a copy of the model with the scopes' members among the admins. */
  function Fold(model: Json, scopes: seq<string>): Json {
    if !model.JObj? || scopes == [] then model
    else JObj(model.fields[ADMINS := JList(ListOf(Get(model, ADMINS)) + FoldedMembers(model, scopes))])
  }

  /** e is the email of a member of one of the admin scopes. */
  predicate InAdminScopes(model: Json, scopes: seq<string>, e: string) {
    e != "" && e in Emails(FoldedMembers(model, scopes))
  }

  lemma FoldedAdmins(model: Json, scopes: seq<string>)
    requires model.JObj? && scopes != []
    ensures Admins(Fold(model, scopes)) == Admins(model) + Emails(FoldedMembers(model, scopes))
  {
    EmailsAppend(ListOf(Get(model, ADMINS)), FoldedMembers(model, scopes));
  }

  lemma NoEmails()
    ensures Emails([]) == {}
  {
  }

  /** Being folded in means belonging to one of the named departments. */
  lemma {:induction false} FoldedMembersIff(model: Json, scopes: seq<string>, e: string)
    ensures e in Emails(FoldedMembers(model, scopes)) <==>
            exists i :: 0 <= i < |scopes| && e in Emails(Members(model, scopes[i]))
  {
    NoEmails();
    hide Emails, Members;
    if scopes != [] {
      var n := |scopes| - 1;
      FoldedMembersIff(model, scopes[..n], e);
      EmailsAppend(FoldedMembers(model, scopes[..n]), Members(model, scopes[n]));
      if exists i :: 0 <= i < |scopes| && e in Emails(Members(model, scopes[i])) {
        var i :| 0 <= i < |scopes| && e in Emails(Members(model, scopes[i]));
        if i < n { assert scopes[..n][i] == scopes[i]; }
      }
    }
  }

  // ---------------------------------------------------------------------
  // What folding does to decisions
  // ---------------------------------------------------------------------

  /** Members of the admin scopes get every identifier-shaped request. */
  lemma ScopeMembersAllowed(model: Json, scopes: seq<string>, email: Json, key: Json, section: Json, field: Json)
    requires model.JObj? && scopes != []
    requires IsIdentJson(key) && IsIdentJson(section) && IsIdentJson(field)
    requires InAdminScopes(model, scopes, Norm(email))
    ensures IsAllowed(Fold(model, scopes), email, key, section, field).allow
  {
    FoldedAdmins(model, scopes);
  }

  /** Two models that agree outside `admins` resolve every roster alike. */
  lemma {:induction false} ScopeEmailsAgree(m: Json, n: Json, scopes: seq<Json>)
    requires Get(m, "departments") == Get(n, "departments")
    ensures ScopeEmails(m, scopes) == ScopeEmails(n, scopes)
  {
    if scopes != [] { ScopeEmailsAgree(m, n, scopes[..|scopes|-1]); }
  }

  lemma {:induction false} FieldEmailsAgree(m: Json, n: Json, rosters: seq<Json>)
    requires Get(m, "departments") == Get(n, "departments")
    ensures FieldEmails(m, rosters) == FieldEmails(n, rosters)
  {
    if rosters != [] {
      var last := rosters[|rosters|-1];
      FieldEmailsAgree(m, n, rosters[..|rosters|-1]);
      ScopeEmailsAgree(m, n, ListOf(Get(last, "scopes")));
    }
  }

  lemma MisconfiguredAgrees(m: Json, n: Json, field: Json)
    requires Get(m, "departments") == Get(n, "departments")
    ensures Misconfigured(m, field) <==> Misconfigured(n, field)
  {
  }

  /** The decision reads `admins` only through the admin set and, should a request
      name it as a section, through whether it is an object. */
  lemma DecisionsAgree(m: Json, n: Json, email: Json, key: Json, section: Json, field: Json)
    requires m.JObj? && n.JObj?
    requires forall k | k != ADMINS :: Get(m, k) == Get(n, k)
    requires section == JStr(ADMINS) ==> !Get(m, ADMINS).JObj? && !Get(n, ADMINS).JObj?
    requires Norm(email) in Admins(m) <==> Norm(email) in Admins(n)
    ensures IsAllowed(m, email, key, section, field) == IsAllowed(n, email, key, section, field)
  {
    hide Rosters, IsIdent, FieldEmails, Misconfigured, Admins, Norm, Decide;
    if IsIdentJson(key) && IsIdentJson(section) && IsIdentJson(field) {
      var f := Get(Get(Get(m, section.s), key.s), field.s);
      FieldEmailsAgree(m, n, Rosters(f));
      MisconfiguredAgrees(m, n, f);
      DecideAgrees(m, n, Admins(m), Admins(n), Norm(email), key.s, section.s, field.s);
    }
  }

  /** The branches of the decision see only the section, the admin test and the field's rosters. */
  lemma DecideAgrees(m: Json, n: Json, a: set<string>, b: set<string>,
                     e: string, key: string, section: string, field: string)
    requires m.JObj? && n.JObj?
    requires Get(m, section) == Get(n, section) || (!Get(m, section).JObj? && !Get(n, section).JObj?)
    requires e in a <==> e in b
    requires var f := Get(Get(Get(m, section), key), field);
             FieldEmails(m, Rosters(f)) == FieldEmails(n, Rosters(f)) && (Misconfigured(m, f) <==> Misconfigured(n, f))
    ensures Decide(m, a, e, key, section, field) == Decide(n, b, e, key, section, field)
  {
    hide Rosters, FieldEmails, Misconfigured, Get;
  }

  /** Folding leaves everyone else's decision and reason alone, except when the
      request names `admins` itself as its section and the model keeps an object
      there, which the fold replaces by a list. That exception is exact. */
  lemma OthersUnchangedIff(model: Json, scopes: seq<string>, email: Json, key: Json, section: Json, field: Json)
    requires model.JObj? && scopes != []
    requires IsIdentJson(key) && IsIdentJson(section) && IsIdentJson(field)
    requires !InAdminScopes(model, scopes, Norm(email))
    ensures IsAllowed(Fold(model, scopes), email, key, section, field) == IsAllowed(model, email, key, section, field)
            <==> !(section.s == ADMINS && Get(model, ADMINS).JObj?)
  {
    var folded := Fold(model, scopes);
    FoldedAdmins(model, scopes);
    NoEmails();
    assert Norm(email) != "" ==> (Norm(email) in Admins(folded) <==> Norm(email) in Admins(model));
    NoBlankEmail(ListOf(Get(model, ADMINS)));
    NoBlankEmail(ListOf(Get(folded, ADMINS)));
    if section.s == ADMINS && Get(model, ADMINS).JObj? {
      assert Admins(model) == {};
      assert IsAllowed(folded, email, key, section, field).reason == MalformedModel(Section);
      hide Rosters, FieldEmails, Misconfigured, Norm;
      assert IsAllowed(model, email, key, section, field).reason != MalformedModel(Section);
    } else {
      DecisionsAgree(folded, model, email, key, section, field);
    }
  }

  /** The exception is real: an object under `admins` that lets a reader in stops
      doing so once an unrelated scope is folded. */
  lemma FoldCanDeny()
    ensures IsAllowed(ReaderModel(), JStr("a"), JStr("k"), JStr(ADMINS), JStr("f")).allow
    ensures !IsAllowed(Fold(ReaderModel(), ["staff"]), JStr("a"), JStr("k"), JStr(ADMINS), JStr("f")).allow
  {
    ReaderIsListed();
    NormOfA();
    assert [Reader()][..0] == [];
    assert FieldEmails(ReaderModel(), [Reader()]) == RosterEmails(ReaderModel(), Reader());
    assert Rosters(Reader()) == [Reader()];
    assert ["staff"][..0] == [] && FoldedMembers(ReaderModel(), ["staff"]) == [];
    FoldedAdmins(ReaderModel(), ["staff"]);
    hide Norm, Emails, RosterEmails, FieldEmails, Rosters, Misconfigured;
    NoEmails();
  }

  function Reader(): Json { JObj(map["individuals" := JList([JStr("a")])]) }

  function ReaderModel(): Json { JObj(map[ADMINS := JObj(map["k" := JObj(map["f" := Reader()])])]) }

  lemma ReaderIsListed()
    ensures "a" in RosterEmails(ReaderModel(), Reader())
  {
    NormOfA();
    assert EmailOf([JStr("a")][0]) == "a";
    assert "a" in Emails([JStr("a")]);
  }

  lemma NormOfA()
    ensures Norm(JStr("a")) == "a"
  {
  }

  lemma NoBlankEmail(members: seq<Json>)
    ensures "" !in Emails(members)
  {
  }

  /** Malformed requests are refused before and after. */
  lemma MalformedStaysMalformed(model: Json, scopes: seq<string>, email: Json, key: Json, section: Json, field: Json)
    requires !(IsIdentJson(key) && IsIdentJson(section) && IsIdentJson(field))
    ensures IsAllowed(Fold(model, scopes), email, key, section, field) == Decision(false, MalformedKey)
    ensures IsAllowed(model, email, key, section, field) == Decision(false, MalformedKey)
  {
  }

  /** Folding twice decides like folding once, for every request. */
  lemma FoldTwice(model: Json, scopes: seq<string>, email: Json, key: Json, section: Json, field: Json)
    ensures IsAllowed(Fold(Fold(model, scopes), scopes), email, key, section, field) ==
            IsAllowed(Fold(model, scopes), email, key, section, field)
  {
    hide IsAllowed;
    if model.JObj? && scopes != [] {
      var once := Fold(model, scopes);
      FoldedAdmins(model, scopes);
      FoldedAdmins(once, scopes);
      SameDepartments(once, model, scopes);
      hide FoldedMembers, Admins, Emails, Norm;
      DecisionsAgree(Fold(once, scopes), once, email, key, section, field);
    }
  }

  lemma {:induction false} SameDepartments(m: Json, n: Json, scopes: seq<string>)
    requires Get(m, "departments") == Get(n, "departments")
    ensures FoldedMembers(m, scopes) == FoldedMembers(n, scopes)
  {
    if scopes != [] { SameDepartments(m, n, scopes[..|scopes|-1]); }
  }

  // ---------------------------------------------------------------------
  // The gate object
  // ---------------------------------------------------------------------

  class AccessGate {
    const mode: Mode
    const adminScopes: seq<string>
    var model: Option<Json>

    constructor (mode: Mode, adminScopes: seq<string>)
      ensures this.mode == mode && this.adminScopes == adminScopes && model == None
    {
      this.mode, this.adminScopes, model := mode, adminScopes, None;
    }

    /** `_load_locked`: a failed load leaves no model at all. */
    method Load(loaded: Option<Json>)
      modifies this
      ensures model == if loaded.None? then None else Some(Fold(loaded.value, adminScopes))
    {
      if loaded.None? {
        model := None;
      } else {
        var folded := ApplyAdminScopes(loaded.value);
        model := Some(folded);
      }
    }

    method ApplyAdminScopes(source: Json) returns (folded: Json)
      ensures folded == Fold(source, adminScopes)
    {
      if !source.JObj? || adminScopes == [] { return source; }
      var merged := ListOf(Get(source, ADMINS));
      for i := 0 to |adminScopes|
        invariant merged == ListOf(Get(source, ADMINS)) + FoldedMembers(source, adminScopes[..i])
      {
        assert adminScopes[..i+1][..i] == adminScopes[..i];
        var members := Get(Get(source, "departments"), adminScopes[i]);
        if members.JList? {
          merged := merged + members.items;
        }
      }
      assert adminScopes[..|adminScopes|] == adminScopes;
      folded := JObj(source.fields[ADMINS := JList(merged)]);
    }

    /** `check`: only enforce blocks, it blocks exactly what is not allowed by a
        loaded model, and it fails closed without one. */
    method Check(requester: Requester, key: Json, section: Json, field: Json) returns (r: GateResult)
      ensures r.blocked <==>
              (mode == Enforce &&
               (model.None? || !IsAllowed(model.value, EmailFor(requester), key, section, field).allow))
      ensures r.checked <==> mode != Off && model.Some?
      ensures r.checked ==> r.reason.Some?
      ensures r.checked ==>
                Decision(r.allow, r.reason.value) == IsAllowed(model.value, EmailFor(requester), key, section, field)
      ensures r.checked && requester.OtherKind? ==>
                Decision(r.allow, r.reason.value) == IsAllowed(model.value, JStr(""), key, section, field)
      ensures r.checked && requester.ByEmail? ==>
                Decision(r.allow, r.reason.value) == IsAllowed(model.value, requester.email, key, section, field)
      ensures !r.checked ==> r.reason.None? && (r.allow <==> !r.blocked)
    {
      if mode == Off { return GateResult(false, true, None, false); }
      if model.None? {
        return GateResult(false, mode != Enforce, None, mode == Enforce);
      }
      var d := CheckAllowed(model.value, EmailFor(requester), key, section, field);
      return GateResult(true, d.allow, Some(d.reason), mode == Enforce && !d.allow);
    }
  }

  /** Only an identity of kind email is used; anything else is unknown. */
  function EmailFor(requester: Requester): Json {
    match requester
    case ByEmail(email) => email
    case OtherKind => JStr("")
  }
}
