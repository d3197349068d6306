/** SuperAdminController: which companies a caller may see, how a company
    and its first admin are opened, and the module switch. */
module SuperAdmin {
  import opened Common
  import opened Tenancy
  import opened Core

  /** `listCompanies`: all companies for a super admin, otherwise the
      caller's own (none when the caller has no company). */
  function ListCompanies(companies: seq<Company>, caller: Caller): (r: seq<Company>)
    ensures forall c :: c in r <==> c in companies && (IsSuperAdmin(caller) || caller.companyId == Some(c.id))
  {
    if companies == [] then []
    else if IsSuperAdmin(caller) || caller.companyId == Some(companies[0].id) then [companies[0]] + ListCompanies(companies[1..], caller)
    else ListCompanies(companies[1..], caller)
  }

  /** PHP's loose `==` between the caller's company id and `(int)$id`:
      null equals 0. */
  predicate LooseEquals(c: Option<CompanyId>, id: nat) {
    if c.None? then id == 0 else c.value == id
  }

  /** `showCompany`: the authorization test comes before the lookup. */
  function ShowCompany(companies: seq<Company>, caller: Caller, id: nat): (r: Result<Company>)
    ensures !IsSuperAdmin(caller) && !LooseEquals(caller.companyId, id) ==> r == Err(Forbidden)
    ensures r.Ok? <==> (IsSuperAdmin(caller) || LooseEquals(caller.companyId, id)) && 1 <= id <= |companies|
    ensures r.Ok? ==> r.value == companies[id - 1]
  {
    if !IsSuperAdmin(caller) && !LooseEquals(caller.companyId, id) then Err(Forbidden)
    else if 1 <= id <= |companies| then Ok(companies[id - 1])
    else Err(NotFound)
  }

  /** A company a caller may open is one the caller's list shows. */
  lemma ShownCompanyIsListed(companies: seq<Company>, caller: Caller, id: nat)
    requires CompanyIdsArePositions(companies)
    requires ShowCompany(companies, caller, id).Ok?
    ensures ShowCompany(companies, caller, id).value in ListCompanies(companies, caller)
  {
    assert companies[id - 1].id == id;
  }

  /** `strtolower`, which maps ASCII letters only. */
  function LowerAscii(ch: char): char {
    if 'A' <= ch <= 'Z' then (ch as int + 32) as char else ch
  }

  /** `strtolower(str_replace(' ', '-', $name))`. */
  function Subdomain(name: string): (s: string)
    ensures |s| == |name|
    ensures forall i :: 0 <= i < |name| ==> s[i] == if name[i] == ' ' then '-' else LowerAscii(name[i])
  {
    if name == [] then []
    else [if name[0] == ' ' then '-' else LowerAscii(name[0])] + Subdomain(name[1..])
  }

  /** A subdomain has no space and no upper-case ASCII letter, and making
      a subdomain of it changes nothing. */
  lemma SubdomainIsSlug(name: string)
    ensures forall i :: 0 <= i < |Subdomain(name)| ==> Subdomain(name)[i] != ' ' && !('A' <= Subdomain(name)[i] <= 'Z')
    ensures Subdomain(Subdomain(name)) == Subdomain(name)
  {
    var s := Subdomain(name);
    assert forall i :: 0 <= i < |s| ==> s[i] != ' ' && !('A' <= s[i] <= 'Z');
    assert forall i :: 0 <= i < |s| ==> Subdomain(s)[i] == s[i];
  }

  /** `createCompany`: the shared transaction, with the derived subdomain. */
  method CreateCompany(db: CoreDb, sent: CompanyRequest, fails: bool) returns (r: Result<(CompanyId, nat)>)
    requires db.Valid()
    modifies db
    ensures db.Valid()
    ensures db.modules == old(db.modules)
    ensures !CompanyRequestValid(old(db.users), old(db.modules), sent.Trimmed()) ==> r == Err(Invalid)
    ensures CompanyRequestValid(old(db.users), old(db.modules), sent.Trimmed()) && fails ==> r == Err(ServerError)
    ensures r.Ok? <==> CompanyRequestValid(old(db.users), old(db.modules), sent.Trimmed()) && !fails
    ensures r.Err? ==> db.companies == old(db.companies) && db.users == old(db.users) && db.pivots == old(db.pivots)
    ensures r.Ok? ==>
              var c := |old(db.companies)| + 1;
              && r.value == (c, |old(db.users)| + 1)
              && db.companies == old(db.companies) + [Company(c, sent.Trimmed().companyName, Some(Subdomain(sent.Trimmed().companyName)), true)]
              && db.users == old(db.users) + [UserRecord(|old(db.users)| + 1, Some(c), sent.Trimmed().adminName, sent.Trimmed().adminEmail, AdminRole, false)]
              && db.pivots == old(db.pivots) + ActivePivots(c, ModuleIdsFor(old(db.modules), RequestedKeys(sent.Trimmed())))
  {
    var req := sent.Trimmed();
    r := OpenCompany(db, req, Some(Subdomain(req.companyName)), fails);
  }

  /** `toggleModule`: validate, then update the pair's pivot when one
      exists and attach one otherwise. */
  method ToggleModule(db: CoreDb, companyId: nat, key: string, statusName: string) returns (r: Result<Pivot>)
    requires db.Valid()
    modifies db
    ensures db.Valid()
    ensures db.companies == old(db.companies) && db.users == old(db.users) && db.modules == old(db.modules)
    ensures var m := ModuleByKey(old(db.modules), Trim(key));
            var s := ParsePivotStatus(Trim(statusName));
            && (r.Ok? <==> 1 <= companyId <= |old(db.companies)| && m.Some? && s.Some?)
            && (r.Err? ==> r.error == Invalid && db.pivots == old(db.pivots))
            && (r.Ok? ==>
                  && r.value == Pivot(companyId, m.value.id, s.value)
                  && db.pivots == Upsert(old(db.pivots), companyId, m.value.id, s.value)
                  && PivotCount(db.pivots, companyId, m.value.id) == 1
                  && PivotFor(db.pivots, companyId, m.value.id) == Some(r.value)
                  && forall c, id :: !(c == companyId && id == m.value.id) ==> PivotFor(db.pivots, c, id) == PivotFor(old(db.pivots), c, id))
  {
    var m := ModuleByKey(db.modules, Trim(key));
    var s := ParsePivotStatus(Trim(statusName));
    if !(1 <= companyId <= |db.companies|) || m.None? || s.None? {
      return Err(Invalid);
    }
    var k :| 0 <= k < |db.modules| && db.modules[k] == m.value;
    UpsertEffect(db.pivots, |db.companies|, |db.modules|, companyId, m.value.id, s.value);
    db.pivots := Upsert(db.pivots, companyId, m.value.id, s.value);
    r := Ok(Pivot(companyId, m.value.id, s.value));
  }
}
