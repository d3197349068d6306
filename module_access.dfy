/** The CheckModuleAccess middleware: a chain of guards in front of every
    module's routes, each of which either aborts the request or lets it on. */
module ModuleAccess {
  import opened Common
  import opened Tenancy
  import opened Core

  datatype Refusal =
    | NotAuthenticated    // 403 'Authentication required'
    | NoCompanyAssigned   // 403 'No company assigned to user'
    | UnknownModule       // 404 'Module not found'
    | CompanyMissing      // the user's company row is gone: a call on null, 500
    | ModuleNotEnabled    // 403 'Module not enabled for this workspace'

  function RefusalStatus(r: Refusal): int {
    match r
    case UnknownModule => 404
    case CompanyMissing => 500
    case _ => 403
  }

  datatype Decision = Pass | Refuse(reason: Refusal)

  /** The pivot the middleware reads for the company and the module key:
      the first module with the key, then the company's first pivot to it. */
  function EnabledPivot(modules: seq<Module>, pivots: seq<Pivot>, company: CompanyId, key: string): Option<Pivot> {
    var m := ModuleByKey(modules, key);
    if m.None? then None else PivotFor(pivots, company, m.value.id)
  }

  /** `handle`, guard by guard. */
  function CheckModuleAccess(auth: Auth, companies: seq<Company>, modules: seq<Module>, pivots: seq<Pivot>, key: string): (r: Decision)
    ensures auth.None? ==> r == Refuse(NotAuthenticated)
    ensures auth.Some? && IsSuperAdmin(auth.value) ==> r == Pass
    ensures auth.Some? && !IsSuperAdmin(auth.value) && auth.value.companyId.None? ==> r == Refuse(NoCompanyAssigned)
    ensures auth.Some? && !IsSuperAdmin(auth.value) && auth.value.companyId.Some? && ModuleByKey(modules, key).None? ==>
              r == Refuse(UnknownModule)
    ensures r == Pass <==>
              && auth.Some?
              && (|| IsSuperAdmin(auth.value)
                  || (&& auth.value.companyId.Some?
                      && auth.value.companyId.value <= |companies|
                      && var p := EnabledPivot(modules, pivots, auth.value.companyId.value, key);
                         p.Some? && p.value.status == Active))
  {
    if auth.None? then Refuse(NotAuthenticated)
    else if IsSuperAdmin(auth.value) then Pass
    else if auth.value.companyId.None? then Refuse(NoCompanyAssigned)
    else
      var m := ModuleByKey(modules, key);
      if m.None? then Refuse(UnknownModule)
      else if auth.value.companyId.value > |companies| then Refuse(CompanyMissing)
      else
        var p := PivotFor(pivots, auth.value.companyId.value, m.value.id);
        if p.None? || p.value.status != Active then Refuse(ModuleNotEnabled) else Pass
  }

  /** A refusal is decided by the caller, the key and the company's pivot
      alone: the guard chain never consults another company's pivots. */
  lemma OtherCompaniesPivotsIrrelevant(auth: Auth, companies: seq<Company>, modules: seq<Module>, ps: seq<Pivot>, qs: seq<Pivot>, key: string)
    requires auth.Some? && auth.value.companyId.Some?
    requires forall m :: PivotFor(ps, auth.value.companyId.value, m) == PivotFor(qs, auth.value.companyId.value, m)
    ensures CheckModuleAccess(auth, companies, modules, ps, key) == CheckModuleAccess(auth, companies, modules, qs, key)
  {
  }

  /** With pivots unique, the decision for an ordinary member depends only
      on the status of the one pivot for the key's module. */
  lemma MemberPassesIffPivotActive(u: Caller, companies: seq<Company>, modules: seq<Module>, pivots: seq<Pivot>, key: string, p: Pivot)
    requires !IsSuperAdmin(u) && u.companyId.Some? && u.companyId.value <= |companies|
    requires PivotsUnique(pivots)
    requires ModuleByKey(modules, key).Some?
    requires p in pivots && p.companyId == u.companyId.value && p.moduleId == ModuleByKey(modules, key).value.id
    ensures CheckModuleAccess(Some(u), companies, modules, pivots, key) == Pass <==> p.status == Active
  {
    var k :| 0 <= k < |pivots| && pivots[k] == p;
    FirstPivotIsTheOne(pivots, p.companyId, p.moduleId, k);
  }

  lemma {:induction false} FirstPivotIsTheOne(pivots: seq<Pivot>, company: nat, moduleId: nat, k: nat)
    requires PivotsUnique(pivots)
    requires k < |pivots| && pivots[k].companyId == company && pivots[k].moduleId == moduleId
    ensures PivotFor(pivots, company, moduleId) == Some(pivots[k])
  {
    if k > 0 {
      assert !(pivots[0].companyId == company && pivots[0].moduleId == moduleId);
      FirstPivotIsTheOne(pivots[1..], company, moduleId, k - 1);
    }
  }

  /** The first user of a company opened with some modules passes the
      guard chain for each of them. */
  lemma NewCompanyAdminPasses(companies: seq<Company>, modules: seq<Module>, ps: seq<Pivot>, keys: seq<string>, admin: Caller, key: string)
    requires PivotsReferToRows(ps, |companies|, |modules|)
    requires ModuleIdsArePositions(modules)
    requires admin.role == AdminRole && admin.companyId == Some(|companies| + 1)
    requires key in keys && ModuleByKey(modules, key).Some?
    ensures forall c :: CheckModuleAccess(Some(admin), companies + [c], modules,
                                          ps + ActivePivots(|companies| + 1, ModuleIdsFor(modules, keys)), key) == Pass
  {
    OpenedCompanyHasItsModules(ps, |companies|, modules, keys, key);
  }

  /** After the pair's pivot is upserted to a status, an ordinary member of
      the company passes exactly when that status is 'active'. */
  lemma UpsertDecidesAccess(u: Caller, companies: seq<Company>, modules: seq<Module>, ps: seq<Pivot>, key: string, s: PivotStatus)
    requires PivotsReferToRows(ps, |companies|, |modules|) && PivotsUnique(ps)
    requires ModuleIdsArePositions(modules)
    requires !IsSuperAdmin(u) && u.companyId.Some? && u.companyId.value <= |companies|
    requires ModuleByKey(modules, key).Some?
    ensures CheckModuleAccess(Some(u), companies, modules, Upsert(ps, u.companyId.value, ModuleByKey(modules, key).value.id, s), key) == Pass
            <==> s == Active
  {
    var m := ModuleByKey(modules, key).value;
    var k :| 0 <= k < |modules| && modules[k] == m;
    UpsertEffect(ps, |companies|, |modules|, u.companyId.value, m.id, s);
  }
}
