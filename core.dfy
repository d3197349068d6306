/** The platform tables the access rules read and write: companies, users,
    the module catalogue and the company–module pivot. */
module Core {
  import opened Common
  import opened Tenancy

  /** The error responses of the platform controllers. */
  datatype HttpError =
    | NotFound     // 404
    | Invalid      // 422
    | Forbidden    // 403
    | ServerError  // 500, after a rolled-back transaction

  function ErrorStatus(e: HttpError): int {
    match e
    case NotFound => 404
    case Invalid => 422
    case Forbidden => 403
    case ServerError => 500
  }

  datatype Result<T> = Ok(value: T) | Err(error: HttpError)

  datatype Company = Company(id: CompanyId, name: string, subdomain: Option<string>, isActive: bool)

  /** A row of `users`; `deleted` is the soft-delete mark. */
  datatype UserRecord = UserRecord(id: nat, companyId: Option<CompanyId>, name: string, email: string, role: Role, deleted: bool)

  datatype Module = Module(id: nat, name: string, key: string)

  /** The pivot `status` column; only 'active' and 'inactive' are ever
      written. */
  datatype PivotStatus = Active | Inactive

  /** The `in:active,inactive` rule. */
  function ParsePivotStatus(s: string): (r: Option<PivotStatus>)
    ensures r.Some? <==> s == "active" || s == "inactive"
    ensures r == Some(Active) <==> s == "active"
  {
    if s == "active" then Some(Active) else if s == "inactive" then Some(Inactive) else None
  }

  datatype Pivot = Pivot(companyId: nat, moduleId: nat, status: PivotStatus)

  /** The logged-in caller a user row stands for. */
  function CallerOf(u: UserRecord): Caller {
    Caller(u.id, u.companyId, u.role)
  }

  /** `Module::where('key', k)->first()`: the first module with the key, in
      table order. */
  function ModuleByKey(modules: seq<Module>, key: string): (r: Option<Module>)
    ensures r.Some? ==> r.value in modules && r.value.key == key
    ensures r.None? <==> forall i :: 0 <= i < |modules| ==> modules[i].key != key
  {
    if modules == [] then None
    else if modules[0].key == key then Some(modules[0])
    else ModuleByKey(modules[1..], key)
  }

  /** `Module::whereIn('key', keys)->pluck('id')`: the ids of all modules
      whose key is listed, in table order. */
  function ModuleIdsFor(modules: seq<Module>, keys: seq<string>): (ids: seq<nat>)
    ensures forall m :: m in modules && m.key in keys ==> m.id in ids
    ensures forall id :: id in ids ==> exists m :: m in modules && m.key in keys && m.id == id
  {
    if modules == [] then []
    else
      var rest := ModuleIdsFor(modules[1..], keys);
      assert forall m :: m in modules ==> m == modules[0] || m in modules[1..];
      assert forall m :: m in modules[1..] ==> m in modules;
      if modules[0].key in keys then [modules[0].id] + rest else rest
  }

  /** The first pivot joining the company and the module, if any. */
  function PivotFor(pivots: seq<Pivot>, company: nat, moduleId: nat): (r: Option<Pivot>)
    ensures r.Some? ==> r.value in pivots && r.value.companyId == company && r.value.moduleId == moduleId
    ensures r.None? <==> forall i :: 0 <= i < |pivots| ==> !(pivots[i].companyId == company && pivots[i].moduleId == moduleId)
  {
    if pivots == [] then None
    else if pivots[0].companyId == company && pivots[0].moduleId == moduleId then Some(pivots[0])
    else PivotFor(pivots[1..], company, moduleId)
  }

  /** How many pivots join the company and the module. */
  function PivotCount(pivots: seq<Pivot>, company: nat, moduleId: nat): nat {
    if pivots == [] then 0
    else (if pivots[0].companyId == company && pivots[0].moduleId == moduleId then 1 else 0) + PivotCount(pivots[1..], company, moduleId)
  }

  predicate CompanyIdsArePositions(cs: seq<Company>) {
    forall i :: 0 <= i < |cs| ==> cs[i].id == i + 1
  }

  predicate UserIdsArePositions(us: seq<UserRecord>) {
    forall i :: 0 <= i < |us| ==> us[i].id == i + 1
  }

  predicate ModuleIdsArePositions(ms: seq<Module>) {
    forall i :: 0 <= i < |ms| ==> ms[i].id == i + 1
  }

  /** The seeded module keys are non-empty, so a blank key, which reaches
      a controller as null, names no module. */
  predicate ModuleKeysNonEmpty(ms: seq<Module>) {
    forall i :: 0 <= i < |ms| ==> ms[i].key != []
  }

  /** The `unique:users,email` rule reads every row, soft-deleted ones
      included. */
  predicate EmailFree(us: seq<UserRecord>, email: string) {
    forall i :: 0 <= i < |us| ==> us[i].email != email
  }

  /** The same rule with `ignore($id)`, as an update checks it. */
  predicate EmailFreeExcept(us: seq<UserRecord>, email: string, id: nat) {
    forall i :: 0 <= i < |us| && us[i].id != id ==> us[i].email != email
  }

  predicate EmailsUnique(us: seq<UserRecord>) {
    forall i, j :: 0 <= i < j < |us| ==> us[i].email != us[j].email
  }

  /** A new user row keeps every email unique when its email is free. */
  lemma AddUserKeepsEmailsUnique(us: seq<UserRecord>, u: UserRecord)
    requires EmailsUnique(us) && EmailFree(us, u.email)
    ensures EmailsUnique(us + [u])
  {
    var all := us + [u];
    forall i, j | 0 <= i < j < |all| ensures all[i].email != all[j].email {
      assert all[i] == us[i];
      if j < |us| {
        assert all[j] == us[j];
      }
    }
  }

  /** Every pivot joins an existing company and module. */
  predicate PivotsReferToRows(ps: seq<Pivot>, companyCount: nat, moduleCount: nat) {
    forall i :: 0 <= i < |ps| ==> 1 <= ps[i].companyId <= companyCount && 1 <= ps[i].moduleId <= moduleCount
  }

  /** At most one pivot per (company, module). */
  predicate PivotsUnique(ps: seq<Pivot>) {
    forall i, j :: 0 <= i < j < |ps| ==> !(ps[i].companyId == ps[j].companyId && ps[i].moduleId == ps[j].moduleId)
  }

  lemma {:induction false} UniquePivotCount(ps: seq<Pivot>, company: nat, moduleId: nat)
    requires PivotsUnique(ps)
    ensures PivotCount(ps, company, moduleId) <= 1
    ensures PivotCount(ps, company, moduleId) == 1 <==> PivotFor(ps, company, moduleId).Some?
  {
    if ps != [] {
      UniquePivotCount(ps[1..], company, moduleId);
      if ps[0].companyId == company && ps[0].moduleId == moduleId {
        assert forall j :: 0 <= j < |ps[1..]| ==> ps[1..][j] == ps[j + 1];
        PivotForNone(ps[1..], company, moduleId);
      }
    }
  }

  lemma {:induction false} PivotForNone(ps: seq<Pivot>, company: nat, moduleId: nat)
    requires PivotFor(ps, company, moduleId).None?
    ensures PivotCount(ps, company, moduleId) == 0
  {
    if ps != [] {
      PivotForNone(ps[1..], company, moduleId);
    }
  }

  /** Ids are positions, e-mail addresses are unique, and every pivot
      joins an existing company to an existing module at most once. */
  predicate TablesValid(companies: seq<Company>, users: seq<UserRecord>, modules: seq<Module>, pivots: seq<Pivot>) {
    && CompanyIdsArePositions(companies)
    && UserIdsArePositions(users)
    && EmailsUnique(users)
    && ModuleIdsArePositions(modules)
    && ModuleKeysNonEmpty(modules)
    && PivotsReferToRows(pivots, |companies|, |modules|)
    && PivotsUnique(pivots)
  }

  /** The platform tables. */
  class CoreDb {
    var companies: seq<Company>
    var users: seq<UserRecord>
    var modules: seq<Module>
    var pivots: seq<Pivot>

    ghost predicate Valid()
      reads this
    {
      TablesValid(companies, users, modules, pivots)
    }

    constructor (modules: seq<Module>)
      requires ModuleIdsArePositions(modules) && ModuleKeysNonEmpty(modules)
      ensures Valid()
      ensures this.modules == modules && companies == [] && users == [] && pivots == []
    {
      this.modules := modules;
      companies := [];
      users := [];
      pivots := [];
    }
  }

  /** The rows `attach` inserts for a fresh company: one active pivot per
      module id. */
  function ActivePivots(company: nat, ids: seq<nat>): (r: seq<Pivot>)
    ensures |r| == |ids|
    ensures forall i :: 0 <= i < |ids| ==> r[i] == Pivot(company, ids[i], Active)
  {
    if ids == [] then [] else [Pivot(company, ids[0], Active)] + ActivePivots(company, ids[1..])
  }

  /** With ids numbered from `offset + 1`, the `whereIn` returns strictly
      increasing ids of existing rows, hence no id twice. */
  lemma {:induction false} ModuleIdsIncreasing(modules: seq<Module>, keys: seq<string>, offset: nat)
    requires forall i :: 0 <= i < |modules| ==> modules[i].id == offset + i + 1
    ensures forall i, j :: 0 <= i < j < |ModuleIdsFor(modules, keys)| ==> ModuleIdsFor(modules, keys)[i] < ModuleIdsFor(modules, keys)[j]
    ensures forall i :: 0 <= i < |ModuleIdsFor(modules, keys)| ==> offset < ModuleIdsFor(modules, keys)[i] <= offset + |modules|
  {
    if modules != [] {
      ModuleIdsIncreasing(modules[1..], keys, offset + 1);
      assert modules[0].id == offset + 1;
      var rest := ModuleIdsFor(modules[1..], keys);
      assert forall i :: 0 <= i < |rest| ==> offset + 1 < rest[i];
      if modules[0].key in keys {
        var ids := [modules[0].id] + rest;
        assert ModuleIdsFor(modules, keys) == ids;
        forall i | 0 <= i < |ids| ensures offset < ids[i] <= offset + |modules| {
          if i > 0 { assert ids[i] == rest[i - 1]; }
        }
        forall i, j | 0 <= i < j < |ids| ensures ids[i] < ids[j] {
          assert ids[j] == rest[j - 1];
          if i > 0 { assert ids[i] == rest[i - 1]; }
        }
      } else {
        assert ModuleIdsFor(modules, keys) == rest;
      }
    }
  }

  /** Attaching the modules of a new company keeps every pivot unique and
      pointing at existing rows. */
  lemma AttachToFreshCompany(ps: seq<Pivot>, companyCount: nat, modules: seq<Module>, keys: seq<string>)
    requires PivotsReferToRows(ps, companyCount, |modules|) && PivotsUnique(ps)
    requires ModuleIdsArePositions(modules)
    ensures var attached := ps + ActivePivots(companyCount + 1, ModuleIdsFor(modules, keys));
            PivotsReferToRows(attached, companyCount + 1, |modules|) && PivotsUnique(attached)
  {
    var ids := ModuleIdsFor(modules, keys);
    ModuleIdsIncreasing(modules, keys, 0);
    var added := ActivePivots(companyCount + 1, ids);
    var all := ps + added;
    forall i | 0 <= i < |all|
      ensures 1 <= all[i].companyId <= companyCount + 1 && 1 <= all[i].moduleId <= |modules|
    {
      if i >= |ps| {
        assert all[i] == added[i - |ps|];
      }
    }
    forall i, j | 0 <= i < j < |all|
      ensures !(all[i].companyId == all[j].companyId && all[i].moduleId == all[j].moduleId)
    {
      if j < |ps| {
        assert all[i] == ps[i] && all[j] == ps[j];
      } else if i < |ps| {
        assert all[i] == ps[i] && all[i].companyId <= companyCount;
        assert all[j] == added[j - |ps|] && all[j].companyId == companyCount + 1;
      } else {
        assert all[i] == added[i - |ps|] && all[j] == added[j - |ps|];
        assert all[i].moduleId == ids[i - |ps|] && all[j].moduleId == ids[j - |ps|];
      }
    }
  }

  // ---------------------------------------------------------------------
  // Writing the pivot

  /** `updateExistingPivot`: every pivot joining the company and the module
      gets the status; nothing is added. */
  function SetStatus(ps: seq<Pivot>, company: nat, moduleId: nat, s: PivotStatus): (r: seq<Pivot>)
    ensures |r| == |ps|
    ensures forall i :: 0 <= i < |ps| ==>
              r[i] == if ps[i].companyId == company && ps[i].moduleId == moduleId then ps[i].(status := s) else ps[i]
  {
    if ps == [] then []
    else
      var p := ps[0];
      [if p.companyId == company && p.moduleId == moduleId then p.(status := s) else p] + SetStatus(ps[1..], company, moduleId, s)
  }

  lemma {:induction false} SetStatusPivotFor(ps: seq<Pivot>, company: nat, moduleId: nat, s: PivotStatus, c: nat, m: nat)
    ensures var r := PivotFor(SetStatus(ps, company, moduleId, s), c, m);
            && (r.Some? <==> PivotFor(ps, c, m).Some?)
            && (c == company && m == moduleId && r.Some? ==> r.value == Pivot(c, m, s))
            && (!(c == company && m == moduleId) ==> r == PivotFor(ps, c, m))
  {
    if ps != [] {
      SetStatusPivotFor(ps[1..], company, moduleId, s, c, m);
      assert SetStatus(ps, company, moduleId, s)[1..] == SetStatus(ps[1..], company, moduleId, s);
    }
  }

  /** Setting a status keeps the pivot keys, hence the invariant. */
  lemma SetStatusKeepsPivotsValid(ps: seq<Pivot>, companyCount: nat, moduleCount: nat, company: nat, moduleId: nat, s: PivotStatus)
    requires PivotsReferToRows(ps, companyCount, moduleCount) && PivotsUnique(ps)
    ensures PivotsReferToRows(SetStatus(ps, company, moduleId, s), companyCount, moduleCount)
    ensures PivotsUnique(SetStatus(ps, company, moduleId, s))
  {
    var r := SetStatus(ps, company, moduleId, s);
    assert forall i :: 0 <= i < |ps| ==> r[i].companyId == ps[i].companyId && r[i].moduleId == ps[i].moduleId;
  }

  /** Update the pivot when one exists, attach one otherwise. */
  function Upsert(ps: seq<Pivot>, company: nat, moduleId: nat, s: PivotStatus): seq<Pivot> {
    if PivotFor(ps, company, moduleId).Some? then SetStatus(ps, company, moduleId, s)
    else ps + [Pivot(company, moduleId, s)]
  }

  lemma {:induction false} AppendPivotFor(ps: seq<Pivot>, p: Pivot, c: nat, m: nat)
    ensures PivotFor(ps + [p], c, m) ==
            if PivotFor(ps, c, m).Some? then PivotFor(ps, c, m)
            else if p.companyId == c && p.moduleId == m then Some(p) else None
  {
    if ps == [] {
      assert [p][1..] == [];
    } else {
      AppendPivotFor(ps[1..], p, c, m);
      assert (ps + [p])[1..] == ps[1..] + [p];
    }
  }

  /** After an upsert the pair has exactly one pivot, with the requested
      status; the pivots of every other pair read as before; the invariant
      is kept. */
  lemma UpsertEffect(ps: seq<Pivot>, companyCount: nat, moduleCount: nat, company: nat, moduleId: nat, s: PivotStatus)
    requires PivotsReferToRows(ps, companyCount, moduleCount) && PivotsUnique(ps)
    requires 1 <= company <= companyCount && 1 <= moduleId <= moduleCount
    ensures var r := Upsert(ps, company, moduleId, s);
            && PivotsReferToRows(r, companyCount, moduleCount) && PivotsUnique(r)
            && PivotFor(r, company, moduleId) == Some(Pivot(company, moduleId, s))
            && PivotCount(r, company, moduleId) == 1
            && (forall c, m :: !(c == company && m == moduleId) ==> PivotFor(r, c, m) == PivotFor(ps, c, m))
  {
    var r := Upsert(ps, company, moduleId, s);
    if PivotFor(ps, company, moduleId).Some? {
      SetStatusKeepsPivotsValid(ps, companyCount, moduleCount, company, moduleId, s);
      SetStatusPivotFor(ps, company, moduleId, s, company, moduleId);
      forall c, m | !(c == company && m == moduleId) ensures PivotFor(r, c, m) == PivotFor(ps, c, m) {
        SetStatusPivotFor(ps, company, moduleId, s, c, m);
      }
    } else {
      var p := Pivot(company, moduleId, s);
      forall i, j | 0 <= i < j < |r| ensures !(r[i].companyId == r[j].companyId && r[i].moduleId == r[j].moduleId) {
        if j == |ps| {
          assert r[i] == ps[i];
        } else {
          assert r[i] == ps[i] && r[j] == ps[j];
        }
      }
      AppendPivotFor(ps, p, company, moduleId);
      forall c, m | !(c == company && m == moduleId) ensures PivotFor(r, c, m) == PivotFor(ps, c, m) {
        AppendPivotFor(ps, p, c, m);
      }
    }
    UniquePivotCount(r, company, moduleId);
  }

  /** The `$modulesData` loop: one 'active' row per module id. */
  method ActiveModuleRows(company: nat, ids: seq<nat>) returns (rows: seq<Pivot>)
    ensures rows == ActivePivots(company, ids)
  {
    rows := [];
    for i := 0 to |ids|
      invariant rows == ActivePivots(company, ids[..i])
    {
      assert ids[..i + 1] == ids[..i] + [ids[i]];
      ActivePivotsAppend(company, ids[..i], ids[i]);
      rows := rows + [Pivot(company, ids[i], Active)];
    }
    assert ids[..|ids|] == ids;
  }

  lemma {:induction false} ActivePivotsAppend(company: nat, ids: seq<nat>, id: nat)
    ensures ActivePivots(company, ids + [id]) == ActivePivots(company, ids) + [Pivot(company, id, Active)]
  {
    if ids != [] {
      ActivePivotsAppend(company, ids[1..], id);
      assert (ids + [id])[1..] == ids[1..] + [id];
    }
  }

  // ---------------------------------------------------------------------
  // Opening a company

  /** The request both company-creating endpoints accept (the password is
      not modelled). */
  datatype CompanyRequest = CompanyRequest(companyName: string, adminName: string, adminEmail: string, modules: Option<seq<string>>) {
    /** The request as a controller reads it, after the global middleware:
        every string trimmed; a blank one is null, which `required` refuses
        and which names no module. */
    function Trimmed(): CompanyRequest {
      this.(companyName := Trim(companyName), adminName := Trim(adminName), adminEmail := Trim(adminEmail),
            modules := TrimKeys(modules))
    }
  }

  /** A module-key array after the global middleware. */
  function TrimKeys(keys: Option<seq<string>>): Option<seq<string>> {
    if keys.Some? then Some(TrimAll(keys.value)) else None
  }

  predicate CompanyRequestValid(users: seq<UserRecord>, modules: seq<Module>, req: CompanyRequest) {
    && RequiredMax(req.companyName, 255)
    && RequiredMax(req.adminName, 255)
    && RequiredMax(req.adminEmail, 255)
    && EmailFree(users, req.adminEmail)
    && (req.modules.Some? ==> forall k :: k in req.modules.value ==> ModuleByKey(modules, k).Some?)
  }

  /** A module key sent blank reaches the controller as null, which names
      no module, so the whole request is refused. */
  lemma BlankModuleKeyRefused(users: seq<UserRecord>, modules: seq<Module>, sent: CompanyRequest, k: string)
    requires ModuleKeysNonEmpty(modules)
    requires sent.modules.Some? && k in sent.modules.value
    requires forall i :: 0 <= i < |k| ==> IsBlank(k[i])
    ensures !CompanyRequestValid(users, modules, sent.Trimmed())
  {
    BlankTrimsToEmpty(k);
    var i :| 0 <= i < |sent.modules.value| && sent.modules.value[i] == k;
    var keys := sent.Trimmed().modules.value;
    assert keys[i] == [] && keys[i] in keys;
    assert ModuleByKey(modules, keys[i]).None?;
  }

  /** The module keys a request asks to attach (`!empty($validated['modules'])`). */
  function RequestedKeys(req: CompanyRequest): seq<string> {
    if req.modules.Some? then req.modules.value else []
  }

  /** The transaction shared by company registration and company creation:
      an active company, its first user with the admin role, and an active
      pivot per requested module.  `fails` stands for a write the database
      refuses; the transaction is then rolled back. */
  method OpenCompany(db: CoreDb, req: CompanyRequest, subdomain: Option<string>, fails: bool) returns (r: Result<(CompanyId, nat)>)
    requires db.Valid()
    modifies db
    ensures db.Valid()
    ensures db.modules == old(db.modules)
    ensures !CompanyRequestValid(old(db.users), old(db.modules), req) ==> r == Err(Invalid)
    ensures CompanyRequestValid(old(db.users), old(db.modules), req) && fails ==> r == Err(ServerError)
    ensures r.Err? ==> db.companies == old(db.companies) && db.users == old(db.users) && db.pivots == old(db.pivots)
    ensures r.Ok? <==> CompanyRequestValid(old(db.users), old(db.modules), req) && !fails
    ensures r.Ok? ==>
              var c := |old(db.companies)| + 1;
              && r.value == (c, |old(db.users)| + 1)
              && db.companies == old(db.companies) + [Company(c, req.companyName, subdomain, true)]
              && db.users == old(db.users) + [UserRecord(|old(db.users)| + 1, Some(c), req.adminName, req.adminEmail, AdminRole, false)]
              && db.pivots == old(db.pivots) + ActivePivots(c, ModuleIdsFor(old(db.modules), RequestedKeys(req)))
  {
    if !CompanyRequestValid(db.users, db.modules, req) {
      return Err(Invalid);
    }
    var companies0, users0, pivots0 := db.companies, db.users, db.pivots;
    var c: CompanyId := |companies0| + 1;
    var admin := UserRecord(|users0| + 1, Some(c), req.adminName, req.adminEmail, AdminRole, false);
    var keys := RequestedKeys(req);
    var rows := [];
    if keys != [] {
      rows := ActiveModuleRows(c, ModuleIdsFor(db.modules, keys));
    } else {
      EmptyKeysNoIds(db.modules);
    }
    OpenedTablesValid(companies0, users0, db.modules, pivots0, req, subdomain);
    db.companies := companies0 + [Company(c, req.companyName, subdomain, true)];
    db.users := users0 + [admin];
    db.pivots := pivots0 + rows;
    if fails {
      db.companies, db.users, db.pivots := companies0, users0, pivots0;
      return Err(ServerError);
    }
    r := Ok((c, |users0| + 1));
  }

  /** The company, its admin and its pivots keep the tables valid. */
  lemma OpenedTablesValid(companies: seq<Company>, users: seq<UserRecord>, modules: seq<Module>, pivots: seq<Pivot>,
                          req: CompanyRequest, subdomain: Option<string>)
    requires TablesValid(companies, users, modules, pivots)
    requires CompanyRequestValid(users, modules, req)
    ensures var c := |companies| + 1;
            TablesValid(companies + [Company(c, req.companyName, subdomain, true)],
                        users + [UserRecord(|users| + 1, Some(c), req.adminName, req.adminEmail, AdminRole, false)],
                        modules,
                        pivots + ActivePivots(c, ModuleIdsFor(modules, RequestedKeys(req))))
  {
    var c := |companies| + 1;
    var cs := companies + [Company(c, req.companyName, subdomain, true)];
    var admin := UserRecord(|users| + 1, Some(c), req.adminName, req.adminEmail, AdminRole, false);
    var us := users + [admin];
    assert CompanyIdsArePositions(cs) by {
      forall i | 0 <= i < |cs| ensures cs[i].id == i + 1 {
        if i < |companies| { assert cs[i] == companies[i]; }
      }
    }
    assert UserIdsArePositions(us) by {
      forall i | 0 <= i < |us| ensures us[i].id == i + 1 {
        if i < |users| { assert us[i] == users[i]; }
      }
    }
    AddUserKeepsEmailsUnique(users, admin);
    AttachToFreshCompany(pivots, |companies|, modules, RequestedKeys(req));
  }

  lemma {:induction false} EmptyKeysNoIds(modules: seq<Module>)
    ensures ModuleIdsFor(modules, []) == []
  {
    if modules != [] {
      EmptyKeysNoIds(modules[1..]);
    }
  }

  /** Every module a new company asked for is attached to it as active, as
      its only pivot for that module. */
  lemma OpenedCompanyHasItsModules(ps: seq<Pivot>, companyCount: nat, modules: seq<Module>, keys: seq<string>, key: string)
    requires PivotsReferToRows(ps, companyCount, |modules|)
    requires ModuleIdsArePositions(modules)
    requires key in keys && ModuleByKey(modules, key).Some?
    ensures PivotFor(ps + ActivePivots(companyCount + 1, ModuleIdsFor(modules, keys)), companyCount + 1, ModuleByKey(modules, key).value.id)
            == Some(Pivot(companyCount + 1, ModuleByKey(modules, key).value.id, Active))
  {
    var m := ModuleByKey(modules, key).value;
    var ids := ModuleIdsFor(modules, keys);
    assert m.id in ids;
    var added := ActivePivots(companyCount + 1, ids);
    NoPivotForNewCompany(ps, companyCount, |modules|, m.id);
    var k :| 0 <= k < |ids| && ids[k] == m.id;
    FirstActivePivot(companyCount + 1, ids, m.id, k);
    PivotForConcat(ps, added, companyCount + 1, m.id);
  }

  /** A new company has a pivot only for a module it asked for. */
  lemma OpenedCompanyHasOnlyItsModules(ps: seq<Pivot>, companyCount: nat, modules: seq<Module>, keys: seq<string>, moduleId: nat)
    requires PivotsReferToRows(ps, companyCount, |modules|)
    requires PivotFor(ps + ActivePivots(companyCount + 1, ModuleIdsFor(modules, keys)), companyCount + 1, moduleId).Some?
    ensures exists m :: m in modules && m.key in keys && m.id == moduleId
  {
    var ids := ModuleIdsFor(modules, keys);
    var added := ActivePivots(companyCount + 1, ids);
    NoPivotForNewCompany(ps, companyCount, |modules|, moduleId);
    PivotForConcat(ps, added, companyCount + 1, moduleId);
    var p := PivotFor(added, companyCount + 1, moduleId).value;
    var k :| 0 <= k < |added| && added[k] == p;
    assert ids[k] == moduleId && moduleId in ids;
  }

  lemma {:induction false} NoPivotForNewCompany(ps: seq<Pivot>, companyCount: nat, moduleCount: nat, m: nat)
    requires PivotsReferToRows(ps, companyCount, moduleCount)
    ensures PivotFor(ps, companyCount + 1, m).None?
  {
  }

  lemma {:induction false} FirstActivePivot(company: nat, ids: seq<nat>, m: nat, k: nat)
    requires k < |ids| && ids[k] == m
    ensures PivotFor(ActivePivots(company, ids), company, m) == Some(Pivot(company, m, Active))
  {
    if ids[0] != m {
      FirstActivePivot(company, ids[1..], m, k - 1);
      assert ActivePivots(company, ids)[1..] == ActivePivots(company, ids[1..]);
    }
  }

  lemma {:induction false} PivotForConcat(ps: seq<Pivot>, qs: seq<Pivot>, c: nat, m: nat)
    requires PivotFor(ps, c, m).None?
    ensures PivotFor(ps + qs, c, m) == PivotFor(qs, c, m)
  {
    if ps == [] {
      assert ps + qs == qs;
    } else {
      PivotForConcat(ps[1..], qs, c, m);
      assert (ps + qs)[0] == ps[0];
      assert (ps + qs)[1..] == ps[1..] + qs;
    }
  }
}
