/** CompanyRegistrationController: self-service registration, attaching
    modules to a company, and switching an attached module on or off. */
module Registration {
  import opened Common
  import opened Tenancy
  import opened Core

  /** `register`: the shared transaction; the company gets no subdomain. */
  method Register(db: CoreDb, sent: CompanyRequest, fails: bool) returns (r: Result<(CompanyId, nat)>)
    requires db.Valid()
    modifies db
    ensures db.Valid()
    ensures db.modules == old(db.modules)
    ensures !CompanyRequestValid(old(db.users), old(db.modules), sent.Trimmed()) ==> r == Err(Invalid)
    ensures CompanyRequestValid(old(db.users), old(db.modules), sent.Trimmed()) && fails ==> r == Err(ServerError)
    ensures r.Ok? <==> CompanyRequestValid(old(db.users), old(db.modules), sent.Trimmed()) && !fails
    ensures r.Err? ==> db.companies == old(db.companies) && db.users == old(db.users) && db.pivots == old(db.pivots)
    ensures r.Ok? ==>
              var c := |old(db.companies)| + 1;
              && r.value == (c, |old(db.users)| + 1)
              && db.companies == old(db.companies) + [Company(c, sent.Trimmed().companyName, None, true)]
              && db.users == old(db.users) + [UserRecord(|old(db.users)| + 1, Some(c), sent.Trimmed().adminName, sent.Trimmed().adminEmail, AdminRole, false)]
              && db.pivots == old(db.pivots) + ActivePivots(c, ModuleIdsFor(old(db.modules), RequestedKeys(sent.Trimmed())))
  {
    r := OpenCompany(db, sent.Trimmed(), None, fails);
  }

  /** The rules of `assignModules`: a non-empty list of known keys. */
  predicate AssignValid(modules: seq<Module>, keys: Option<seq<string>>) {
    && keys.Some? && keys.value != []
    && forall k :: k in keys.value ==> ModuleByKey(modules, k).Some?
  }

  /** `assignModules`: `syncWithoutDetaching` makes each listed module's
      pivot active, attaching it when missing, and detaches nothing. */
  method AssignModules(db: CoreDb, companyId: nat, sent: Option<seq<string>>) returns (r: Result<seq<nat>>)
    requires db.Valid()
    modifies db
    ensures db.Valid()
    ensures db.companies == old(db.companies) && db.users == old(db.users) && db.modules == old(db.modules)
    ensures !(1 <= companyId <= |old(db.companies)|) ==> r == Err(NotFound)
    ensures 1 <= companyId <= |old(db.companies)| && !AssignValid(old(db.modules), TrimKeys(sent)) ==> r == Err(Invalid)
    ensures r.Ok? <==> 1 <= companyId <= |old(db.companies)| && AssignValid(old(db.modules), TrimKeys(sent))
    ensures r.Err? ==> db.pivots == old(db.pivots)
    ensures r.Ok? ==> r.value == ModuleIdsFor(old(db.modules), TrimKeys(sent).value)
    ensures r.Ok? ==> forall c, m :: PivotFor(db.pivots, c, m) ==
                        if c == companyId && m in r.value then Some(Pivot(c, m, Active)) else PivotFor(old(db.pivots), c, m)
    ensures r.Ok? ==> forall k :: k in TrimKeys(sent).value ==>
                        PivotFor(db.pivots, companyId, ModuleByKey(db.modules, k).value.id)
                          == Some(Pivot(companyId, ModuleByKey(db.modules, k).value.id, Active))
  {
    var keys := TrimKeys(sent);
    if !(1 <= companyId <= |db.companies|) {
      return Err(NotFound);
    }
    if !AssignValid(db.modules, keys) {
      return Err(Invalid);
    }
    var ids := ModuleIdsFor(db.modules, keys.value);
    ModuleIdsIncreasing(db.modules, keys.value, 0);
    SyncWithoutDetaching(db, companyId, ids);
    forall k | k in keys.value
      ensures ModuleByKey(db.modules, k).value.id in ids
    {
      assert ModuleByKey(db.modules, k).value in db.modules;
    }
    r := Ok(ids);
  }

  /** `syncWithoutDetaching` with an 'active' status for every id: one
      upsert per id, in order. */
  method SyncWithoutDetaching(db: CoreDb, companyId: nat, ids: seq<nat>)
    requires db.Valid()
    requires 1 <= companyId <= |db.companies|
    requires forall i :: 0 <= i < |ids| ==> 1 <= ids[i] <= |db.modules|
    modifies db
    ensures db.Valid()
    ensures db.companies == old(db.companies) && db.users == old(db.users) && db.modules == old(db.modules)
    ensures forall c, m :: PivotFor(db.pivots, c, m) ==
              if c == companyId && m in ids then Some(Pivot(c, m, Active)) else PivotFor(old(db.pivots), c, m)
  {
    var ps0 := db.pivots;
    var i := 0;
    while i < |ids|
      invariant 0 <= i <= |ids|
      invariant db.companies == old(db.companies) && db.users == old(db.users) && db.modules == old(db.modules)
      invariant PivotsReferToRows(db.pivots, |db.companies|, |db.modules|) && PivotsUnique(db.pivots)
      invariant forall c, m :: PivotFor(db.pivots, c, m) ==
                  if c == companyId && m in ids[..i] then Some(Pivot(c, m, Active)) else PivotFor(ps0, c, m)
    {
      var before := db.pivots;
      UpsertEffect(before, |db.companies|, |db.modules|, companyId, ids[i], Active);
      assert ids[..i + 1] == ids[..i] + [ids[i]];
      SyncStep(ps0, before, Upsert(before, companyId, ids[i], Active), companyId, ids[..i], ids[i]);
      db.pivots := Upsert(before, companyId, ids[i], Active);
      i := i + 1;
    }
    assert ids[..i] == ids;
  }

  /** One step of the sync: after making one more module's pivot active,
      the synced modules are the ones before plus that one. */
  lemma SyncStep(ps0: seq<Pivot>, before: seq<Pivot>, after: seq<Pivot>, company: nat, done: seq<nat>, id: nat)
    requires forall c, m :: PivotFor(before, c, m) ==
               if c == company && m in done then Some(Pivot(c, m, Active)) else PivotFor(ps0, c, m)
    requires PivotFor(after, company, id) == Some(Pivot(company, id, Active))
    requires forall c, m :: !(c == company && m == id) ==> PivotFor(after, c, m) == PivotFor(before, c, m)
    ensures forall c, m :: PivotFor(after, c, m) ==
              if c == company && m in done + [id] then Some(Pivot(c, m, Active)) else PivotFor(ps0, c, m)
  {
    forall c, m
      ensures PivotFor(after, c, m) == if c == company && m in done + [id] then Some(Pivot(c, m, Active)) else PivotFor(ps0, c, m)
    {
      assert m in done + [id] <==> m in done || m == id;
    }
  }

  /** `toggleModule`: `updateExistingPivot` sets the status of a pivot the
      company already has; a module never attached stays unattached. */
  method ToggleModule(db: CoreDb, companyId: nat, key: string, statusName: string) returns (r: Result<()>)
    requires db.Valid()
    modifies db
    ensures db.Valid()
    ensures db.companies == old(db.companies) && db.users == old(db.users) && db.modules == old(db.modules)
    ensures !(1 <= companyId <= |old(db.companies)|) ==> r == Err(NotFound)
    ensures (1 <= companyId <= |old(db.companies)| && (ModuleByKey(old(db.modules), Trim(key)).None? || ParsePivotStatus(Trim(statusName)).None?))
            ==> r == Err(Invalid)
    ensures r.Ok? <==>
              && 1 <= companyId <= |old(db.companies)|
              && ModuleByKey(old(db.modules), Trim(key)).Some? && ParsePivotStatus(Trim(statusName)).Some?
    ensures r.Err? ==> db.pivots == old(db.pivots)
    ensures forall c, m :: PivotFor(db.pivots, c, m).Some? <==> PivotFor(old(db.pivots), c, m).Some?
    ensures r.Ok? ==>
              var m := ModuleByKey(old(db.modules), Trim(key)).value.id;
              var s := ParsePivotStatus(Trim(statusName)).value;
              && db.pivots == SetStatus(old(db.pivots), companyId, m, s)
              && (PivotFor(old(db.pivots), companyId, m).Some? ==> PivotFor(db.pivots, companyId, m) == Some(Pivot(companyId, m, s)))
              && (forall c, id :: !(c == companyId && id == m) ==> PivotFor(db.pivots, c, id) == PivotFor(old(db.pivots), c, id))
  {
    if !(1 <= companyId <= |db.companies|) {
      return Err(NotFound);
    }
    var m := ModuleByKey(db.modules, Trim(key));
    var s := ParsePivotStatus(Trim(statusName));
    if m.None? || s.None? {
      return Err(Invalid);
    }
    var before := db.pivots;
    SetStatusKeepsPivotsValid(before, |db.companies|, |db.modules|, companyId, m.value.id, s.value);
    forall c, id
      ensures var p := PivotFor(SetStatus(before, companyId, m.value.id, s.value), c, id);
              && (p.Some? <==> PivotFor(before, c, id).Some?)
              && (c == companyId && id == m.value.id && p.Some? ==> p.value == Pivot(c, id, s.value))
              && (!(c == companyId && id == m.value.id) ==> p == PivotFor(before, c, id))
    {
      SetStatusPivotFor(before, companyId, m.value.id, s.value, c, id);
    }
    db.pivots := SetStatus(before, companyId, m.value.id, s.value);
    r := Ok(());
  }
}
