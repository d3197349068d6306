/** UserController: listing, showing, creating, updating and deleting users,
    with the rule that only a super admin reaches across companies or
    hands out the super-admin role. */
module Users {
  import opened Common
  import opened Tenancy
  import opened Core

  /** A validated `company_id` as the column stores it. */
  function AsCompany(n: nat): Option<CompanyId> {
    if n > 0 then Some(n) else None
  }

  /** The authorization test every single-user action starts with. */
  predicate MayManage(caller: Caller, u: UserRecord) {
    IsSuperAdmin(caller) || u.companyId == caller.companyId
  }

  /** `index`: every user for a super admin, the caller's company's users
      otherwise; soft-deleted users are never listed. */
  function Index(users: seq<UserRecord>, caller: Caller): (r: seq<UserRecord>)
    ensures forall u :: u in r <==> u in users && !u.deleted && MayManage(caller, u)
  {
    if users == [] then []
    else if !users[0].deleted && MayManage(caller, users[0]) then [users[0]] + Index(users[1..], caller)
    else Index(users[1..], caller)
  }

  /** `User::findOrFail($id)`. */
  function FindUser(users: seq<UserRecord>, id: nat): (r: Option<UserRecord>)
    ensures r.Some? ==> r.value in users && !r.value.deleted
    ensures UserIdsArePositions(users) && r.Some? ==> r.value.id == id
  {
    if 1 <= id <= |users| && !users[id - 1].deleted then Some(users[id - 1]) else None
  }

  /** `show`. */
  function Show(users: seq<UserRecord>, caller: Caller, id: nat): (r: Result<UserRecord>)
    ensures FindUser(users, id).None? <==> r == Err(NotFound)
    ensures r == Err(Forbidden) <==> FindUser(users, id).Some? && !MayManage(caller, FindUser(users, id).value)
    ensures r.Ok? ==> r.value == FindUser(users, id).value
  {
    var found := FindUser(users, id);
    if found.None? then Err(NotFound)
    else if !MayManage(caller, found.value) then Err(Forbidden)
    else Ok(found.value)
  }

  /** Whoever a caller may look at is on the caller's list, and the other
      way round. */
  lemma ShowAgreesWithIndex(users: seq<UserRecord>, caller: Caller, id: nat)
    requires UserIdsArePositions(users)
    ensures Show(users, caller, id).Ok? <==>
            exists u :: u in Index(users, caller) && u.id == id
  {
    if exists u :: u in Index(users, caller) && u.id == id {
      var u :| u in Index(users, caller) && u.id == id;
      var k :| 0 <= k < |users| && users[k] == u;
      assert k == id - 1;
    }
  }

  // ---------------------------------------------------------------------
  // store

  datatype NewUser = NewUser(name: string, email: string, role: string, companyId: nat) {
    /** The request as the controller reads it, after the global
        middleware. */
    function Trimmed(): NewUser {
      this.(name := Trim(name), email := Trim(email), role := Trim(role))
    }
  }

  /** The validation rules of `store` (the password is not modelled). */
  predicate NewUserValid(users: seq<UserRecord>, companyCount: nat, req: NewUser) {
    && RequiredMax(req.name, 255)
    && RequiredMax(req.email, 255)
    && EmailFree(users, req.email)
    && ParseRole(req.role).Some?
    && 1 <= req.companyId <= companyCount
  }

  /** The two authorization rules of `store`. */
  predicate MayCreate(caller: Caller, req: NewUser) {
    && (IsSuperAdmin(caller) || AsCompany(req.companyId) == caller.companyId)
    && (ParseRole(req.role) == Some(SuperAdminRole) ==> IsSuperAdmin(caller))
  }

  function NewUserRow(id: nat, req: NewUser): UserRecord
    requires ParseRole(req.role).Some?
  {
    UserRecord(id, AsCompany(req.companyId), req.name, req.email, ParseRole(req.role).value, false)
  }

  method Store(db: CoreDb, caller: Caller, sent: NewUser) returns (r: Result<nat>)
    requires db.Valid()
    modifies db
    ensures db.Valid()
    ensures db.companies == old(db.companies) && db.modules == old(db.modules) && db.pivots == old(db.pivots)
    ensures !NewUserValid(old(db.users), |old(db.companies)|, sent.Trimmed()) ==> r == Err(Invalid)
    ensures NewUserValid(old(db.users), |old(db.companies)|, sent.Trimmed()) && !MayCreate(caller, sent.Trimmed()) ==> r == Err(Forbidden)
    ensures r.Ok? <==> NewUserValid(old(db.users), |old(db.companies)|, sent.Trimmed()) && MayCreate(caller, sent.Trimmed())
    ensures r.Err? ==> db.users == old(db.users)
    ensures r.Ok? ==> r.value == |old(db.users)| + 1 && db.users == old(db.users) + [NewUserRow(r.value, sent.Trimmed())]
  {
    var req := sent.Trimmed();
    if !NewUserValid(db.users, |db.companies|, req) {
      return Err(Invalid);
    }
    if !IsSuperAdmin(caller) && AsCompany(req.companyId) != caller.companyId {
      return Err(Forbidden);
    }
    if ParseRole(req.role) == Some(SuperAdminRole) && !IsSuperAdmin(caller) {
      return Err(Forbidden);
    }
    var id := |db.users| + 1;
    AddUserKeepsEmailsUnique(db.users, NewUserRow(id, req));
    db.users := db.users + [NewUserRow(id, req)];
    r := Ok(id);
  }

  // ---------------------------------------------------------------------
  // update

  /** The fields an update may carry; absent ones keep their value. */
  datatype UserUpdate = UserUpdate(name: Option<string>, email: Option<string>, role: Option<string>, companyId: Option<nat>) {
    /** The request as the controller reads it: a field sent blank is
        present but null, which `sometimes|required` still refuses. */
    function Trimmed(): UserUpdate {
      this.(name := if name.Some? then Some(Trim(name.value)) else None,
            email := if email.Some? then Some(Trim(email.value)) else None,
            role := if role.Some? then Some(Trim(role.value)) else None)
    }
  }

  predicate UpdateValid(users: seq<UserRecord>, companyCount: nat, id: nat, req: UserUpdate) {
    && (req.name.Some? ==> RequiredMax(req.name.value, 255))
    && (req.email.Some? ==> RequiredMax(req.email.value, 255) && EmailFreeExcept(users, req.email.value, id))
    && (req.role.Some? ==> ParseRole(req.role.value).Some?)
    && (req.companyId.Some? ==> 1 <= req.companyId.value <= companyCount)
  }

  /** The two authorization rules applied after validation. */
  predicate MayApply(caller: Caller, req: UserUpdate) {
    && (req.companyId.Some? && !IsSuperAdmin(caller) ==> AsCompany(req.companyId.value) == caller.companyId)
    && (req.role.Some? && ParseRole(req.role.value) == Some(SuperAdminRole) ==> IsSuperAdmin(caller))
  }

  /** `$user->update($validated)`. */
  function Apply(u: UserRecord, req: UserUpdate): UserRecord {
    u.(name := req.name.GetOr(u.name),
       email := req.email.GetOr(u.email),
       role := if req.role.Some? && ParseRole(req.role.value).Some? then ParseRole(req.role.value).value else u.role,
       companyId := if req.companyId.Some? then AsCompany(req.companyId.value) else u.companyId)
  }

  lemma UpdateKeepsEmailsUnique(users: seq<UserRecord>, k: nat, req: UserUpdate)
    requires UserIdsArePositions(users) && EmailsUnique(users)
    requires k < |users|
    requires req.email.Some? ==> EmailFreeExcept(users, req.email.value, k + 1)
    ensures EmailsUnique(users[k := Apply(users[k], req)])
  {
    var all := users[k := Apply(users[k], req)];
    forall i, j | 0 <= i < j < |all| ensures all[i].email != all[j].email {
      if req.email.Some? && (i == k || j == k) {
        var other := if i == k then j else i;
        assert users[other].id == other + 1;
      }
    }
  }

  method Update(db: CoreDb, caller: Caller, id: nat, sent: UserUpdate) returns (r: Result<UserRecord>)
    requires db.Valid()
    modifies db
    ensures db.Valid()
    ensures db.companies == old(db.companies) && db.modules == old(db.modules) && db.pivots == old(db.pivots)
    ensures var found := FindUser(old(db.users), id);
            && (found.None? ==> r == Err(NotFound))
            && (found.Some? && !MayManage(caller, found.value) ==> r == Err(Forbidden))
            && (found.Some? && MayManage(caller, found.value) && !UpdateValid(old(db.users), |old(db.companies)|, id, sent.Trimmed()) ==>
                  r == Err(Invalid))
            && (r.Ok? <==>
                  found.Some? && MayManage(caller, found.value)
                  && UpdateValid(old(db.users), |old(db.companies)|, id, sent.Trimmed()) && MayApply(caller, sent.Trimmed()))
    ensures r.Err? ==> db.users == old(db.users)
    ensures r.Ok? ==> r.value == Apply(old(db.users)[id - 1], sent.Trimmed()) && db.users == old(db.users)[id - 1 := r.value]
  {
    var req := sent.Trimmed();
    var found := FindUser(db.users, id);
    if found.None? {
      return Err(NotFound);
    }
    if !MayManage(caller, found.value) {
      return Err(Forbidden);
    }
    if !UpdateValid(db.users, |db.companies|, id, req) {
      return Err(Invalid);
    }
    if req.companyId.Some? && !IsSuperAdmin(caller) && AsCompany(req.companyId.value) != caller.companyId {
      return Err(Forbidden);
    }
    if req.role.Some? && ParseRole(req.role.value) == Some(SuperAdminRole) && !IsSuperAdmin(caller) {
      return Err(Forbidden);
    }
    var updated := Apply(db.users[id - 1], req);
    UpdateKeepsEmailsUnique(db.users, id - 1, req);
    db.users := db.users[id - 1 := updated];
    r := Ok(updated);
  }

  /** What an ordinary caller's successful update leaves behind: the user
      is still in the caller's company, and is a super admin only if they
      already were one. */
  lemma OrdinaryUpdateStaysInCompany(users: seq<UserRecord>, companyCount: nat, caller: Caller, id: nat, req: UserUpdate)
    requires !IsSuperAdmin(caller)
    requires FindUser(users, id).Some? && MayManage(caller, FindUser(users, id).value)
    requires UpdateValid(users, companyCount, id, req) && MayApply(caller, req)
    ensures Apply(users[id - 1], req).companyId == caller.companyId
    ensures Apply(users[id - 1], req).role == SuperAdminRole ==> users[id - 1].role == SuperAdminRole
  {
  }

  // ---------------------------------------------------------------------
  // destroy

  /** `destroy`: a soft delete, never of the caller's own account. */
  method Destroy(db: CoreDb, caller: Caller, id: nat) returns (r: Result<nat>)
    requires db.Valid()
    modifies db
    ensures db.Valid()
    ensures db.companies == old(db.companies) && db.modules == old(db.modules) && db.pivots == old(db.pivots)
    ensures var found := FindUser(old(db.users), id);
            && (found.None? ==> r == Err(NotFound))
            && (found.Some? && !MayManage(caller, found.value) ==> r == Err(Forbidden))
            && (found.Some? && MayManage(caller, found.value) && id == caller.id ==> r == Err(Forbidden))
            && (r.Ok? <==> found.Some? && MayManage(caller, found.value) && id != caller.id)
    ensures r.Err? ==> db.users == old(db.users)
    ensures r.Ok? ==> r.value == id && db.users == old(db.users)[id - 1 := old(db.users)[id - 1].(deleted := true)]
    ensures id == caller.id ==> db.users == old(db.users)
  {
    var found := FindUser(db.users, id);
    if found.None? {
      return Err(NotFound);
    }
    if !MayManage(caller, found.value) {
      return Err(Forbidden);
    }
    if id == caller.id {
      return Err(Forbidden);
    }
    db.users := db.users[id - 1 := db.users[id - 1].(deleted := true)];
    r := Ok(id);
  }
}
