/** The BelongsToTenant trait: a read filter that every query of a tenant
    model gets while a caller is authenticated, and a creation hook that
    stamps the caller's company on every new row.

    The authenticated caller is an explicit value (`Auth`) instead of an
    ambient facade; `None` is "no one is logged in". */
module Tenancy {
  import opened Common

  datatype Role = UserRole | AdminRole | SuperAdminRole

  /** The stored value of each role constant. */
  function RoleName(r: Role): string {
    match r
    case UserRole => "user"
    case AdminRole => "admin"
    case SuperAdminRole => "super_admin"
  }

  /** `Rule::in([Roles::USER, Roles::ADMIN, Roles::SUPER_ADMIN])`: exactly
      the three role names. */
  function ParseRole(s: string): (r: Option<Role>)
    ensures r.Some? ==> RoleName(r.value) == s
  {
    if s == "user" then Some(UserRole)
    else if s == "admin" then Some(AdminRole)
    else if s == "super_admin" then Some(SuperAdminRole)
    else None
  }

  lemma ParseRoleName(r: Role)
    ensures ParseRole(RoleName(r)) == Some(r)
  {
  }

  /** The fields of the logged-in user that the core reads. */
  datatype Caller = Caller(id: nat, companyId: Option<CompanyId>, role: Role)

  type Auth = Option<Caller>

  predicate IsSuperAdmin(c: Caller) {
    c.role == SuperAdminRole
  }

  /** The where clause of the 'tenant' global scope.  The framework turns
      `where('company_id', null)` into `whereNull`, so a caller without a
      company sees exactly the rows whose company is also null. */
  predicate InScope(auth: Auth, rowCompany: Option<CompanyId>) {
    auth.None? || rowCompany == auth.value.companyId
  }

  /** The company a new tenant row ends up with: the caller's, whatever was
      supplied, when someone is logged in; the supplied one otherwise. */
  function AssignedCompany(auth: Auth, supplied: Option<CompanyId>): Option<CompanyId> {
    if auth.Some? then auth.value.companyId else supplied
  }

  /** The rows of `rows` that satisfy every `company_id = w` constraint. */
  function Select<R>(wheres: seq<Option<CompanyId>>, rows: seq<R>, companyOf: R -> Option<CompanyId>): (r: seq<R>)
    ensures |r| <= |rows|
  {
    if rows == [] then []
    else
      var rest := Select(wheres, rows[1..], companyOf);
      if forall w :: w in wheres ==> companyOf(rows[0]) == w then [rows[0]] + rest else rest
  }

  lemma {:induction false} SelectMembers<R>(wheres: seq<Option<CompanyId>>, rows: seq<R>, companyOf: R -> Option<CompanyId>, x: R)
    ensures x in Select(wheres, rows, companyOf) <==>
            x in rows && forall w :: w in wheres ==> companyOf(x) == w
  {
    if rows != [] {
      SelectMembers(wheres, rows[1..], companyOf, x);
      assert rows == [rows[0]] + rows[1..];
    }
  }

  /** The part of a query builder the tenant scope touches: its list of
      `company_id = ?` constraints. */
  class QueryBuilder {
    var wheres: seq<Option<CompanyId>>

    constructor ()
      ensures wheres == []
    {
      wheres := [];
    }

    /** The 'tenant' global scope, applied to a query before it runs. */
    method ApplyTenantScope(auth: Auth)
      modifies this
      ensures wheres == if auth.Some? then old(wheres) + [auth.value.companyId] else old(wheres)
    {
      if auth.Some? {
        wheres := wheres + [auth.value.companyId];
      }
    }
  }

  /** A fresh scoped query returns exactly the rows `InScope` admits: only
      the caller's company while someone is logged in, everything otherwise.
      There is no exemption for super admins. */
  lemma ScopedQueryIsInScope<R>(auth: Auth, rows: seq<R>, companyOf: R -> Option<CompanyId>, x: R)
    ensures var wheres := if auth.Some? then [auth.value.companyId] else [];
            x in Select(wheres, rows, companyOf) <==> x in rows && InScope(auth, companyOf(x))
  {
    var wheres := if auth.Some? then [auth.value.companyId] else [];
    SelectMembers(wheres, rows, companyOf, x);
    if auth.Some? {
      assert auth.value.companyId in wheres;
    }
  }

  /** A model instance that is about to be inserted. */
  class PendingRow {
    var companyId: Option<CompanyId>

    constructor (supplied: Option<CompanyId>)
      ensures companyId == supplied
    {
      companyId := supplied;
    }

    /** The 'creating' hook of the trait. */
    method Creating(auth: Auth)
      modifies this
      ensures companyId == AssignedCompany(auth, old(companyId))
    {
      if auth.Some? {
        companyId := auth.value.companyId;
      }
    }
  }

  /** Once a caller is logged in the supplied company is irrelevant: two
      rows created with different companies end up in the same one. */
  lemma CreatingIgnoresSupplied(auth: Auth, s1: Option<CompanyId>, s2: Option<CompanyId>)
    requires auth.Some?
    ensures AssignedCompany(auth, s1) == AssignedCompany(auth, s2) == auth.value.companyId
  {
  }

  /** A row created by a caller is visible to that caller's scoped reads. */
  lemma CreatedRowIsVisibleToCreator(auth: Auth, supplied: Option<CompanyId>)
    ensures InScope(auth, AssignedCompany(auth, supplied))
  {
  }
}
