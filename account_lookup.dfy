/** The account lookups of the invoice and payment observers: a filtered
    `Account` query ending in `first()`. */
module AccountLookup {
  import opened Common
  import opened Tenancy
  import opened Ledger

  /** `column LIKE '%keyword%'`.  Whether it ignores case depends on the
      database collation, so the model keeps it abstract. */
  type Matcher = (string, string) -> bool

  /** The explicit where clauses: the document's company (a null company
      becomes `whereNull`), the account type and, when keywords are given,
      a LIKE of any keyword on the code or the name. */
  datatype AccountFilter = AccountFilter(company: Option<CompanyId>, kind: AccountType, keywords: seq<string>)

  /** A row the query returns: the explicit clauses plus the tenant scope
      of the logged-in caller. */
  predicate Matches(a: Account, auth: Auth, f: AccountFilter, like: Matcher) {
    && a.companyId == f.company
    && InScope(auth, a.companyId)
    && a.kind == f.kind
    && (f.keywords == [] || exists k :: k in f.keywords && (like(a.code, k) || like(a.name, k)))
  }

  function FirstFrom(accounts: seq<Account>, auth: Auth, f: AccountFilter, like: Matcher, i: nat): (r: Option<nat>)
    requires i <= |accounts|
    ensures r.Some? ==> i <= r.value < |accounts| && Matches(accounts[r.value], auth, f, like)
    ensures r.Some? ==> forall j :: i <= j < r.value ==> !Matches(accounts[j], auth, f, like)
    ensures r.None? ==> forall j :: i <= j < |accounts| ==> !Matches(accounts[j], auth, f, like)
    decreases |accounts| - i
  {
    if i == |accounts| then None
    else if Matches(accounts[i], auth, f, like) then Some(i)
    else FirstFrom(accounts, auth, f, like, i + 1)
  }

  /** `->first()` without an ORDER BY, taken as the first row in table
      order: the match of least position, or none when nothing matches. */
  function First(accounts: seq<Account>, auth: Auth, f: AccountFilter, like: Matcher): (r: Option<Account>)
    ensures r.Some? ==> exists i :: 0 <= i < |accounts| && accounts[i] == r.value && Matches(r.value, auth, f, like)
                          && forall j :: 0 <= j < i ==> !Matches(accounts[j], auth, f, like)
    ensures r.None? <==> forall a :: a in accounts ==> !Matches(a, auth, f, like)
  {
    var k := FirstFrom(accounts, auth, f, like, 0);
    if k.Some? then Some(accounts[k.value]) else None
  }

  /** In a valid chart of accounts the found account's id names it. */
  lemma FoundAccountId(accounts: seq<Account>, auth: Auth, f: AccountFilter, like: Matcher)
    requires AccountIdsArePositions(accounts)
    requires First(accounts, auth, f, like).Some?
    ensures var a := First(accounts, auth, f, like).value;
            1 <= a.id <= |accounts| && accounts[a.id - 1] == a
  {
  }

  function ReceivableFilter(company: Option<CompanyId>): AccountFilter {
    AccountFilter(company, Asset, ["receivable"])
  }

  function RevenueFilter(company: Option<CompanyId>): AccountFilter {
    AccountFilter(company, Revenue, [])
  }

  function CashFilter(company: Option<CompanyId>): AccountFilter {
    AccountFilter(company, Asset, ["cash", "bank"])
  }

  /** An account of another company is never picked, whatever its name. */
  lemma FoundAccountBelongsToDocumentCompany(accounts: seq<Account>, auth: Auth, f: AccountFilter, like: Matcher)
    requires First(accounts, auth, f, like).Some?
    ensures First(accounts, auth, f, like).value.companyId == f.company
    ensures First(accounts, auth, f, like).value.kind == f.kind
    ensures InScope(auth, f.company)
  {
  }
}
