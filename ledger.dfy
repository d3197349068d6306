/** The accounting tables (accounts, journal entries, journal lines,
    invoices, payments), the sums the double-entry rules are stated in, and
    the invariant every committed state of the ledger keeps.

    Money is integer cents, so the source's `round(x, 2) === round(y, 2)`
    comparisons are plain equality.  Dates are day numbers.  The row at
    index i of a table has id i + 1 (auto-increment keys). */
module Ledger {
  import opened Common
  import opened Tenancy

  type Cents = int
  type Date = int

  datatype AccountType = Asset | Liability | Equity | Revenue | Expense

  datatype Account = Account(id: nat, companyId: Option<CompanyId>, code: string, name: string, kind: AccountType)

  /** The document a journal entry was derived from (the polymorphic
      source_type / source_id pair, closed over its two kinds). */
  datatype SourceRef = InvoiceSource(invoiceId: nat) | PaymentSource(paymentId: nat)

  datatype JournalEntry = JournalEntry(
    companyId: Option<CompanyId>,
    date: Date,
    description: string,
    reference: Option<string>,
    source: Option<SourceRef>)

  /** One debit/credit pair against an account: a request line, or the
      amounts of a stored line. */
  datatype Posting = Posting(accountId: nat, debit: Cents, credit: Cents)

  datatype JournalLine = JournalLine(entryId: nat, companyId: Option<CompanyId>, post: Posting)

  datatype InvoiceStatus = Draft | Sent | Paid | Overdue | Cancelled

  datatype Invoice = Invoice(id: nat, companyId: Option<CompanyId>, clientName: string, total: Cents, status: InvoiceStatus)

  datatype Payment = Payment(
    id: nat,
    companyId: Option<CompanyId>,
    invoiceId: Option<nat>,
    amount: Cents,
    paymentDate: Date,
    paymentMethod: string,
    reference: Option<string>,
    notes: Option<string>)

  // ---------------------------------------------------------------------
  // Sums

  function Debits(ps: seq<Posting>): int {
    if ps == [] then 0 else ps[0].debit + Debits(ps[1..])
  }

  function Credits(ps: seq<Posting>): int {
    if ps == [] then 0 else ps[0].credit + Credits(ps[1..])
  }

  /** Σdebit = Σcredit: what the entry's `is_balanced` is meant to say. */
  predicate Balanced(ps: seq<Posting>) {
    Debits(ps) == Credits(ps)
  }

  /** Exactly one side of the line carries an amount. */
  predicate OneSided(p: Posting) {
    (p.debit > 0 && p.credit == 0) || (p.debit == 0 && p.credit > 0)
  }

  lemma {:induction false} SumsAppend(a: seq<Posting>, b: seq<Posting>)
    ensures Debits(a + b) == Debits(a) + Debits(b)
    ensures Credits(a + b) == Credits(a) + Credits(b)
  {
    if a == [] {
      assert a + b == b;
    } else {
      SumsAppend(a[1..], b);
      assert (a + b)[0] == a[0];
      assert (a + b)[1..] == a[1..] + b;
    }
  }

  // ---------------------------------------------------------------------
  // Lines grouped by entry

  /** The postings of the lines whose entry is in `S`, in table order. */
  function EntryPostings(ls: seq<JournalLine>, S: set<nat>): (ps: seq<Posting>)
    ensures |ps| <= |ls|
  {
    if ls == [] then []
    else if ls[0].entryId in S then [ls[0].post] + EntryPostings(ls[1..], S)
    else EntryPostings(ls[1..], S)
  }

  /** The postings of one entry (its `lines` relation). */
  function Postings(ls: seq<JournalLine>, k: nat): seq<Posting> {
    EntryPostings(ls, {k})
  }

  lemma {:induction false} EntryPostingsConcat(a: seq<JournalLine>, b: seq<JournalLine>, S: set<nat>)
    ensures EntryPostings(a + b, S) == EntryPostings(a, S) + EntryPostings(b, S)
  {
    if a == [] {
      assert a + b == b;
    } else {
      EntryPostingsConcat(a[1..], b, S);
      var ab := a + b;
      assert ab[0] == a[0];
      assert ab[1..] == a[1..] + b;
      if a[0].entryId in S {
        calc {
          EntryPostings(ab, S);
          [a[0].post] + EntryPostings(a[1..] + b, S);
          [a[0].post] + (EntryPostings(a[1..], S) + EntryPostings(b, S));
          ([a[0].post] + EntryPostings(a[1..], S)) + EntryPostings(b, S);
        }
      } else {
        assert EntryPostings(ab, S) == EntryPostings(a[1..] + b, S);
      }
    }
  }

  lemma {:induction false} EntryPostingsNone(ls: seq<JournalLine>, S: set<nat>)
    requires forall i :: 0 <= i < |ls| ==> ls[i].entryId !in S
    ensures EntryPostings(ls, S) == []
  {
    if ls != [] {
      EntryPostingsNone(ls[1..], S);
    }
  }

  /** Splitting a set of entries into one entry and the rest splits the
      column sums the same way. */
  lemma {:induction false} EntryPostingsSplit(ls: seq<JournalLine>, S: set<nat>, k: nat)
    requires k !in S
    ensures Debits(EntryPostings(ls, S + {k})) == Debits(EntryPostings(ls, S)) + Debits(Postings(ls, k))
    ensures Credits(EntryPostings(ls, S + {k})) == Credits(EntryPostings(ls, S)) + Credits(Postings(ls, k))
  {
    if ls != [] {
      EntryPostingsSplit(ls[1..], S, k);
    }
  }

  /** Lines of balanced entries, taken together, balance: the fact behind
      every trial balance over whole entries. */
  lemma {:induction false} BalancedEntriesBalance(ls: seq<JournalLine>, S: set<nat>)
    requires forall k :: k in S ==> Balanced(Postings(ls, k))
    ensures Balanced(EntryPostings(ls, S))
    decreases S
  {
    if S == {} {
      EntryPostingsNone(ls, S);
    } else {
      var k :| k in S;
      var T := S - {k};
      BalancedEntriesBalance(ls, T);
      EntryPostingsSplit(ls, T, k);
      assert T + {k} == S;
    }
  }

  // ---------------------------------------------------------------------
  // Lines grouped by account

  /** The postings against accounts whose id is in `A`, in order. */
  function AccountPostings(ps: seq<Posting>, A: set<nat>): (r: seq<Posting>)
    ensures |r| <= |ps|
    ensures forall p :: p in r ==> p in ps && p.accountId in A
  {
    if ps == [] then []
    else if ps[0].accountId in A then [ps[0]] + AccountPostings(ps[1..], A)
    else AccountPostings(ps[1..], A)
  }

  function ForAccount(ps: seq<Posting>, id: nat): seq<Posting> {
    AccountPostings(ps, {id})
  }

  lemma {:induction false} AccountPostingsSplit(ps: seq<Posting>, A: set<nat>, id: nat)
    requires id !in A
    ensures Debits(AccountPostings(ps, A + {id})) == Debits(AccountPostings(ps, A)) + Debits(ForAccount(ps, id))
    ensures Credits(AccountPostings(ps, A + {id})) == Credits(AccountPostings(ps, A)) + Credits(ForAccount(ps, id))
  {
    if ps != [] {
      AccountPostingsSplit(ps[1..], A, id);
    }
  }

  lemma {:induction false} AccountPostingsAll(ps: seq<Posting>, A: set<nat>)
    requires forall i :: 0 <= i < |ps| ==> ps[i].accountId in A
    ensures AccountPostings(ps, A) == ps
  {
    if ps != [] {
      AccountPostingsAll(ps[1..], A);
      assert ps == [ps[0]] + ps[1..];
    }
  }

  function IdsOf(accts: seq<Account>): set<nat> {
    set a | a in accts :: a.id
  }

  predicate DistinctIds(accts: seq<Account>) {
    forall i, j :: 0 <= i < j < |accts| ==> accts[i].id != accts[j].id
  }

  // ---------------------------------------------------------------------
  // The books a report reads

  datatype Books = Books(accounts: seq<Account>, entries: seq<JournalEntry>, lines: seq<JournalLine>)

  /** The company and date filters the report queries put on
      journal_entries; each date bound applies only when given and is
      inclusive. */
  predicate EntryInPeriod(e: JournalEntry, company: Option<CompanyId>, start: Option<Date>, end: Option<Date>) {
    && e.companyId == company
    && (start.Some? ==> e.date >= start.value)
    && (end.Some? ==> e.date <= end.value)
  }

  /** `end_date` `after_or_equal:start_date`; with no start date the rule
      compares against nothing and passes. */
  predicate DateRangeValid(start: Option<Date>, end: Option<Date>) {
    start.None? || end.None? || end.value >= start.value
  }

  /** Ids of the entries a report with these filters reads. */
  function SelectedEntries(entries: seq<JournalEntry>, company: Option<CompanyId>, start: Option<Date>, end: Option<Date>): (S: set<nat>)
    ensures forall k :: k in S <==> 1 <= k <= |entries| && EntryInPeriod(entries[k - 1], company, start, end)
  {
    var S := set i | 0 <= i < |entries| && EntryInPeriod(entries[i], company, start, end) :: i + 1;
    assert forall k :: k in S ==> 1 <= k <= |entries| && EntryInPeriod(entries[k - 1], company, start, end);
    assert forall i :: 0 <= i < |entries| && EntryInPeriod(entries[i], company, start, end) ==> i + 1 in S;
    S
  }

  /** The journal lines joined to a selected entry. */
  function PeriodPostings(b: Books, company: Option<CompanyId>, start: Option<Date>, end: Option<Date>): seq<Posting> {
    EntryPostings(b.lines, SelectedEntries(b.entries, company, start, end))
  }

  /** The books as the stored ledger keeps them: account ids are distinct
      and every line names an existing account. */
  predicate WellFormedBooks(b: Books) {
    && DistinctIds(b.accounts)
    && forall i :: 0 <= i < |b.lines| ==> b.lines[i].post.accountId in IdsOf(b.accounts)
  }

  lemma PeriodPostingsHaveAccounts(b: Books, company: Option<CompanyId>, start: Option<Date>, end: Option<Date>)
    requires WellFormedBooks(b)
    ensures AccountPostings(PeriodPostings(b, company, start, end), IdsOf(b.accounts)) == PeriodPostings(b, company, start, end)
  {
    var S := SelectedEntries(b.entries, company, start, end);
    EntryPostingsAccounts(b.lines, S, IdsOf(b.accounts));
    AccountPostingsAll(PeriodPostings(b, company, start, end), IdsOf(b.accounts));
  }

  lemma {:induction false} EntryPostingsAccounts(ls: seq<JournalLine>, S: set<nat>, A: set<nat>)
    requires forall i :: 0 <= i < |ls| ==> ls[i].post.accountId in A
    ensures forall i :: 0 <= i < |EntryPostings(ls, S)| ==> EntryPostings(ls, S)[i].accountId in A
  {
    if ls != [] {
      EntryPostingsAccounts(ls[1..], S, A);
    }
  }

  /** One result row of `SUM(debit), SUM(credit) ... GROUP BY accounts.id`. */
  datatype AccountTotal = AccountTotal(account: Account, debit: Cents, credit: Cents)

  /** The grouped-sum query: a row for every account that has at least one
      of the postings, in account table order, holding that account's sums. */
  function GroupByAccount(accts: seq<Account>, ps: seq<Posting>): (rows: seq<AccountTotal>)
    ensures |rows| <= |accts|
    ensures forall r :: r in rows ==>
              && r.account in accts
              && ForAccount(ps, r.account.id) != []
              && r.debit == Debits(ForAccount(ps, r.account.id))
              && r.credit == Credits(ForAccount(ps, r.account.id))
    ensures forall a :: a in accts && ForAccount(ps, a.id) != [] ==> exists r :: r in rows && r.account == a
  {
    if accts == [] then []
    else
      var a := accts[0];
      var rest := GroupByAccount(accts[1..], ps);
      assert forall x :: x in accts ==> x == a || x in accts[1..];
      var own := ForAccount(ps, a.id);
      if own == [] then rest else [AccountTotal(a, Debits(own), Credits(own))] + rest
  }

  function TotalDebits(rows: seq<AccountTotal>): int {
    if rows == [] then 0 else rows[0].debit + TotalDebits(rows[1..])
  }

  function TotalCredits(rows: seq<AccountTotal>): int {
    if rows == [] then 0 else rows[0].credit + TotalCredits(rows[1..])
  }

  /** The column sums of the grouped query are the sums of the postings
      whose account is in the table: no posting is counted twice or lost. */
  lemma {:induction false} GroupTotals(accts: seq<Account>, ps: seq<Posting>)
    requires DistinctIds(accts)
    ensures TotalDebits(GroupByAccount(accts, ps)) == Debits(AccountPostings(ps, IdsOf(accts)))
    ensures TotalCredits(GroupByAccount(accts, ps)) == Credits(AccountPostings(ps, IdsOf(accts)))
  {
    if accts == [] {
      AccountPostingsNone(ps, IdsOf(accts));
    } else {
      var a, rest := accts[0], accts[1..];
      DistinctIdsTail(accts);
      GroupTotals(rest, ps);
      IdsOfCons(accts);
      AccountPostingsSplit(ps, IdsOf(rest), a.id);
      var own := ForAccount(ps, a.id);
      if own == [] {
        assert GroupByAccount(accts, ps) == GroupByAccount(rest, ps);
      } else {
        assert GroupByAccount(accts, ps) == [AccountTotal(a, Debits(own), Credits(own))] + GroupByAccount(rest, ps);
      }
    }
  }

  lemma DistinctIdsTail(accts: seq<Account>)
    requires accts != [] && DistinctIds(accts)
    ensures DistinctIds(accts[1..])
  {
    var rest := accts[1..];
    forall i, j | 0 <= i < j < |rest| ensures rest[i].id != rest[j].id {
      assert rest[i] == accts[i + 1] && rest[j] == accts[j + 1];
    }
  }

  lemma IdsOfCons(accts: seq<Account>)
    requires accts != [] && DistinctIds(accts)
    ensures IdsOf(accts) == IdsOf(accts[1..]) + {accts[0].id}
    ensures accts[0].id !in IdsOf(accts[1..])
  {
    var a, rest := accts[0], accts[1..];
    assert accts == [a] + rest;
    forall x | x in rest ensures x.id != a.id {
      var j :| 0 <= j < |rest| && rest[j] == x;
      assert accts[j + 1] == x;
    }
  }

  lemma {:induction false} AccountPostingsNone(ps: seq<Posting>, A: set<nat>)
    requires A == {}
    ensures AccountPostings(ps, A) == []
  {
    if ps != [] {
      AccountPostingsNone(ps[1..], A);
    }
  }

  /** Rows of the grouped query whose account has one of the given types. */
  function RowsOfType(rows: seq<AccountTotal>, t: AccountType): (r: seq<AccountTotal>)
    ensures forall x :: x in r <==> x in rows && x.account.kind == t
  {
    if rows == [] then []
    else if rows[0].account.kind == t then [rows[0]] + RowsOfType(rows[1..], t)
    else RowsOfType(rows[1..], t)
  }

  function AccountsOfTypes(accts: seq<Account>, T: set<AccountType>): (r: seq<Account>)
    ensures forall a :: a in r <==> a in accts && a.kind in T
  {
    if accts == [] then []
    else if accts[0].kind in T then [accts[0]] + AccountsOfTypes(accts[1..], T)
    else AccountsOfTypes(accts[1..], T)
  }

  /** Grouping only the accounts of some types (an SQL `whereIn` on
      accounts.type) and then picking one type gives the same rows as
      grouping every account and picking that type. */
  lemma {:induction false} GroupOfTypes(accts: seq<Account>, ps: seq<Posting>, T: set<AccountType>, t: AccountType)
    requires t in T
    ensures RowsOfType(GroupByAccount(AccountsOfTypes(accts, T), ps), t) == RowsOfType(GroupByAccount(accts, ps), t)
  {
    if accts != [] {
      var a, rest := accts[0], accts[1..];
      GroupOfTypes(rest, ps, T, t);
      var head := GroupHead(a, ps);
      GroupCons(accts, ps);
      RowsOfTypeConcat(head, GroupByAccount(rest, ps), t);
      if a.kind in T {
        var kept := AccountsOfTypes(accts, T);
        assert kept == [a] + AccountsOfTypes(rest, T);
        assert kept[0] == a && kept[1..] == AccountsOfTypes(rest, T);
        GroupCons(kept, ps);
        RowsOfTypeConcat(head, GroupByAccount(AccountsOfTypes(rest, T), ps), t);
      } else {
        assert AccountsOfTypes(accts, T) == AccountsOfTypes(rest, T);
        assert RowsOfType(head, t) == [] by {
          if head != [] {
            assert head[1..] == [];
          }
        }
      }
    }
  }

  /** The row the grouped query yields for one account, if any. */
  function GroupHead(a: Account, ps: seq<Posting>): seq<AccountTotal> {
    var own := ForAccount(ps, a.id);
    if own == [] then [] else [AccountTotal(a, Debits(own), Credits(own))]
  }

  lemma GroupCons(accts: seq<Account>, ps: seq<Posting>)
    requires accts != []
    ensures GroupByAccount(accts, ps) == GroupHead(accts[0], ps) + GroupByAccount(accts[1..], ps)
  {
  }

  lemma {:induction false} RowsOfTypeConcat(x: seq<AccountTotal>, y: seq<AccountTotal>, t: AccountType)
    ensures RowsOfType(x + y, t) == RowsOfType(x, t) + RowsOfType(y, t)
  {
    if x == [] {
      assert x + y == y;
    } else {
      assert (x + y)[0] == x[0] && (x + y)[1..] == x[1..] + y;
      RowsOfTypeConcat(x[1..], y, t);
    }
  }

  function NetSum(rows: seq<AccountTotal>): int {
    if rows == [] then 0 else rows[0].debit - rows[0].credit + NetSum(rows[1..])
  }

  lemma {:induction false} NetSumIsDifference(rows: seq<AccountTotal>)
    ensures NetSum(rows) == TotalDebits(rows) - TotalCredits(rows)
  {
    if rows != [] {
      NetSumIsDifference(rows[1..]);
    }
  }

  /** Every row has exactly one of the five types, so the per-type net sums
      add up to the net sum of all rows. */
  lemma {:induction false} NetSumByType(rows: seq<AccountTotal>)
    ensures NetSum(rows) ==
            NetSum(RowsOfType(rows, Asset)) + NetSum(RowsOfType(rows, Liability)) + NetSum(RowsOfType(rows, Equity))
            + NetSum(RowsOfType(rows, Revenue)) + NetSum(RowsOfType(rows, Expense))
  {
    if rows != [] {
      NetSumByType(rows[1..]);
      NetSumOfTypeStep(rows, Asset);
      NetSumOfTypeStep(rows, Liability);
      NetSumOfTypeStep(rows, Equity);
      NetSumOfTypeStep(rows, Revenue);
      NetSumOfTypeStep(rows, Expense);
    }
  }

  lemma NetSumOfTypeStep(rows: seq<AccountTotal>, t: AccountType)
    requires rows != []
    ensures NetSum(RowsOfType(rows, t)) ==
            (if rows[0].account.kind == t then rows[0].debit - rows[0].credit else 0) + NetSum(RowsOfType(rows[1..], t))
  {
    if rows[0].account.kind == t {
      assert ([rows[0]] + RowsOfType(rows[1..], t))[1..] == RowsOfType(rows[1..], t);
    }
  }

  predicate RowIdsDistinct(rows: seq<AccountTotal>) {
    forall i, j :: 0 <= i < j < |rows| ==> rows[i].account.id != rows[j].account.id
  }

  /** Over a table whose ids are distinct the grouped query yields every
      account at most once. */
  lemma {:induction false} GroupRowsDistinct(accts: seq<Account>, ps: seq<Posting>)
    requires DistinctIds(accts)
    ensures RowIdsDistinct(GroupByAccount(accts, ps))
  {
    if accts != [] {
      DistinctIdsTail(accts);
      GroupRowsDistinct(accts[1..], ps);
      GroupCons(accts, ps);
      TailAccountsDiffer(accts, ps);
      ConsDistinct(GroupHead(accts[0], ps), GroupByAccount(accts[1..], ps), accts[0].id);
    }
  }

  lemma TailAccountsDiffer(accts: seq<Account>, ps: seq<Posting>)
    requires accts != [] && DistinctIds(accts)
    ensures forall x :: x in GroupByAccount(accts[1..], ps) ==> x.account.id != accts[0].id
  {
    OtherAccountsDiffer(accts);
  }

  lemma ConsDistinct(head: seq<AccountTotal>, tail: seq<AccountTotal>, id: nat)
    requires |head| <= 1 && forall x :: x in head ==> x.account.id == id
    requires forall x :: x in tail ==> x.account.id != id
    requires RowIdsDistinct(tail)
    ensures RowIdsDistinct(head + tail)
  {
    var rows := head + tail;
    forall i, j | 0 <= i < j < |rows| ensures rows[i].account.id != rows[j].account.id {
      assert rows[j] == tail[j - |head|] && tail[j - |head|] in tail;
      if i < |head| {
        assert rows[i] in head;
      } else {
        assert rows[i] == tail[i - |head|];
      }
    }
  }

  lemma OtherAccountsDiffer(accts: seq<Account>)
    requires accts != [] && DistinctIds(accts)
    ensures forall x :: x in accts[1..] ==> x.id != accts[0].id
  {
    forall x | x in accts[1..] ensures x.id != accts[0].id {
      var k :| 0 <= k < |accts[1..]| && accts[1..][k] == x;
      assert accts[k + 1] == x;
    }
  }

  /** Picking the rows of one type keeps them distinct. */
  lemma {:induction false} RowsOfTypeDistinct(rows: seq<AccountTotal>, t: AccountType)
    requires RowIdsDistinct(rows)
    ensures RowIdsDistinct(RowsOfType(rows, t))
  {
    if rows != [] {
      var rest := rows[1..];
      assert RowIdsDistinct(rest) by {
        forall i, j | 0 <= i < j < |rest| ensures rest[i].account.id != rest[j].account.id {
          assert rest[i] == rows[i + 1] && rest[j] == rows[j + 1];
        }
      }
      RowsOfTypeDistinct(rest, t);
      if rows[0].account.kind == t {
        var picked := RowsOfType(rest, t);
        var r := [rows[0]] + picked;
        forall i, j | 0 <= i < j < |r| ensures r[i].account.id != r[j].account.id {
          assert r[j] == picked[j - 1] && picked[j - 1] in picked;
          if i == 0 {
            var k :| 0 <= k < |rest| && rest[k] == r[j];
            assert rows[k + 1] == r[j];
          } else {
            assert r[i] == picked[i - 1];
          }
        }
      }
    }
  }

  /** `whereIn('type', ...)` keeps the ids distinct. */
  lemma {:induction false} AccountsOfTypesDistinct(accts: seq<Account>, T: set<AccountType>)
    requires DistinctIds(accts)
    ensures DistinctIds(AccountsOfTypes(accts, T))
  {
    if accts != [] {
      var rest := accts[1..];
      DistinctIdsTail(accts);
      AccountsOfTypesDistinct(rest, T);
      IdsOfCons(accts);
      if accts[0].kind in T {
        var kept := AccountsOfTypes(rest, T);
        var r := [accts[0]] + kept;
        forall i, j | 0 <= i < j < |r| ensures r[i].id != r[j].id {
          assert r[j] == kept[j - 1] && kept[j - 1] in kept;
          if i == 0 {
            assert r[j].id in IdsOf(rest);
          } else {
            assert r[i] == kept[i - 1];
          }
        }
      }
    }
  }

  lemma {:induction false} RowsOfTypeAll(rows: seq<AccountTotal>, t: AccountType)
    requires forall x :: x in rows ==> x.account.kind == t
    ensures RowsOfType(rows, t) == rows
  {
    if rows != [] {
      assert rows[0] in rows;
      assert forall x :: x in rows[1..] ==> x in rows;
      RowsOfTypeAll(rows[1..], t);
      assert rows == [rows[0]] + rows[1..];
    }
  }

  /** The postings to accounts of one type: the join with
      `accounts.type = t`. */
  function KindPostings(accts: seq<Account>, ps: seq<Posting>, t: AccountType): seq<Posting> {
    AccountPostings(ps, IdsOf(AccountsOfTypes(accts, {t})))
  }

  /** The rows of one type that the grouped query over some types yields
      net to debit − credit over every posting to an account of that
      type. */
  lemma RowsOfTypeNet(accts: seq<Account>, ps: seq<Posting>, T: set<AccountType>, t: AccountType)
    requires DistinctIds(accts) && t in T
    ensures NetSum(RowsOfType(GroupByAccount(AccountsOfTypes(accts, T), ps), t))
            == Debits(KindPostings(accts, ps, t)) - Credits(KindPostings(accts, ps, t))
  {
    var own := AccountsOfTypes(accts, {t});
    GroupOfTypes(accts, ps, T, t);
    GroupOfTypes(accts, ps, {t}, t);
    RowsOfTypeAll(GroupByAccount(own, ps), t);
    AccountsOfTypesDistinct(accts, {t});
    GroupTotals(own, ps);
    NetSumIsDifference(GroupByAccount(own, ps));
  }

  // ---------------------------------------------------------------------
  // The stored ledger

  /** Every line points at an existing entry and an existing account and
      carries non-negative amounts. */
  predicate LinesWellFormed(ls: seq<JournalLine>, entryCount: nat, accountCount: nat) {
    forall i :: 0 <= i < |ls| ==>
      && 1 <= ls[i].entryId <= entryCount
      && 1 <= ls[i].post.accountId <= accountCount
      && ls[i].post.debit >= 0 && ls[i].post.credit >= 0
  }

  /** The double-entry invariant: every stored entry balances. */
  predicate AllEntriesBalanced(entryCount: nat, ls: seq<JournalLine>) {
    forall k :: 1 <= k <= entryCount ==> Balanced(Postings(ls, k))
  }

  predicate AccountIdsArePositions(accts: seq<Account>) {
    forall i :: 0 <= i < |accts| ==> accts[i].id == i + 1
  }

  /** The `unique:accounts,code` rule looks at the whole table, so codes
      are unique across companies, not per company. */
  predicate AccountCodesUnique(accts: seq<Account>) {
    forall i, j :: 0 <= i < j < |accts| ==> accts[i].code != accts[j].code
  }

  predicate InvoicesWellFormed(invs: seq<Invoice>) {
    forall i :: 0 <= i < |invs| ==> invs[i].id == i + 1 && invs[i].total >= 0
  }

  predicate PaymentsWellFormed(pays: seq<Payment>) {
    forall i :: 0 <= i < |pays| ==> pays[i].id == i + 1 && pays[i].amount >= 0
  }

  function InvoiceOf(s: Option<SourceRef>): nat {
    if s.Some? && s.value.InvoiceSource? then s.value.invoiceId else 0
  }

  /** An entry derived from an invoice names an existing invoice and is
      filed under that invoice's company. */
  predicate InvoiceSourcesValid(es: seq<JournalEntry>, invs: seq<Invoice>) {
    forall i :: 0 <= i < |es| && InvoiceOf(es[i].source) != 0 ==>
      InvoiceOf(es[i].source) <= |invs| && es[i].companyId == invs[InvoiceOf(es[i].source) - 1].companyId
  }

  /** At most one entry per invoice: the idempotence the invoice observer's
      duplicate check aims at. */
  predicate InvoicePostedAtMostOnce(es: seq<JournalEntry>) {
    forall i, j :: 0 <= i < j < |es| && InvoiceOf(es[i].source) != 0 ==> InvoiceOf(es[j].source) != InvoiceOf(es[i].source)
  }

  /** An entry without an invoice source keeps both source invariants. */
  lemma AppendUnsourcedEntry(es: seq<JournalEntry>, invs: seq<Invoice>, e: JournalEntry)
    requires InvoiceSourcesValid(es, invs) && InvoicePostedAtMostOnce(es)
    requires InvoiceOf(e.source) == 0
    ensures InvoiceSourcesValid(es + [e], invs) && InvoicePostedAtMostOnce(es + [e])
  {
    var es2 := es + [e];
    assert forall i :: 0 <= i < |es| ==> es2[i] == es[i];
  }

  /** The invariants of the accounting tables; the double-entry one is
      `AllEntriesBalanced`. */
  predicate LedgerValid(accounts: seq<Account>, invoices: seq<Invoice>, payments: seq<Payment>,
                        entries: seq<JournalEntry>, lines: seq<JournalLine>) {
    && AccountIdsArePositions(accounts)
    && AccountCodesUnique(accounts)
    && InvoicesWellFormed(invoices)
    && PaymentsWellFormed(payments)
    && LinesWellFormed(lines, |entries|, |accounts|)
    && AllEntriesBalanced(|entries|, lines)
    && InvoiceSourcesValid(entries, invoices)
    && InvoicePostedAtMostOnce(entries)
  }

  /** The accounting tables of the database. */
  class LedgerDb {
    var accounts: seq<Account>
    var entries: seq<JournalEntry>
    var lines: seq<JournalLine>
    var invoices: seq<Invoice>
    var payments: seq<Payment>

    ghost predicate Valid()
      reads this
    {
      LedgerValid(accounts, invoices, payments, entries, lines)
    }

    /** The inserts of an observer's transaction: the entry, then its two
        lines, each carrying the new entry's id. */
    method InsertTwoLineEntry(e: JournalEntry, company: Option<CompanyId>, ps: seq<Posting>)
      requires Valid()
      requires |ps| == 2 && PostingsWellFormed(ps, |accounts|) && Balanced(ps)
      requires InvoiceSourcesValid(entries + [e], invoices) && InvoicePostedAtMostOnce(entries + [e])
      modifies this
      ensures Valid()
      ensures accounts == old(accounts) && invoices == old(invoices) && payments == old(payments)
      ensures entries == old(entries) + [e]
      ensures lines == old(lines) + LineRows(|old(entries)| + 1, company, ps)
    {
      var n := |entries|;
      CommitEntryLines(lines, n, |accounts|, company, ps);
      ghost var l0 := lines;
      entries := entries + [e];
      lines := lines + [JournalLine(n + 1, company, ps[0])];
      lines := lines + [JournalLine(n + 1, company, ps[1])];
      assert LineRows(n + 1, company, ps) == [JournalLine(n + 1, company, ps[0]), JournalLine(n + 1, company, ps[1])];
      assert lines == l0 + LineRows(n + 1, company, ps);
    }

    /** Inserting an invoice row under the next id. */
    method InsertInvoice(inv: Invoice)
      requires Valid()
      requires inv.id == |invoices| + 1 && inv.total >= 0
      modifies this
      ensures Valid()
      ensures invoices == old(invoices) + [inv]
      ensures accounts == old(accounts) && payments == old(payments) && entries == old(entries) && lines == old(lines)
    {
      ghost var i0 := invoices;
      invoices := invoices + [inv];
      assert forall k :: 0 <= k < |i0| ==> invoices[k] == i0[k];
    }

    /** Updating the status column of one invoice row. */
    method SetInvoiceStatus(id: nat, status: InvoiceStatus)
      requires Valid()
      requires 1 <= id <= |invoices|
      modifies this
      ensures Valid()
      ensures invoices == old(invoices)[id - 1 := old(invoices)[id - 1].(status := status)]
      ensures accounts == old(accounts) && payments == old(payments) && entries == old(entries) && lines == old(lines)
    {
      ghost var i0 := invoices;
      invoices := invoices[id - 1 := invoices[id - 1].(status := status)];
      assert forall k :: 0 <= k < |i0| ==> invoices[k].companyId == i0[k].companyId && invoices[k].id == i0[k].id;
    }

    /** Inserting a payment row under the next id. */
    method InsertPayment(p: Payment)
      requires Valid()
      requires p.id == |payments| + 1 && p.amount >= 0
      modifies this
      ensures Valid()
      ensures payments == old(payments) + [p]
      ensures accounts == old(accounts) && invoices == old(invoices) && entries == old(entries) && lines == old(lines)
    {
      ghost var p0 := payments;
      payments := payments + [p];
      assert forall k :: 0 <= k < |p0| ==> payments[k] == p0[k];
    }

    function Snapshot(): Books
      reads this
    {
      Books(accounts, entries, lines)
    }

    constructor ()
      ensures Valid()
      ensures accounts == [] && entries == [] && lines == [] && invoices == [] && payments == []
    {
      accounts, entries, lines, invoices, payments := [], [], [], [], [];
    }
  }

  /** The two lines every automatic posting writes: `amount` debited to one
      account and credited to another. */
  function TransferPostings(debitAccount: nat, creditAccount: nat, amount: Cents): (ps: seq<Posting>)
    ensures |ps| == 2 && Balanced(ps) && Debits(ps) == amount
    ensures ps[0] == Posting(debitAccount, amount, 0) && ps[1] == Posting(creditAccount, 0, amount)
  {
    var ps := [Posting(debitAccount, amount, 0), Posting(creditAccount, 0, amount)];
    assert ps[1..][1..] == [];
    assert Debits(ps[1..]) == 0 && Credits(ps[1..]) == amount;
    ps
  }

  /** The stored lines of a new entry with id `k`. */
  function LineRows(k: nat, company: Option<CompanyId>, ps: seq<Posting>): (r: seq<JournalLine>)
    ensures |r| == |ps|
    ensures forall i :: 0 <= i < |ps| ==> r[i] == JournalLine(k, company, ps[i])
  {
    if ps == [] then [] else LineRows(k, company, ps[..|ps| - 1]) + [JournalLine(k, company, ps[|ps| - 1])]
  }

  lemma {:induction false} LineRowsPostings(k: nat, company: Option<CompanyId>, ps: seq<Posting>)
    ensures Postings(LineRows(k, company, ps), k) == ps
  {
    if ps != [] {
      var init := ps[..|ps| - 1];
      LineRowsPostings(k, company, init);
      EntryPostingsConcat(LineRows(k, company, init), [JournalLine(k, company, ps[|ps| - 1])], {k});
      assert ps == init + [ps[|ps| - 1]];
    }
  }

  /** Appending the lines of a brand-new entry `n + 1` leaves the lines of
      entries 1..n as they were and gives the new entry exactly `rows`. */
  lemma AppendEntryLines(ls: seq<JournalLine>, n: nat, accountCount: nat, rows: seq<JournalLine>)
    requires LinesWellFormed(ls, n, accountCount)
    requires forall i :: 0 <= i < |rows| ==> rows[i].entryId == n + 1
    ensures forall k :: 1 <= k <= n ==> Postings(ls + rows, k) == Postings(ls, k)
    ensures Postings(ls + rows, n + 1) == Postings(rows, n + 1)
  {
    forall k | 1 <= k <= n ensures Postings(ls + rows, k) == Postings(ls, k) {
      EntryPostingsConcat(ls, rows, {k});
      EntryPostingsNone(rows, {k});
    }
    EntryPostingsConcat(ls, rows, {n + 1});
    EntryPostingsNone(ls, {n + 1});
  }

  /** Committing a new entry whose lines balance keeps every entry balanced. */
  lemma AppendBalancedEntry(ls: seq<JournalLine>, n: nat, accountCount: nat, rows: seq<JournalLine>)
    requires LinesWellFormed(ls, n, accountCount)
    requires AllEntriesBalanced(n, ls)
    requires forall i :: 0 <= i < |rows| ==> rows[i].entryId == n + 1
    requires Balanced(Postings(rows, n + 1))
    ensures AllEntriesBalanced(n + 1, ls + rows)
  {
    AppendEntryLines(ls, n, accountCount, rows);
  }

  /** The request-side shape of a line the ledger can store. */
  predicate PostingsWellFormed(ps: seq<Posting>, accountCount: nat) {
    forall i :: 0 <= i < |ps| ==>
      1 <= ps[i].accountId <= accountCount && ps[i].debit >= 0 && ps[i].credit >= 0
  }

  /** Committing the lines of a new balanced entry n + 1 keeps the lines
      well formed and every entry balanced. */
  lemma CommitEntryLines(ls: seq<JournalLine>, n: nat, accountCount: nat, company: Option<CompanyId>, ps: seq<Posting>)
    requires LinesWellFormed(ls, n, accountCount)
    requires AllEntriesBalanced(n, ls)
    requires PostingsWellFormed(ps, accountCount)
    requires Balanced(ps)
    ensures LinesWellFormed(ls + LineRows(n + 1, company, ps), n + 1, accountCount)
    ensures AllEntriesBalanced(n + 1, ls + LineRows(n + 1, company, ps))
  {
    var rows := LineRows(n + 1, company, ps);
    LineRowsPostings(n + 1, company, ps);
    AppendBalancedEntry(ls, n, accountCount, rows);
  }

  /** Committing a balanced entry that claims no invoice keeps every
      invariant of the tables. */
  lemma CommitUnsourcedEntry(accounts: seq<Account>, invoices: seq<Invoice>, payments: seq<Payment>,
                             entries: seq<JournalEntry>, lines: seq<JournalLine>,
                             e: JournalEntry, company: Option<CompanyId>, ps: seq<Posting>)
    requires LedgerValid(accounts, invoices, payments, entries, lines)
    requires InvoiceOf(e.source) == 0
    requires PostingsWellFormed(ps, |accounts|) && Balanced(ps)
    ensures LedgerValid(accounts, invoices, payments, entries + [e], lines + LineRows(|entries| + 1, company, ps))
  {
    CommitEntryLines(lines, |entries|, |accounts|, company, ps);
    AppendUnsourcedEntry(entries, invoices, e);
  }

  /** Reading back the lines of a brand-new entry gives its postings. */
  lemma NewEntryPostings(ls: seq<JournalLine>, n: nat, accountCount: nat, company: Option<CompanyId>, ps: seq<Posting>)
    requires LinesWellFormed(ls, n, accountCount)
    ensures Postings(ls + LineRows(n + 1, company, ps), n + 1) == ps
  {
    AppendEntryLines(ls, n, accountCount, LineRows(n + 1, company, ps));
    LineRowsPostings(n + 1, company, ps);
  }
}
