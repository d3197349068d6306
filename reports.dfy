/** The reading endpoints of AccountingApiController: an account's ledger,
    one invoice with what was paid on it, one journal entry with its
    balance check, the income statement and the balance sheet. */
module Reports {
  import opened Common
  import opened Tenancy
  import opened Ledger
  import opened AccountingApi
  import InvoiceObserver

  predicate InWindow(d: Date, start: Option<Date>, end: Option<Date>) {
    (start.Some? ==> d >= start.value) && (end.Some? ==> d <= end.value)
  }

  // ---------------------------------------------------------------------
  // Account ledger

  datatype LedgerRow = LedgerRow(line: JournalLine, date: Date, entryDescription: string, reference: Option<string>)

  datatype LedgerTotals = LedgerTotals(debit: Cents, credit: Cents, balance: Cents)

  datatype AccountLedgerView = AccountLedgerView(account: Account, ledger: seq<LedgerRow>, totals: LedgerTotals)

  /** A scoped `Account::findOrFail`. */
  function FindAccount(accounts: seq<Account>, auth: Auth, id: nat): (r: Option<Account>)
    ensures r.Some? ==> r.value in accounts && InScope(auth, r.value.companyId)
  {
    if 1 <= id <= |accounts| && InScope(auth, accounts[id - 1].companyId) then Some(accounts[id - 1]) else None
  }

  /** A line the ledger query returns: it is on the account, its entry
      exists (inner join), its entry date is inside the inclusive window,
      and the line itself is in the caller's scope. */
  predicate LedgerLineSelected(b: Books, auth: Auth, accountId: nat, start: Option<Date>, end: Option<Date>, l: JournalLine) {
    && l.post.accountId == accountId
    && 1 <= l.entryId <= |b.entries|
    && InWindow(b.entries[l.entryId - 1].date, start, end)
    && InScope(auth, l.companyId)
  }

  /** The joined row: the line with its entry's date, description and
      reference. */
  function RowOf(b: Books, l: JournalLine): LedgerRow
    requires 1 <= l.entryId <= |b.entries|
  {
    var e := b.entries[l.entryId - 1];
    LedgerRow(l, e.date, e.description, e.reference)
  }

  function JoinedFrom(b: Books, auth: Auth, accountId: nat, start: Option<Date>, end: Option<Date>, ls: seq<JournalLine>): (r: seq<LedgerRow>)
    ensures forall row :: row in r ==>
              row.line in ls && LedgerLineSelected(b, auth, accountId, start, end, row.line) && row == RowOf(b, row.line)
    ensures forall l :: l in ls && LedgerLineSelected(b, auth, accountId, start, end, l) ==> RowOf(b, l) in r
  {
    if ls == [] then []
    else
      var rest := JoinedFrom(b, auth, accountId, start, end, ls[1..]);
      assert forall l :: l in ls ==> l == ls[0] || l in ls[1..];
      if LedgerLineSelected(b, auth, accountId, start, end, ls[0]) then [RowOf(b, ls[0])] + rest else rest
  }

  function RowsDebit(rows: seq<LedgerRow>): int {
    if rows == [] then 0 else rows[0].line.post.debit + RowsDebit(rows[1..])
  }

  function RowsCredit(rows: seq<LedgerRow>): int {
    if rows == [] then 0 else rows[0].line.post.credit + RowsCredit(rows[1..])
  }

  predicate SortedByDate(rows: seq<LedgerRow>) {
    forall i, j :: 0 <= i < j < |rows| ==> rows[i].date <= rows[j].date
  }

  function InsertByDate(x: LedgerRow, rows: seq<LedgerRow>): (r: seq<LedgerRow>)
    requires SortedByDate(rows)
    ensures SortedByDate(r)
    ensures multiset(r) == multiset(rows) + multiset{x}
    ensures RowsDebit(r) == x.line.post.debit + RowsDebit(rows)
    ensures RowsCredit(r) == x.line.post.credit + RowsCredit(rows)
  {
    if rows == [] then [x]
    else if x.date <= rows[0].date then [x] + rows
    else
      var rest := InsertByDate(x, rows[1..]);
      assert rows == [rows[0]] + rows[1..];
      LaterRowsAfterHead(x, rows, rest);
      ConsSorted(rows[0], rest);
      assert ([rows[0]] + rest)[1..] == rest;
      [rows[0]] + rest
  }

  lemma LaterRowsAfterHead(x: LedgerRow, rows: seq<LedgerRow>, rest: seq<LedgerRow>)
    requires rows != [] && SortedByDate(rows) && rows[0].date < x.date
    requires multiset(rest) == multiset(rows[1..]) + multiset{x}
    ensures forall y :: y in rest ==> rows[0].date <= y.date
  {
    forall y | y in rest ensures rows[0].date <= y.date {
      assert y in multiset(rest);
      if y != x {
        assert y in multiset(rows[1..]);
        var k :| 0 <= k < |rows[1..]| && rows[1..][k] == y;
        assert rows[k + 1] == y;
      }
    }
  }

  lemma ConsSorted(h: LedgerRow, rest: seq<LedgerRow>)
    requires SortedByDate(rest)
    requires forall y :: y in rest ==> h.date <= y.date
    ensures SortedByDate([h] + rest)
  {
    var s := [h] + rest;
    forall i, j | 0 <= i < j < |s| ensures s[i].date <= s[j].date {
      assert s[j] == rest[j - 1];
      if i > 0 {
        assert s[i] == rest[i - 1];
      }
    }
  }

  /** `orderBy('journal_entries.date', 'asc')`.  Rows with equal dates come
      in any order in SQL; the model fixes one. */
  function SortByDate(rows: seq<LedgerRow>): (r: seq<LedgerRow>)
    ensures SortedByDate(r)
    ensures multiset(r) == multiset(rows)
    ensures RowsDebit(r) == RowsDebit(rows) && RowsCredit(r) == RowsCredit(rows)
  {
    if rows == [] then []
    else
      assert rows == [rows[0]] + rows[1..];
      InsertByDate(rows[0], SortByDate(rows[1..]))
  }

  /** `accountLedger` with the tenant filter applied to the line table. */
  function AccountLedger(b: Books, auth: Auth, accountId: nat, start: Option<Date>, end: Option<Date>): (r: Response<AccountLedgerView>)
    ensures FindAccount(b.accounts, auth, accountId).None? ==> r == Err(NotFound)
    ensures FindAccount(b.accounts, auth, accountId).Some? && !DateRangeValid(start, end) ==> r == Err(ValidationFailed)
    ensures r.Ok? ==>
              var selected := JoinedFrom(b, auth, accountId, start, end, b.lines);
              && r.value.account == FindAccount(b.accounts, auth, accountId).value
              && SortedByDate(r.value.ledger)
              && multiset(r.value.ledger) == multiset(selected)
              && r.value.totals.debit == RowsDebit(selected)
              && r.value.totals.credit == RowsCredit(selected)
              && r.value.totals.balance == r.value.totals.debit - r.value.totals.credit
  {
    var account := FindAccount(b.accounts, auth, accountId);
    if account.None? then Err(NotFound)
    else if !DateRangeValid(start, end) then Err(ValidationFailed)
    else
      var rows := SortByDate(JoinedFrom(b, auth, accountId, start, end, b.lines));
      Ok(AccountLedgerView(account.value, rows, LedgerTotals(RowsDebit(rows), RowsCredit(rows), RowsDebit(rows) - RowsCredit(rows))))
  }

  /** Every row of the ledger is a line of the account inside the window,
      and every such line is in the ledger, on the first and last day of
      the window too. */
  lemma LedgerRowsAreTheSelectedLines(b: Books, auth: Auth, accountId: nat, start: Option<Date>, end: Option<Date>)
    requires AccountLedger(b, auth, accountId, start, end).Ok?
    ensures var rows := AccountLedger(b, auth, accountId, start, end).value.ledger;
            && (forall row :: row in rows ==>
                  row.line in b.lines && row.line.post.accountId == accountId && InWindow(row.date, start, end))
            && (forall l :: l in b.lines && LedgerLineSelected(b, auth, accountId, start, end, l) ==> RowOf(b, l) in rows)
  {
    var selected := JoinedFrom(b, auth, accountId, start, end, b.lines);
    var rows := AccountLedger(b, auth, accountId, start, end).value.ledger;
    forall row | row in rows
      ensures row.line in b.lines && row.line.post.accountId == accountId && InWindow(row.date, start, end)
    {
      assert row in multiset(rows);
      assert row in selected;
    }
    forall l | l in b.lines && LedgerLineSelected(b, auth, accountId, start, end, l)
      ensures RowOf(b, l) in rows
    {
      assert RowOf(b, l) in multiset(selected);
    }
  }

  /** As written the tenant scope adds an unqualified `company_id` to a
      query that joins two tables holding that column, so the statement
      fails whenever someone is logged in. */
  function AccountLedgerAsWritten(b: Books, auth: Auth, accountId: nat, start: Option<Date>, end: Option<Date>): (r: Response<AccountLedgerView>)
    ensures r.Ok? ==> auth.None?
    ensures auth.None? || r != Err(QueryFailed) ==> r == AccountLedger(b, auth, accountId, start, end)
  {
    if FindAccount(b.accounts, auth, accountId).None? then Err(NotFound)
    else if !DateRangeValid(start, end) then Err(ValidationFailed)
    else if auth.Some? then Err(QueryFailed)
    else AccountLedger(b, auth, accountId, start, end)
  }

  lemma AsWrittenLedgerFailsForCallers(b: Books, auth: Auth, accountId: nat, start: Option<Date>, end: Option<Date>)
    requires auth.Some?
    requires FindAccount(b.accounts, auth, accountId).Some? && DateRangeValid(start, end)
    ensures AccountLedgerAsWritten(b, auth, accountId, start, end) == Err(QueryFailed)
    ensures StatusCode(AccountLedgerAsWritten(b, auth, accountId, start, end).error) == 500
    ensures AccountLedger(b, auth, accountId, start, end).Ok?
  {
  }

  // ---------------------------------------------------------------------
  // One invoice

  datatype InvoiceView = InvoiceView(invoice: Invoice, hasJournalEntry: bool, totalPaid: Cents, remainingBalance: Cents)

  /** The invoice's `payments` relation, read through the tenant scope. */
  function InvoicePayments(pays: seq<Payment>, auth: Auth, id: nat): seq<Payment> {
    if pays == [] then []
    else if pays[0].invoiceId == Some(id) && InScope(auth, pays[0].companyId) then [pays[0]] + InvoicePayments(pays[1..], auth, id)
    else InvoicePayments(pays[1..], auth, id)
  }

  /** The relation holds exactly the payments of the invoice that the
      caller's tenant scope lets through. */
  lemma {:induction false} InvoicePaymentsMembers(pays: seq<Payment>, auth: Auth, id: nat)
    ensures forall p :: p in InvoicePayments(pays, auth, id) <==> p in pays && p.invoiceId == Some(id) && InScope(auth, p.companyId)
  {
    if pays != [] {
      InvoicePaymentsMembers(pays[1..], auth, id);
      assert forall p :: p in pays <==> p == pays[0] || p in pays[1..];
    }
  }

  function PaidTotal(pays: seq<Payment>): int {
    if pays == [] then 0 else pays[0].amount + PaidTotal(pays[1..])
  }

  lemma {:induction false} PaidTotalAppend(a: seq<Payment>, b: seq<Payment>)
    ensures PaidTotal(a + b) == PaidTotal(a) + PaidTotal(b)
  {
    if a == [] {
      assert a + b == b;
    } else {
      PaidTotalAppend(a[1..], b);
      assert (a + b)[1..] == a[1..] + b;
    }
  }

  lemma {:induction false} InvoicePaymentsAppend(pays: seq<Payment>, p: Payment, auth: Auth, id: nat)
    ensures InvoicePayments(pays + [p], auth, id) ==
            InvoicePayments(pays, auth, id) + (if p.invoiceId == Some(id) && InScope(auth, p.companyId) then [p] else [])
  {
    if pays == [] {
      assert [p][1..] == [];
    } else {
      var q := pays[0];
      var head := if q.invoiceId == Some(id) && InScope(auth, q.companyId) then [q] else [];
      assert (pays + [p])[0] == q;
      assert (pays + [p])[1..] == pays[1..] + [p];
      assert InvoicePayments(pays + [p], auth, id) == head + InvoicePayments(pays[1..] + [p], auth, id);
      assert InvoicePayments(pays, auth, id) == head + InvoicePayments(pays[1..], auth, id);
      InvoicePaymentsAppend(pays[1..], p, auth, id);
    }
  }

  /** `showInvoice`: the invoice, whether an entry was posted for it, what
      was paid and what remains. */
  function ShowInvoice(invs: seq<Invoice>, es: seq<JournalEntry>, pays: seq<Payment>, auth: Auth, id: nat): (r: Response<InvoiceView>)
    ensures FindInvoice(invs, auth, id).None? <==> r == Err(NotFound)
    ensures r.Ok? ==>
              && r.value.invoice == FindInvoice(invs, auth, id).value
              && r.value.hasJournalEntry == InvoiceObserver.HasInvoiceEntry(es, auth, id)
              && r.value.totalPaid == PaidTotal(InvoicePayments(pays, auth, id))
              && r.value.remainingBalance == r.value.invoice.total - r.value.totalPaid
  {
    var found := FindInvoice(invs, auth, id);
    if found.None? then Err(NotFound)
    else
      var paid := PaidTotal(InvoicePayments(pays, auth, id));
      Ok(InvoiceView(found.value, InvoiceObserver.HasInvoiceEntry(es, auth, id), paid, found.value.total - paid))
  }

  /** Recording a visible payment on the invoice lowers its remaining
      balance by exactly the payment amount; any other payment leaves it. */
  lemma PaymentLowersRemaining(invs: seq<Invoice>, es: seq<JournalEntry>, pays: seq<Payment>, auth: Auth, id: nat, p: Payment)
    requires ShowInvoice(invs, es, pays, auth, id).Ok?
    ensures var before := ShowInvoice(invs, es, pays, auth, id).value;
            var after := ShowInvoice(invs, es, pays + [p], auth, id).value;
            after.remainingBalance ==
              before.remainingBalance - (if p.invoiceId == Some(id) && InScope(auth, p.companyId) then p.amount else 0)
  {
    InvoicePaymentsAppend(pays, p, auth, id);
    var extra := if p.invoiceId == Some(id) && InScope(auth, p.companyId) then [p] else [];
    PaidTotalAppend(InvoicePayments(pays, auth, id), extra);
    assert PaidTotal([p]) == p.amount by {
      assert [p][1..] == [];
    }
  }

  /** As written the invoice model defines neither a `journalEntry` nor a
      `payments` relation, so eager-loading them throws (500) for every
      invoice the caller can see. */
  function ShowInvoiceAsWritten(invs: seq<Invoice>, es: seq<JournalEntry>, pays: seq<Payment>, auth: Auth, id: nat): (r: Response<InvoiceView>)
    ensures r.Err?
    ensures r == Err(NotFound) <==> ShowInvoice(invs, es, pays, auth, id) == Err(NotFound)
  {
    if FindInvoice(invs, auth, id).None? then Err(NotFound) else Err(QueryFailed)
  }

  lemma AsWrittenShowInvoiceFails(invs: seq<Invoice>, es: seq<JournalEntry>, pays: seq<Payment>, auth: Auth, id: nat)
    requires FindInvoice(invs, auth, id).Some?
    ensures ShowInvoiceAsWritten(invs, es, pays, auth, id) == Err(QueryFailed)
    ensures ShowInvoice(invs, es, pays, auth, id).Ok?
  {
  }

  // ---------------------------------------------------------------------
  // One journal entry

  datatype EntryCheck = EntryCheck(totalDebits: Cents, totalCredits: Cents, isBalanced: bool, difference: Cents)

  datatype EntryView = EntryView(entry: JournalEntry, lines: seq<Posting>, validation: EntryCheck)

  /** The lines of the tenant model a caller reads. */
  function VisibleLines(ls: seq<JournalLine>, auth: Auth): (r: seq<JournalLine>)
    ensures forall l :: l in r <==> l in ls && InScope(auth, l.companyId)
  {
    if ls == [] then []
    else if InScope(auth, ls[0].companyId) then [ls[0]] + VisibleLines(ls[1..], auth)
    else VisibleLines(ls[1..], auth)
  }

  /** `showJournalEntry`, with the entry's totals as the sums over its
      visible lines. */
  function ShowJournalEntry(b: Books, auth: Auth, id: nat): (r: Response<EntryView>)
    ensures (1 <= id <= |b.entries| && InScope(auth, b.entries[id - 1].companyId)) <==> r.Ok?
    ensures r.Ok? ==>
              var ps := Postings(VisibleLines(b.lines, auth), id);
              && r.value.entry == b.entries[id - 1]
              && r.value.lines == ps
              && r.value.validation.totalDebits == Debits(ps)
              && r.value.validation.totalCredits == Credits(ps)
              && (r.value.validation.isBalanced <==> Balanced(ps))
              && r.value.validation.difference == Debits(ps) - Credits(ps)
  {
    if 1 <= id <= |b.entries| && InScope(auth, b.entries[id - 1].companyId) then
      var ps := Postings(VisibleLines(b.lines, auth), id);
      Ok(EntryView(b.entries[id - 1], ps, EntryCheck(Debits(ps), Credits(ps), Debits(ps) == Credits(ps), Debits(ps) - Credits(ps))))
    else Err(NotFound)
  }

  lemma {:induction false} VisibleLinesKeepEntry(ls: seq<JournalLine>, auth: Auth, id: nat)
    requires forall i :: 0 <= i < |ls| && ls[i].entryId == id ==> InScope(auth, ls[i].companyId)
    ensures Postings(VisibleLines(ls, auth), id) == Postings(ls, id)
  {
    if ls != [] {
      VisibleLinesKeepEntry(ls[1..], auth, id);
    }
  }

  /** In a ledger where every entry balances, an entry whose lines the
      caller all sees is reported balanced with difference 0. */
  lemma ShownEntryIsBalanced(b: Books, auth: Auth, id: nat)
    requires AllEntriesBalanced(|b.entries|, b.lines)
    requires ShowJournalEntry(b, auth, id).Ok?
    requires forall i :: 0 <= i < |b.lines| && b.lines[i].entryId == id ==> InScope(auth, b.lines[i].companyId)
    ensures ShowJournalEntry(b, auth, id).value.validation.isBalanced
    ensures ShowJournalEntry(b, auth, id).value.validation.difference == 0
  {
    VisibleLinesKeepEntry(b.lines, auth, id);
  }

  // ---------------------------------------------------------------------
  // Income statement and balance sheet

  datatype StatementLine = StatementLine(accountId: nat, code: string, name: string, amount: Cents)

  /** The report line of a grouped row: debit − credit for debit-normal
      accounts (assets, expenses), its negation for the others. */
  function StatementLines(rows: seq<AccountTotal>, creditNormal: bool): (r: seq<StatementLine>)
    ensures |r| == |rows|
    ensures forall i :: 0 <= i < |rows| ==>
              && r[i].accountId == rows[i].account.id
              && r[i].amount == (if creditNormal then rows[i].credit - rows[i].debit else rows[i].debit - rows[i].credit)
  {
    if rows == [] then []
    else
      var x := rows[0];
      var amount := if creditNormal then x.credit - x.debit else x.debit - x.credit;
      [StatementLine(x.account.id, x.account.code, x.account.name, amount)] + StatementLines(rows[1..], creditNormal)
  }

  function LinesTotal(ls: seq<StatementLine>): int {
    if ls == [] then 0 else ls[0].amount + LinesTotal(ls[1..])
  }

  lemma {:induction false} StatementTotal(rows: seq<AccountTotal>, creditNormal: bool)
    ensures LinesTotal(StatementLines(rows, creditNormal)) == if creditNormal then -NetSum(rows) else NetSum(rows)
  {
    if rows != [] {
      StatementTotal(rows[1..], creditNormal);
    }
  }

  datatype IncomeReport = IncomeReport(
    revenue: seq<StatementLine>,
    expenses: seq<StatementLine>,
    totalRevenue: Cents,
    totalExpenses: Cents,
    netIncome: Cents,
    start: Option<Date>,
    end: Option<Date>)

  /** A report amount: credit − debit on credit-normal accounts, debit −
      credit on the others. */
  function SignedNet(ps: seq<Posting>, creditNormal: bool): int {
    if creditNormal then Credits(ps) - Debits(ps) else Debits(ps) - Credits(ps)
  }

  /** The report amount of one account. */
  function Signed(ps: seq<Posting>, id: nat, creditNormal: bool): int {
    SignedNet(ForAccount(ps, id), creditNormal)
  }

  /** Each line is an account of the given type carrying its signed sum. */
  predicate LinesOfKind(ls: seq<StatementLine>, accts: seq<Account>, ps: seq<Posting>, kind: AccountType, creditNormal: bool) {
    forall i :: 0 <= i < |ls| ==>
      exists a :: a in accts && a.kind == kind && a.id == ls[i].accountId && ls[i].amount == Signed(ps, a.id, creditNormal)
  }

  /** Every account of the type with a posting has a line. */
  predicate LinesCover(ls: seq<StatementLine>, accts: seq<Account>, ps: seq<Posting>, kind: AccountType) {
    forall a :: a in accts && a.kind == kind && ForAccount(ps, a.id) != [] ==>
      exists i :: 0 <= i < |ls| && ls[i].accountId == a.id
  }

  /** A report section for one account type:
      - every line is an account of that type carrying its signed sum;
      - every account of that type with a posting in the window has a line;
      - account ids being distinct, as primary keys are, no account has two
        lines, and the lines add up to the signed net of all the window's
        postings to accounts of that type. */
  predicate KindSection(ls: seq<StatementLine>, accts: seq<Account>, ps: seq<Posting>, kind: AccountType, creditNormal: bool) {
    && LinesOfKind(ls, accts, ps, kind, creditNormal)
    && LinesCover(ls, accts, ps, kind)
    && (DistinctIds(accts) ==>
          && (forall i, j :: 0 <= i < j < |ls| ==> ls[i].accountId != ls[j].accountId)
          && LinesTotal(ls) == SignedNet(KindPostings(accts, ps, kind), creditNormal))
  }

  lemma LinesFromRows(rows: seq<AccountTotal>, accts: seq<Account>, ps: seq<Posting>, kind: AccountType, creditNormal: bool)
    requires forall x :: x in rows ==>
               && x.account in accts && x.account.kind == kind
               && x.debit == Debits(ForAccount(ps, x.account.id))
               && x.credit == Credits(ForAccount(ps, x.account.id))
    ensures LinesOfKind(StatementLines(rows, creditNormal), accts, ps, kind, creditNormal)
  {
    var ls := StatementLines(rows, creditNormal);
    forall i | 0 <= i < |ls|
      ensures exists a :: a in accts && a.kind == kind && a.id == ls[i].accountId && ls[i].amount == Signed(ps, a.id, creditNormal)
    {
      assert rows[i] in rows;
      var a := rows[i].account;
      assert ls[i].amount == Signed(ps, a.id, creditNormal);
    }
  }

  /** The section of one type picked from the grouped query over a set of
      types that includes it. */
  lemma KindLines(accts: seq<Account>, T: set<AccountType>, ps: seq<Posting>, kind: AccountType, creditNormal: bool)
    requires kind in T
    ensures KindSection(StatementLines(RowsOfType(GroupByAccount(AccountsOfTypes(accts, T), ps), kind), creditNormal),
                        accts, ps, kind, creditNormal)
  {
    var grouped := GroupByAccount(AccountsOfTypes(accts, T), ps);
    var rows := RowsOfType(grouped, kind);
    var ls := StatementLines(rows, creditNormal);
    forall x | x in rows
      ensures x.account in accts && x.account.kind == kind
      ensures x.debit == Debits(ForAccount(ps, x.account.id)) && x.credit == Credits(ForAccount(ps, x.account.id))
    {
      assert x in grouped;
      assert x.account in AccountsOfTypes(accts, T);
    }
    LinesFromRows(rows, accts, ps, kind, creditNormal);
    KindLinesComplete(accts, T, ps, kind, creditNormal);
    if DistinctIds(accts) {
      AccountsOfTypesDistinct(accts, T);
      GroupRowsDistinct(AccountsOfTypes(accts, T), ps);
      RowsOfTypeDistinct(grouped, kind);
      StatementTotal(rows, creditNormal);
      RowsOfTypeNet(accts, ps, T, kind);
    }
  }

  lemma KindLinesComplete(accts: seq<Account>, T: set<AccountType>, ps: seq<Posting>, kind: AccountType, creditNormal: bool)
    requires kind in T
    ensures LinesCover(StatementLines(RowsOfType(GroupByAccount(AccountsOfTypes(accts, T), ps), kind), creditNormal), accts, ps, kind)
  {
    forall a | a in accts && a.kind == kind && ForAccount(ps, a.id) != [] {
      KindLineFor(accts, T, ps, kind, creditNormal, a);
    }
  }

  lemma KindLineFor(accts: seq<Account>, T: set<AccountType>, ps: seq<Posting>, kind: AccountType, creditNormal: bool, a: Account)
    requires kind in T
    requires a in accts && a.kind == kind && ForAccount(ps, a.id) != []
    ensures var ls := StatementLines(RowsOfType(GroupByAccount(AccountsOfTypes(accts, T), ps), kind), creditNormal);
            exists i :: 0 <= i < |ls| && ls[i].accountId == a.id
  {
    var x := GroupedRow(AccountsOfTypes(accts, T), ps, a);
    assert x in RowsOfType(GroupByAccount(AccountsOfTypes(accts, T), ps), kind);
    LineOfRow(RowsOfType(GroupByAccount(AccountsOfTypes(accts, T), ps), kind), creditNormal, x);
  }

  lemma GroupedRow(accts: seq<Account>, ps: seq<Posting>, a: Account) returns (x: AccountTotal)
    requires a in accts && ForAccount(ps, a.id) != []
    ensures x in GroupByAccount(accts, ps) && x.account == a
  {
    var rows := GroupByAccount(accts, ps);
    assert a in accts && ForAccount(ps, a.id) != [];
    x :| x in rows && x.account == a;
  }

  lemma LineOfRow(rows: seq<AccountTotal>, creditNormal: bool, x: AccountTotal)
    requires x in rows
    ensures exists i :: 0 <= i < |StatementLines(rows, creditNormal)| && StatementLines(rows, creditNormal)[i].accountId == x.account.id
  {
    var i :| 0 <= i < |rows| && rows[i] == x;
    assert StatementLines(rows, creditNormal)[i].accountId == x.account.id;
  }

  function IncomeReportOf(b: Books, company: Option<CompanyId>, start: Option<Date>, end: Option<Date>): (r: IncomeReport)
    ensures KindSection(r.revenue, b.accounts, PeriodPostings(b, company, start, end), Revenue, true)
    ensures KindSection(r.expenses, b.accounts, PeriodPostings(b, company, start, end), Expense, false)
    ensures r.totalRevenue == LinesTotal(r.revenue)
    ensures r.totalExpenses == LinesTotal(r.expenses)
    ensures r.netIncome == r.totalRevenue - r.totalExpenses
    ensures r.start == start && r.end == end
  {
    var ps := PeriodPostings(b, company, start, end);
    var rows := GroupByAccount(AccountsOfTypes(b.accounts, {Revenue, Expense}), ps);
    var revenue := StatementLines(RowsOfType(rows, Revenue), true);
    var expenses := StatementLines(RowsOfType(rows, Expense), false);
    KindLines(b.accounts, {Revenue, Expense}, ps, Revenue, true);
    KindLines(b.accounts, {Revenue, Expense}, ps, Expense, false);
    IncomeReport(revenue, expenses, LinesTotal(revenue), LinesTotal(expenses), LinesTotal(revenue) - LinesTotal(expenses), start, end)
  }

  /** `incomeStatement` for the logged-in caller's company. */
  function IncomeStatement(b: Books, caller: Caller, start: Option<Date>, end: Option<Date>): (r: Response<IncomeReport>)
    ensures r.Ok? <==> DateRangeValid(start, end)
    ensures r.Ok? ==> r.value == IncomeReportOf(b, caller.companyId, start, end)
  {
    if DateRangeValid(start, end) then Ok(IncomeReportOf(b, caller.companyId, start, end)) else Err(ValidationFailed)
  }

  datatype BalanceSheetReport = BalanceSheetReport(
    assets: seq<StatementLine>,
    liabilities: seq<StatementLine>,
    equity: seq<StatementLine>,
    totalAssets: Cents,
    totalLiabilities: Cents,
    totalEquity: Cents,
    liabilitiesPlusEquity: Cents,
    isBalanced: bool,
    asOfDate: Date)

  /** `balanceSheet`: every entry up to and including the as-of date (today
      when none is given), asset balances debit − credit, liability and
      equity balances credit − debit. */
  function BalanceSheet(b: Books, caller: Caller, asOf: Option<Date>, today: Date): (r: BalanceSheetReport)
    ensures r.asOfDate == asOf.GetOr(today)
    ensures var ps := PeriodPostings(b, caller.companyId, None, Some(asOf.GetOr(today)));
            && KindSection(r.assets, b.accounts, ps, Asset, false)
            && KindSection(r.liabilities, b.accounts, ps, Liability, true)
            && KindSection(r.equity, b.accounts, ps, Equity, true)
    ensures r.totalAssets == LinesTotal(r.assets)
    ensures r.totalLiabilities == LinesTotal(r.liabilities) && r.totalEquity == LinesTotal(r.equity)
    ensures r.liabilitiesPlusEquity == r.totalLiabilities + r.totalEquity
    ensures r.isBalanced <==> r.totalAssets == r.liabilitiesPlusEquity
  {
    var d := asOf.GetOr(today);
    var ps := PeriodPostings(b, caller.companyId, None, Some(d));
    var rows := GroupByAccount(AccountsOfTypes(b.accounts, {Asset, Liability, Equity}), ps);
    KindLines(b.accounts, {Asset, Liability, Equity}, ps, Asset, false);
    KindLines(b.accounts, {Asset, Liability, Equity}, ps, Liability, true);
    KindLines(b.accounts, {Asset, Liability, Equity}, ps, Equity, true);
    var assets := StatementLines(RowsOfType(rows, Asset), false);
    var liabilities := StatementLines(RowsOfType(rows, Liability), true);
    var equity := StatementLines(RowsOfType(rows, Equity), true);
    var ta, tl, te := LinesTotal(assets), LinesTotal(liabilities), LinesTotal(equity);
    BalanceSheetReport(assets, liabilities, equity, ta, tl, te, tl + te, ta == tl + te, d)
  }

  /** Over a ledger whose entries all balance, assets minus liabilities and
      equity is exactly the net income up to the as-of date. */
  lemma BalanceSheetGapIsNetIncome(b: Books, caller: Caller, asOf: Option<Date>, today: Date)
    requires WellFormedBooks(b)
    requires AllEntriesBalanced(|b.entries|, b.lines)
    ensures var bs := BalanceSheet(b, caller, asOf, today);
            bs.totalAssets - bs.liabilitiesPlusEquity == IncomeReportOf(b, caller.companyId, None, Some(asOf.GetOr(today))).netIncome
  {
    var co, d := caller.companyId, asOf.GetOr(today);
    var ps := PeriodPostings(b, co, None, Some(d));
    var all := GroupByAccount(b.accounts, ps);
    PeriodPostingsHaveAccounts(b, co, None, Some(d));
    GroupTotals(b.accounts, ps);
    BalancedEntriesBalance(b.lines, SelectedEntries(b.entries, co, None, Some(d)));
    NetSumIsDifference(all);
    NetSumByType(all);
    var sheet, income := {Asset, Liability, Equity}, {Revenue, Expense};
    GroupOfTypes(b.accounts, ps, sheet, Asset);
    GroupOfTypes(b.accounts, ps, sheet, Liability);
    GroupOfTypes(b.accounts, ps, sheet, Equity);
    GroupOfTypes(b.accounts, ps, income, Revenue);
    GroupOfTypes(b.accounts, ps, income, Expense);
    StatementTotal(RowsOfType(all, Asset), false);
    StatementTotal(RowsOfType(all, Liability), true);
    StatementTotal(RowsOfType(all, Equity), true);
    StatementTotal(RowsOfType(all, Revenue), true);
    StatementTotal(RowsOfType(all, Expense), false);
  }

  /** Hence the balance sheet as written reports "balanced" exactly when
      the net income to date is zero. */
  lemma BalanceSheetBalancedIffNoEarnings(b: Books, caller: Caller, asOf: Option<Date>, today: Date)
    requires WellFormedBooks(b)
    requires AllEntriesBalanced(|b.entries|, b.lines)
    ensures BalanceSheet(b, caller, asOf, today).isBalanced <==>
            IncomeReportOf(b, caller.companyId, None, Some(asOf.GetOr(today))).netIncome == 0
  {
    var bs := BalanceSheet(b, caller, asOf, today);
    BalanceSheetGapIsNetIncome(b, caller, asOf, today);
    assert bs.isBalanced <==> bs.totalAssets - bs.liabilitiesPlusEquity == 0;
  }

  datatype ClosedBalanceSheet = ClosedBalanceSheet(sheet: BalanceSheetReport, currentEarnings: Cents, isBalanced: bool)

  /** The balance sheet with the earnings not yet closed into equity shown
      on the equity side. */
  function BalanceSheetWithEarnings(b: Books, caller: Caller, asOf: Option<Date>, today: Date): (r: ClosedBalanceSheet)
    ensures r.sheet == BalanceSheet(b, caller, asOf, today)
    ensures r.currentEarnings == IncomeReportOf(b, caller.companyId, None, Some(asOf.GetOr(today))).netIncome
    ensures r.isBalanced <==> r.sheet.totalAssets == r.sheet.liabilitiesPlusEquity + r.currentEarnings
  {
    var sheet := BalanceSheet(b, caller, asOf, today);
    var earnings := IncomeReportOf(b, caller.companyId, None, Some(asOf.GetOr(today))).netIncome;
    ClosedBalanceSheet(sheet, earnings, sheet.totalAssets == sheet.liabilitiesPlusEquity + earnings)
  }

  /** Assets = liabilities + equity + current earnings for every ledger
      whose entries balance. */
  lemma ClosedBalanceSheetBalances(b: Books, caller: Caller, asOf: Option<Date>, today: Date)
    requires WellFormedBooks(b)
    requires AllEntriesBalanced(|b.entries|, b.lines)
    ensures BalanceSheetWithEarnings(b, caller, asOf, today).isBalanced
  {
    BalanceSheetGapIsNetIncome(b, caller, asOf, today);
  }
}
