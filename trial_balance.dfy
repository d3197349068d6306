/** TrialBalanceService: the trial balance of one company over an optional
    date window, as a flat list of account rows or grouped by account type. */
module TrialBalance {
  import opened Common
  import opened Ledger

  datatype BalanceSide = DebitSide | CreditSide

  datatype TrialRow = TrialRow(account: Account, debit: Cents, credit: Cents, balance: Cents, balanceType: BalanceSide)

  datatype Period = Period(start: Option<Date>, end: Option<Date>)

  datatype Totals = Totals(debit: Cents, credit: Cents, difference: Cents, isBalanced: bool)

  datatype Report = Report(accounts: seq<TrialRow>, totals: Totals, period: Period)

  datatype TypeGroup = TypeGroup(kind: AccountType, accounts: seq<TrialRow>, totalDebit: Cents, totalCredit: Cents)

  datatype GroupedReport = GroupedReport(groups: seq<TypeGroup>, totals: Totals, period: Period)

  /** The per-row balance computed from a grouped-query row. */
  function ToRow(t: AccountTotal): TrialRow {
    var balance := t.debit - t.credit;
    TrialRow(t.account, t.debit, t.credit, balance, if balance >= 0 then DebitSide else CreditSide)
  }

  function ToRows(ts: seq<AccountTotal>): (rows: seq<TrialRow>)
    ensures |rows| == |ts|
    ensures forall i :: 0 <= i < |ts| ==> rows[i] == ToRow(ts[i])
  {
    if ts == [] then [] else [ToRow(ts[0])] + ToRows(ts[1..])
  }

  function RowDebits(rows: seq<TrialRow>): int {
    if rows == [] then 0 else rows[0].debit + RowDebits(rows[1..])
  }

  function RowCredits(rows: seq<TrialRow>): int {
    if rows == [] then 0 else rows[0].credit + RowCredits(rows[1..])
  }

  lemma {:induction false} ToRowsSums(ts: seq<AccountTotal>)
    ensures RowDebits(ToRows(ts)) == TotalDebits(ts)
    ensures RowCredits(ToRows(ts)) == TotalCredits(ts)
  {
    if ts != [] {
      ToRowsSums(ts[1..]);
      assert ToRows(ts)[1..] == ToRows(ts[1..]);
    }
  }

  function MakeTotals(debit: Cents, credit: Cents): Totals {
    Totals(debit, credit, debit - credit, debit == credit)
  }

  /** `generate`: one row per account with at least one line of an entry of
      the company inside the window, and the column totals. */
  function Generate(b: Books, company: CompanyId, start: Option<Date>, end: Option<Date>): (r: Report)
    ensures forall row :: row in r.accounts ==>
              && row.balance == row.debit - row.credit
              && (row.balanceType == DebitSide <==> row.balance >= 0)
    ensures r.totals.debit == RowDebits(r.accounts) && r.totals.credit == RowCredits(r.accounts)
    ensures r.totals.difference == r.totals.debit - r.totals.credit
    ensures r.totals.isBalanced <==> r.totals.debit == r.totals.credit
    ensures r.period == Period(start, end)
  {
    var rows := ToRows(GroupByAccount(b.accounts, PeriodPostings(b, Some(company), start, end)));
    Report(rows, MakeTotals(RowDebits(rows), RowCredits(rows)), Period(start, end))
  }

  /** Every row is an account of the chart whose debit and credit are the
      sums of its lines inside the window, and every account with such a
      line has a row. */
  lemma RowsAreAccountSums(b: Books, company: CompanyId, start: Option<Date>, end: Option<Date>)
    ensures var ps := PeriodPostings(b, Some(company), start, end);
            var r := Generate(b, company, start, end);
            && (forall row :: row in r.accounts ==>
                  && row.account in b.accounts
                  && row.debit == Debits(ForAccount(ps, row.account.id))
                  && row.credit == Credits(ForAccount(ps, row.account.id)))
            && (forall a :: a in b.accounts && ForAccount(ps, a.id) != [] ==>
                  exists row :: row in r.accounts && row.account == a)
  {
    var ps := PeriodPostings(b, Some(company), start, end);
    var ts := GroupByAccount(b.accounts, ps);
    var rows := ToRows(ts);
    forall row | row in rows
      ensures row.account in b.accounts
      ensures row.debit == Debits(ForAccount(ps, row.account.id))
      ensures row.credit == Credits(ForAccount(ps, row.account.id))
    {
      var i :| 0 <= i < |rows| && rows[i] == row;
      assert ts[i] in ts;
    }
    forall a | a in b.accounts && ForAccount(ps, a.id) != []
      ensures exists row :: row in rows && row.account == a
    {
      var t :| t in ts && t.account == a;
      var i :| 0 <= i < |ts| && ts[i] == t;
      assert rows[i] in rows;
    }
  }

  /** The report totals are the sums of the debit and credit of every line
      of an entry of the company inside the window. */
  lemma TotalsAreLineSums(b: Books, company: CompanyId, start: Option<Date>, end: Option<Date>)
    requires WellFormedBooks(b)
    ensures var ps := PeriodPostings(b, Some(company), start, end);
            var r := Generate(b, company, start, end);
            r.totals.debit == Debits(ps) && r.totals.credit == Credits(ps)
  {
    var ps := PeriodPostings(b, Some(company), start, end);
    var ts := GroupByAccount(b.accounts, ps);
    ToRowsSums(ts);
    GroupTotals(b.accounts, ps);
    PeriodPostingsHaveAccounts(b, Some(company), start, end);
  }

  /** When every entry balances, the trial balance of any company over any
      window balances. */
  lemma BalancedLedgerGivesBalancedReport(b: Books, company: CompanyId, start: Option<Date>, end: Option<Date>)
    requires WellFormedBooks(b)
    requires AllEntriesBalanced(|b.entries|, b.lines)
    ensures Generate(b, company, start, end).totals.isBalanced
    ensures Generate(b, company, start, end).totals.difference == 0
  {
    TotalsAreLineSums(b, company, start, end);
    var S := SelectedEntries(b.entries, Some(company), start, end);
    BalancedEntriesBalance(b.lines, S);
  }

  /** An entry outside the report (another company, or dated outside the
      window) changes nothing in it, whatever lines it has. */
  lemma OutsideEntryIsInvisible(b: Books, e: JournalEntry, rows: seq<JournalLine>, company: CompanyId, start: Option<Date>, end: Option<Date>)
    requires !EntryInPeriod(e, Some(company), start, end)
    requires forall i :: 0 <= i < |rows| ==> rows[i].entryId == |b.entries| + 1
    ensures Generate(Books(b.accounts, b.entries + [e], b.lines + rows), company, start, end) == Generate(b, company, start, end)
  {
    OutsideEntryAddsNoPostings(b, e, rows, Some(company), start, end);
  }

  lemma OutsideEntryAddsNoPostings(b: Books, e: JournalEntry, rows: seq<JournalLine>, company: Option<CompanyId>, start: Option<Date>, end: Option<Date>)
    requires !EntryInPeriod(e, company, start, end)
    requires forall i :: 0 <= i < |rows| ==> rows[i].entryId == |b.entries| + 1
    ensures PeriodPostings(Books(b.accounts, b.entries + [e], b.lines + rows), company, start, end) == PeriodPostings(b, company, start, end)
  {
    var S := SelectedEntries(b.entries, company, start, end);
    SameSelection(b.entries, e, company, start, end);
    EntryPostingsConcat(b.lines, rows, S);
    EntryPostingsNone(rows, S);
  }

  lemma SameSelection(es: seq<JournalEntry>, e: JournalEntry, company: Option<CompanyId>, start: Option<Date>, end: Option<Date>)
    requires !EntryInPeriod(e, company, start, end)
    ensures SelectedEntries(es + [e], company, start, end) == SelectedEntries(es, company, start, end)
  {
    var S := SelectedEntries(es, company, start, end);
    var S2 := SelectedEntries(es + [e], company, start, end);
    forall k | k in S2 ensures k in S {
      assert k <= |es|;
      assert (es + [e])[k - 1] == es[k - 1];
    }
    forall k | k in S ensures k in S2 {
      assert (es + [e])[k - 1] == es[k - 1];
    }
  }

  // ---------------------------------------------------------------------
  // Grouped by account type

  /** Rows whose account has a type in `T`, in order. */
  function OfKinds(rows: seq<TrialRow>, T: set<AccountType>): (r: seq<TrialRow>)
    ensures forall x :: x in r <==> x in rows && x.account.kind in T
  {
    if rows == [] then []
    else if rows[0].account.kind in T then [rows[0]] + OfKinds(rows[1..], T)
    else OfKinds(rows[1..], T)
  }

  function Without(ts: seq<AccountType>, t: AccountType): (r: seq<AccountType>)
    ensures forall x :: x in r <==> x in ts && x != t
    ensures Distinct(ts) ==> Distinct(r)
  {
    if ts == [] then []
    else if ts[0] == t then
      DistinctTail(ts);
      Without(ts[1..], t)
    else
      DistinctTail(ts);
      var rest := Without(ts[1..], t);
      DistinctCons(ts[0], rest);
      [ts[0]] + rest
  }

  predicate Distinct(ts: seq<AccountType>) {
    forall i, j :: 0 <= i < j < |ts| ==> ts[i] != ts[j]
  }

  lemma DistinctTail(ts: seq<AccountType>)
    requires ts != []
    ensures Distinct(ts) ==> Distinct(ts[1..]) && ts[0] !in ts[1..]
  {
    if Distinct(ts) {
      var rest := ts[1..];
      forall i, j | 0 <= i < j < |rest| ensures rest[i] != rest[j] {
        assert rest[i] == ts[i + 1] && rest[j] == ts[j + 1];
      }
      forall j | 0 <= j < |rest| ensures rest[j] != ts[0] {
        assert rest[j] == ts[j + 1];
      }
    }
  }

  lemma DistinctCons(x: AccountType, r: seq<AccountType>)
    ensures Distinct(r) && x !in r ==> Distinct([x] + r)
  {
    if Distinct(r) && x !in r {
      var s := [x] + r;
      forall i, j | 0 <= i < j < |s| ensures s[i] != s[j] {
        assert s[j] == r[j - 1];
        if i > 0 {
          assert s[i] == r[i - 1];
        }
      }
    }
  }

  /** The keys of `groupBy('type')`, in order of first appearance. */
  function FirstSeenTypes(rows: seq<TrialRow>): (ts: seq<AccountType>)
    ensures Distinct(ts)
    ensures forall t :: t in ts <==> exists r :: r in rows && r.account.kind == t
  {
    if rows == [] then []
    else
      var rest := FirstSeenTypes(rows[1..]);
      assert forall r :: r in rows ==> r == rows[0] || r in rows[1..];
      DistinctCons(rows[0].account.kind, Without(rest, rows[0].account.kind));
      [rows[0].account.kind] + Without(rest, rows[0].account.kind)
  }

  function MakeGroups(ts: seq<AccountType>, rows: seq<TrialRow>): (gs: seq<TypeGroup>)
    ensures |gs| == |ts|
    ensures forall i :: 0 <= i < |ts| ==> gs[i].kind == ts[i] && gs[i].accounts == OfKinds(rows, {ts[i]})
  {
    if ts == [] then []
    else
      var own := OfKinds(rows, {ts[0]});
      [TypeGroup(ts[0], own, RowDebits(own), RowCredits(own))] + MakeGroups(ts[1..], rows)
  }

  /** `generateByType`: the rows of `generate` bucketed by account type,
      each bucket with its own column sums, and the plain report's totals. */
  function GenerateByType(b: Books, company: CompanyId, start: Option<Date>, end: Option<Date>): (g: GroupedReport)
    ensures forall grp, row :: grp in g.groups && row in grp.accounts ==> row.account.kind == grp.kind
    ensures forall grp :: grp in g.groups ==>
              grp.totalDebit == RowDebits(grp.accounts) && grp.totalCredit == RowCredits(grp.accounts)
    ensures g.totals == Generate(b, company, start, end).totals
  {
    var plain := Generate(b, company, start, end);
    var groups := MakeGroups(FirstSeenTypes(plain.accounts), plain.accounts);
    assert forall grp :: grp in groups ==>
             grp.totalDebit == RowDebits(grp.accounts) && grp.totalCredit == RowCredits(grp.accounts) by {
      forall grp | grp in groups
        ensures grp.totalDebit == RowDebits(grp.accounts) && grp.totalCredit == RowCredits(grp.accounts)
      {
        var ts := FirstSeenTypes(plain.accounts);
        MakeGroupsSums(ts, plain.accounts, grp);
      }
    }
    GroupedReport(groups, plain.totals, plain.period)
  }

  lemma {:induction false} MakeGroupsSums(ts: seq<AccountType>, rows: seq<TrialRow>, grp: TypeGroup)
    requires grp in MakeGroups(ts, rows)
    ensures grp.totalDebit == RowDebits(grp.accounts) && grp.totalCredit == RowCredits(grp.accounts)
  {
    if ts != [] {
      var own := OfKinds(rows, {ts[0]});
      if grp != TypeGroup(ts[0], own, RowDebits(own), RowCredits(own)) {
        MakeGroupsSums(ts[1..], rows, grp);
      }
    }
  }

  function GroupDebits(gs: seq<TypeGroup>): int {
    if gs == [] then 0 else gs[0].totalDebit + GroupDebits(gs[1..])
  }

  function GroupCredits(gs: seq<TypeGroup>): int {
    if gs == [] then 0 else gs[0].totalCredit + GroupCredits(gs[1..])
  }

  lemma {:induction false} OfKindsSplit(rows: seq<TrialRow>, T: set<AccountType>, t: AccountType)
    requires t !in T
    ensures RowDebits(OfKinds(rows, T + {t})) == RowDebits(OfKinds(rows, T)) + RowDebits(OfKinds(rows, {t}))
    ensures RowCredits(OfKinds(rows, T + {t})) == RowCredits(OfKinds(rows, T)) + RowCredits(OfKinds(rows, {t}))
  {
    if rows != [] {
      OfKindsSplit(rows[1..], T, t);
    }
  }

  lemma {:induction false} OfKindsEmpty(rows: seq<TrialRow>)
    ensures OfKinds(rows, {}) == []
  {
    if rows != [] {
      OfKindsEmpty(rows[1..]);
    }
  }

  lemma {:induction false} OfKindsAll(rows: seq<TrialRow>, T: set<AccountType>)
    requires forall r :: r in rows ==> r.account.kind in T
    ensures OfKinds(rows, T) == rows
  {
    if rows != [] {
      assert rows[0] in rows;
      assert forall r :: r in rows[1..] ==> r in rows;
      OfKindsAll(rows[1..], T);
      assert rows == [rows[0]] + rows[1..];
    }
  }

  function SetOf(ts: seq<AccountType>): set<AccountType> {
    set t | t in ts
  }

  lemma {:induction false} MakeGroupsTotals(ts: seq<AccountType>, rows: seq<TrialRow>)
    requires Distinct(ts)
    ensures GroupDebits(MakeGroups(ts, rows)) == RowDebits(OfKinds(rows, SetOf(ts)))
    ensures GroupCredits(MakeGroups(ts, rows)) == RowCredits(OfKinds(rows, SetOf(ts)))
  {
    if ts == [] {
      OfKindsEmpty(rows);
      assert SetOf(ts) == {};
    } else {
      var t, rest := ts[0], ts[1..];
      DistinctTail(ts);
      MakeGroupsTotals(rest, rows);
      assert SetOf(ts) == SetOf(rest) + {t} by {
        assert ts == [t] + rest;
      }
      OfKindsSplit(rows, SetOf(rest), t);
    }
  }

  /** The per-type subtotals of the grouped report add up to the report's
      overall totals: every row lands in exactly one group. */
  lemma GroupsAddUpToTotals(b: Books, company: CompanyId, start: Option<Date>, end: Option<Date>)
    ensures var g := GenerateByType(b, company, start, end);
            GroupDebits(g.groups) == g.totals.debit && GroupCredits(g.groups) == g.totals.credit
  {
    var plain := Generate(b, company, start, end);
    var ts := FirstSeenTypes(plain.accounts);
    MakeGroupsTotals(ts, plain.accounts);
    forall r | r in plain.accounts ensures r.account.kind in SetOf(ts) {
      assert r.account.kind in ts;
    }
    OfKindsAll(plain.accounts, SetOf(ts));
  }

  /** Every row of the plain report sits in the group of its own type. */
  lemma EveryRowInItsGroup(b: Books, company: CompanyId, start: Option<Date>, end: Option<Date>, row: TrialRow)
    requires row in Generate(b, company, start, end).accounts
    ensures exists grp :: grp in GenerateByType(b, company, start, end).groups && grp.kind == row.account.kind && row in grp.accounts
  {
    var plain := Generate(b, company, start, end);
    var ts := FirstSeenTypes(plain.accounts);
    var gs := MakeGroups(ts, plain.accounts);
    assert row.account.kind in ts;
    var i :| 0 <= i < |ts| && ts[i] == row.account.kind;
    assert gs[i] in gs;
  }
}
