/** The writing endpoints of AccountingApiController: accounts, journal
    entries, invoices (and their status) and payments.  Each runs against
    the ledger tables and either commits or leaves them as they were. */
module AccountingApi {
  import opened Common
  import opened Tenancy
  import opened Ledger
  import opened AccountLookup
  import InvoiceObserver
  import PaymentObserver

  /** Why a request is refused.  Validation failures and the exceptions the
      journal-entry transaction catches answer 422, a scoped `findOrFail`
      that finds nothing 404, a failing SQL statement 500. */
  datatype ApiError =
    | ValidationFailed
    | LineHasBothSides
    | LineHasNoAmount
    | EntryUnbalanced
    | NotFound
    | PaymentExceedsTotal
    | QueryFailed

  function StatusCode(e: ApiError): int {
    match e
    case NotFound => 404
    case QueryFailed => 500
    case _ => 422
  }

  datatype Response<T> = Ok(value: T) | Err(error: ApiError)

  /** `nullable|string|max:n` on the value the controller reads. */
  predicate NullableMax(s: Option<string>, max: nat) {
    s.None? || |s.value| <= max
  }

  // ---------------------------------------------------------------------
  // Accounts

  function TypeName(t: AccountType): string {
    match t
    case Asset => "Asset"
    case Liability => "Liability"
    case Equity => "Equity"
    case Revenue => "Revenue"
    case Expense => "Expense"
  }

  /** `Rule::in(Account::TYPES)`: exactly the five type names. */
  function ParseAccountType(s: string): (r: Option<AccountType>)
    ensures r.Some? ==> TypeName(r.value) == s
  {
    if s == "Asset" then Some(Asset)
    else if s == "Liability" then Some(Liability)
    else if s == "Equity" then Some(Equity)
    else if s == "Revenue" then Some(Revenue)
    else if s == "Expense" then Some(Expense)
    else None
  }

  lemma ParseTypeName(t: AccountType)
    ensures ParseAccountType(TypeName(t)) == Some(t)
  {
  }

  /** The rules of `createAccount`.  The code must be unused in the whole
      table, whichever company owns the clashing row. */
  predicate AccountRequestValid(accounts: seq<Account>, code: string, name: string, typeName: string) {
    && |code| >= 1
    && (forall a :: a in accounts ==> a.code != code)
    && RequiredMax(name, 255)
    && ParseAccountType(typeName).Some?
  }

  /** `createAccount`, on the request as sent: the global middleware trims
      every field before the rules see it and before it is stored. */
  method CreateAccount(db: LedgerDb, auth: Auth, code: string, name: string, typeName: string) returns (r: Response<nat>)
    requires db.Valid()
    modifies db
    ensures db.Valid()
    ensures db.entries == old(db.entries) && db.lines == old(db.lines)
    ensures db.invoices == old(db.invoices) && db.payments == old(db.payments)
    ensures r.Ok? <==> AccountRequestValid(old(db.accounts), Trim(code), Trim(name), Trim(typeName))
    ensures r.Err? ==> r.error == ValidationFailed && db.accounts == old(db.accounts)
    ensures r.Ok? ==>
              && r.value == |old(db.accounts)| + 1
              && db.accounts == old(db.accounts) + [Account(r.value, AssignedCompany(auth, None), Trim(code), Trim(name),
                                                            ParseAccountType(Trim(typeName)).value)]
  {
    var c, n := Trim(code), Trim(name);
    var taken := exists i | 0 <= i < |db.accounts| :: db.accounts[i].code == c;
    var kind := ParseAccountType(Trim(typeName));
    if |c| == 0 || taken || !RequiredMax(n, 255) || kind.None? {
      return Err(ValidationFailed);
    }
    var id := |db.accounts| + 1;
    ghost var a0 := db.accounts;
    db.accounts := db.accounts + [Account(id, AssignedCompany(auth, None), c, n, kind.value)];
    assert forall i :: 0 <= i < |a0| ==> db.accounts[i] == a0[i];
    r := Ok(id);
  }

  /** Another company's account with the same code blocks the new one. */
  lemma CodeClashAcrossCompanies(accounts: seq<Account>, other: Account, code: string, name: string, typeName: string)
    requires other in accounts && other.code == code
    ensures !AccountRequestValid(accounts, code, name, typeName)
  {
  }

  // ---------------------------------------------------------------------
  // Journal entries

  datatype EntryRequest = EntryRequest(date: Date, description: string, reference: Option<string>, lines: seq<Posting>) {
    /** The request as the controller reads it, after the global
        middleware. */
    function Trimmed(): EntryRequest {
      this.(description := Trim(description), reference := TrimNullable(reference))
    }
  }

  /** The validation rules of `createJournalEntry`: at least one line, every
      account id present in the accounts table (of any company), amounts
      not negative. */
  predicate EntryRequestValid(accountCount: nat, req: EntryRequest) {
    && RequiredMax(req.description, 255)
    && NullableMax(req.reference, 255)
    && |req.lines| >= 1
    && PostingsWellFormed(req.lines, accountCount)
  }

  /** The two checks the loop makes on each line. */
  function LineCheck(p: Posting): Option<ApiError> {
    if p.debit > 0 && p.credit > 0 then Some(LineHasBothSides)
    else if p.debit == 0 && p.credit == 0 then Some(LineHasNoAmount)
    else None
  }

  /** The error of the first line that fails its check. */
  function FirstLineError(ps: seq<Posting>): (r: Option<ApiError>)
    ensures r.None? <==> forall i :: 0 <= i < |ps| ==> LineCheck(ps[i]).None?
    ensures r.Some? ==> exists i :: 0 <= i < |ps| && r == LineCheck(ps[i])
  {
    if ps == [] then None
    else if LineCheck(ps[0]).Some? then LineCheck(ps[0])
    else
      var r := FirstLineError(ps[1..]);
      assert forall i :: 0 < i < |ps| ==> ps[i] == ps[1..][i - 1];
      r
  }

  lemma {:induction false} FirstLineErrorAt(ps: seq<Posting>, i: nat)
    requires i < |ps|
    requires forall j :: 0 <= j < i ==> LineCheck(ps[j]).None?
    requires LineCheck(ps[i]).Some?
    ensures FirstLineError(ps) == LineCheck(ps[i])
  {
    if i > 0 {
      assert forall j :: 0 <= j < i - 1 ==> ps[1..][j] == ps[j + 1];
      FirstLineErrorAt(ps[1..], i - 1);
    }
  }

  /** On non-negative amounts the two checks accept exactly the one-sided
      lines. */
  lemma LineChecksMeanOneSided(ps: seq<Posting>)
    requires forall i :: 0 <= i < |ps| ==> ps[i].debit >= 0 && ps[i].credit >= 0
    ensures FirstLineError(ps).None? <==> forall i :: 0 <= i < |ps| ==> OneSided(ps[i])
  {
    if FirstLineError(ps).None? {
      forall i | 0 <= i < |ps| ensures OneSided(ps[i]) {
        assert LineCheck(ps[i]).None?;
      }
    }
  }

  /** What the request turns into: committed (`None`) or refused. */
  function JournalEntryOutcome(accountCount: nat, req: EntryRequest): Option<ApiError> {
    if !EntryRequestValid(accountCount, req) then Some(ValidationFailed)
    else if FirstLineError(req.lines).Some? then FirstLineError(req.lines)
    else if !Balanced(req.lines) then Some(EntryUnbalanced)
    else None
  }

  /** An entry is committed exactly when the request is valid, every line
      is one-sided and the lines balance. */
  lemma EntryAcceptedIff(accountCount: nat, req: EntryRequest)
    ensures JournalEntryOutcome(accountCount, req).None? <==>
              && EntryRequestValid(accountCount, req)
              && (forall i :: 0 <= i < |req.lines| ==> OneSided(req.lines[i]))
              && Balanced(req.lines)
  {
    if EntryRequestValid(accountCount, req) {
      LineChecksMeanOneSided(req.lines);
    }
  }

  lemma {:induction false} OneSidedSumsPositive(ps: seq<Posting>)
    requires forall i :: 0 <= i < |ps| ==> OneSided(ps[i])
    ensures Debits(ps) >= 0 && Credits(ps) >= 0
    ensures ps != [] ==> Debits(ps) + Credits(ps) > 0
  {
    if ps != [] {
      assert OneSided(ps[0]);
      assert forall i :: 0 <= i < |ps[1..]| ==> ps[1..][i] == ps[i + 1];
      OneSidedSumsPositive(ps[1..]);
    }
  }

  lemma {:induction false} PositiveDebitsHaveADebitLine(ps: seq<Posting>)
    requires Debits(ps) > 0
    ensures exists i :: 0 <= i < |ps| && ps[i].debit > 0
  {
    if ps[0].debit <= 0 {
      PositiveDebitsHaveADebitLine(ps[1..]);
      var i :| 0 <= i < |ps[1..]| && ps[1..][i].debit > 0;
      assert ps[i + 1].debit > 0;
    }
  }

  lemma {:induction false} PositiveCreditsHaveACreditLine(ps: seq<Posting>)
    requires Credits(ps) > 0
    ensures exists i :: 0 <= i < |ps| && ps[i].credit > 0
  {
    if ps[0].credit <= 0 {
      PositiveCreditsHaveACreditLine(ps[1..]);
      var i :| 0 <= i < |ps[1..]| && ps[1..][i].credit > 0;
      assert ps[i + 1].credit > 0;
    }
  }

  /** A committed entry has a debit line and a different credit line, so at
      least two lines. */
  lemma CommittedEntryHasBothSides(accountCount: nat, req: EntryRequest)
    requires JournalEntryOutcome(accountCount, req).None?
    ensures exists i, j :: 0 <= i < |req.lines| && 0 <= j < |req.lines| && i != j
                           && req.lines[i].debit > 0 && req.lines[j].credit > 0
    ensures |req.lines| >= 2
  {
    EntryAcceptedIff(accountCount, req);
    OneSidedSumsPositive(req.lines);
    PositiveDebitsHaveADebitLine(req.lines);
    PositiveCreditsHaveACreditLine(req.lines);
    var i :| 0 <= i < |req.lines| && req.lines[i].debit > 0;
    var j :| 0 <= j < |req.lines| && req.lines[j].credit > 0;
    assert OneSided(req.lines[i]);
    assert i != j;
  }

  /** The entry row: company from the tenant hook (the request supplies
      none), no source document. */
  function RequestedEntry(auth: Auth, req: EntryRequest): JournalEntry {
    JournalEntry(AssignedCompany(auth, None), req.date, req.description, req.reference, None)
  }

  /** `createJournalEntry`: validate the trimmed request, then in one
      transaction insert the entry and its lines one by one, checking each
      line as it goes and the balance at the end; any failure rolls
      everything back. */
  method CreateJournalEntry(db: LedgerDb, auth: Auth, sent: EntryRequest) returns (r: Response<nat>)
    requires db.Valid()
    modifies db
    ensures db.Valid()
    ensures db.accounts == old(db.accounts) && db.invoices == old(db.invoices) && db.payments == old(db.payments)
    ensures var req := sent.Trimmed();
            var outcome := JournalEntryOutcome(|old(db.accounts)|, req);
            && (r.Err? <==> outcome.Some?)
            && (r.Err? ==> r.error == outcome.value && db.entries == old(db.entries) && db.lines == old(db.lines))
            && (r.Ok? ==>
                  && r.value == |old(db.entries)| + 1
                  && db.entries == old(db.entries) + [RequestedEntry(auth, req)]
                  && db.lines == old(db.lines) + LineRows(r.value, AssignedCompany(auth, None), req.lines))
  {
    var req := sent.Trimmed();
    if !EntryRequestValid(|db.accounts|, req) {
      return Err(ValidationFailed);
    }
    var e0, l0 := db.entries, db.lines;
    var id := |db.entries| + 1;
    var company := AssignedCompany(auth, None);
    db.entries := db.entries + [RequestedEntry(auth, req)];
    var err := InsertLines(db, id, company, req.lines);
    if err.Some? {
      db.entries, db.lines := e0, l0;
      return Err(err.value);
    }
    NewEntryPostings(l0, id - 1, |db.accounts|, company, req.lines);
    if !Balanced(Postings(db.lines, id)) {
      db.entries, db.lines := e0, l0;
      return Err(EntryUnbalanced);
    }
    CommitUnsourcedEntry(db.accounts, db.invoices, db.payments, e0, l0, RequestedEntry(auth, req), company, req.lines);
    r := Ok(id);
  }

  /** The `foreach` of `createJournalEntry`: each line is checked, then
      inserted under the entry; the first failing check stops the loop and
      leaves the lines before it inserted (the caller rolls them back). */
  method InsertLines(db: LedgerDb, id: nat, company: Option<CompanyId>, ps: seq<Posting>) returns (err: Option<ApiError>)
    modifies db
    ensures db.accounts == old(db.accounts) && db.invoices == old(db.invoices) && db.payments == old(db.payments)
    ensures db.entries == old(db.entries)
    ensures err == FirstLineError(ps)
    ensures err.None? ==> db.lines == old(db.lines) + LineRows(id, company, ps)
    ensures err.Some? ==> exists k :: 0 <= k < |ps| && LineCheck(ps[k]) == err && db.lines == old(db.lines) + LineRows(id, company, ps[..k])
  {
    var i := 0;
    while i < |ps|
      invariant 0 <= i <= |ps|
      invariant db.accounts == old(db.accounts) && db.invoices == old(db.invoices) && db.payments == old(db.payments)
      invariant db.entries == old(db.entries)
      invariant db.lines == old(db.lines) + LineRows(id, company, ps[..i])
      invariant forall j :: 0 <= j < i ==> LineCheck(ps[j]).None?
    {
      var check := LineCheck(ps[i]);
      if check.Some? {
        FirstLineErrorAt(ps, i);
        return check;
      }
      assert ps[..i + 1][..i] == ps[..i];
      db.lines := db.lines + [JournalLine(id, company, ps[i])];
      i := i + 1;
    }
    assert ps[..i] == ps;
    err := None;
  }

  /** The balance test as written: `$entry->is_balanced` names an accessor
      the entry model does not define, so it reads null and `!null` throws
      for every request that reaches it. */
  function JournalEntryOutcomeAsWritten(accountCount: nat, req: EntryRequest): (r: Option<ApiError>)
    ensures r.Some?
    ensures r == Some(EntryUnbalanced) <==>
              EntryRequestValid(accountCount, req) && forall i :: 0 <= i < |req.lines| ==> LineCheck(req.lines[i]).None?
  {
    if !EntryRequestValid(accountCount, req) then Some(ValidationFailed)
    else if FirstLineError(req.lines).Some? then FirstLineError(req.lines)
    else Some(EntryUnbalanced)
  }

  /** As written no journal entry can ever be committed, even the balanced
      two-line entry below (debit account 1 and credit account 2 by 100.00). */
  lemma AsWrittenRejectsBalancedEntry()
    ensures var req := EntryRequest(0, "Capital", None, [Posting(1, 10000, 0), Posting(2, 0, 10000)]);
            && JournalEntryOutcome(2, req).None?
            && JournalEntryOutcomeAsWritten(2, req) == Some(EntryUnbalanced)
  {
    var req := EntryRequest(0, "Capital", None, [Posting(1, 10000, 0), Posting(2, 0, 10000)]);
    assert req.lines[1..][1..] == [];
    assert FirstLineError(req.lines[1..][1..]).None?;
    assert Balanced(req.lines);
  }

  lemma AsWrittenNeverCommits(accountCount: nat, req: EntryRequest)
    ensures JournalEntryOutcomeAsWritten(accountCount, req).Some?
    ensures JournalEntryOutcome(accountCount, req).Some? ==>
              JournalEntryOutcomeAsWritten(accountCount, req) == JournalEntryOutcome(accountCount, req)
  {
  }

  // ---------------------------------------------------------------------
  // Invoices

  function ParseStatus(s: string): Option<InvoiceStatus> {
    if s == "draft" then Some(Draft)
    else if s == "sent" then Some(Sent)
    else if s == "paid" then Some(Paid)
    else if s == "overdue" then Some(Overdue)
    else if s == "cancelled" then Some(Cancelled)
    else None
  }

  /** The rules of `createInvoice`, on the values the controller reads. */
  predicate InvoiceRequestValid(clientName: string, total: Cents, statusName: string) {
    RequiredMax(clientName, 255) && total >= 0 && ParseStatus(statusName).Some?
  }

  /** Adding an invoice row keeps the invoice sources valid and no entry
      can already point at it. */
  lemma AppendInvoiceKeepsSources(es: seq<JournalEntry>, invs: seq<Invoice>, inv: Invoice)
    requires InvoiceSourcesValid(es, invs)
    requires inv.id == |invs| + 1
    ensures InvoiceSourcesValid(es, invs + [inv])
    ensures InvoiceObserver.NoEntryFor(es, inv.id)
  {
    var invs2 := invs + [inv];
    assert forall k :: 0 <= k < |invs| ==> invs2[k] == invs[k];
  }

  /** A client name of no-break spaces reaches the controller as null, so
      the invoice is refused whatever the other fields say. */
  lemma NoBreakSpaceClientRefused(total: Cents, statusName: string)
    ensures !InvoiceRequestValid(Trim("\U{A0}\U{A0}"), total, statusName)
  {
    BlankTrimsToEmpty("\U{A0}\U{A0}");
  }

  /** `createInvoice`, followed by the observer's `created` hook. */
  method CreateInvoice(db: LedgerDb, auth: Auth, clientName: string, total: Cents, statusName: string, today: Date, like: Matcher)
    returns (r: Response<nat>, posted: bool)
    requires db.Valid()
    modifies db
    ensures db.Valid()
    ensures db.accounts == old(db.accounts) && db.payments == old(db.payments)
    ensures r.Ok? <==> InvoiceRequestValid(Trim(clientName), total, Trim(statusName))
    ensures r.Err? ==> r.error == ValidationFailed && db.invoices == old(db.invoices) && !posted
    ensures r.Ok? ==>
              && r.value == |old(db.invoices)| + 1
              && db.invoices == old(db.invoices) + [Invoice(r.value, AssignedCompany(auth, None), Trim(clientName), total,
                                                            ParseStatus(Trim(statusName)).value)]
    ensures posted ==> r.Ok?
    ensures !posted ==> db.entries == old(db.entries) && db.lines == old(db.lines)
    ensures r.Ok? ==>
              var company := AssignedCompany(auth, None);
              var rec := First(old(db.accounts), auth, ReceivableFilter(company), like);
              var rev := First(old(db.accounts), auth, RevenueFilter(company), like);
              && (posted <==> ParseStatus(Trim(statusName)) == Some(Sent) && rec.Some? && rev.Some?)
              && (posted ==>
                    && db.entries == old(db.entries) + [InvoiceObserver.InvoiceEntry(auth, db.invoices[r.value - 1], today)]
                    && db.lines == old(db.lines) + LineRows(|old(db.entries)| + 1, company,
                                                            TransferPostings(rec.value.id, rev.value.id, total)))
  {
    var client, status := Trim(clientName), ParseStatus(Trim(statusName));
    if !RequiredMax(client, 255) || total < 0 || status.None? {
      return Err(ValidationFailed), false;
    }
    var id := |db.invoices| + 1;
    var inv := Invoice(id, AssignedCompany(auth, None), client, total, status.value);
    AppendInvoiceKeepsSources(db.entries, db.invoices, inv);
    db.InsertInvoice(inv);
    assert inv in db.invoices && db.invoices[id - 1] == inv;
    posted := InvoiceObserver.Created(db, auth, inv, today, like);
    r := Ok(id);
  }

  /** A scoped `Invoice::findOrFail`. */
  function FindInvoice(invs: seq<Invoice>, auth: Auth, id: nat): (r: Option<Invoice>)
    ensures r.Some? ==> r.value in invs && InScope(auth, r.value.companyId)
    ensures InvoicesWellFormed(invs) && r.Some? ==> r.value.id == id
  {
    if 1 <= id <= |invs| && InScope(auth, invs[id - 1].companyId) then Some(invs[id - 1]) else None
  }

  lemma FindInvoiceComplete(invs: seq<Invoice>, auth: Auth, inv: Invoice)
    requires InvoicesWellFormed(invs)
    requires inv in invs && InScope(auth, inv.companyId)
    ensures FindInvoice(invs, auth, inv.id) == Some(inv)
  {
  }

  datatype StatusUpdate = StatusUpdate(invoice: Invoice, journalEntryCreated: bool)

  /** `updateInvoiceStatus`: find (404 first), validate, update; the
      observer's `updated` hook runs only when the status really changed. */
  method UpdateInvoiceStatus(db: LedgerDb, auth: Auth, id: nat, statusName: string, today: Date, like: Matcher)
    returns (r: Response<StatusUpdate>, posted: bool)
    requires db.Valid()
    modifies db
    ensures db.Valid()
    ensures db.accounts == old(db.accounts) && db.payments == old(db.payments)
    ensures FindInvoice(old(db.invoices), auth, id).None? ==> r == Err(NotFound)
    ensures FindInvoice(old(db.invoices), auth, id).Some? && ParseStatus(Trim(statusName)).None? ==> r == Err(ValidationFailed)
    ensures r.Err? ==> db.invoices == old(db.invoices) && db.entries == old(db.entries) && db.lines == old(db.lines) && !posted
    ensures r.Ok? ==>
              && FindInvoice(old(db.invoices), auth, id).Some? && ParseStatus(Trim(statusName)).Some?
              && r.value.invoice == old(db.invoices)[id - 1].(status := ParseStatus(Trim(statusName)).value)
              && db.invoices == old(db.invoices)[id - 1 := r.value.invoice]
              && r.value.journalEntryCreated == InvoiceObserver.HasInvoiceEntry(db.entries, auth, id)
    ensures posted ==> r.Ok?
    ensures !posted ==> db.entries == old(db.entries) && db.lines == old(db.lines)
    ensures r.Ok? ==>
              var inv := old(db.invoices)[id - 1];
              var rec := First(old(db.accounts), auth, ReceivableFilter(inv.companyId), like);
              var rev := First(old(db.accounts), auth, RevenueFilter(inv.companyId), like);
              && (posted <==>
                    && inv.status != Sent && ParseStatus(Trim(statusName)) == Some(Sent)
                    && InvoiceObserver.NoEntryFor(old(db.entries), id) && rec.Some? && rev.Some?)
              && (posted ==>
                    && db.entries == old(db.entries) + [InvoiceObserver.InvoiceEntry(auth, db.invoices[id - 1], today)]
                    && db.lines == old(db.lines) + LineRows(|old(db.entries)| + 1, AssignedCompany(auth, None),
                                                            TransferPostings(rec.value.id, rev.value.id, inv.total)))
  {
    var found := FindInvoice(db.invoices, auth, id);
    if found.None? {
      return Err(NotFound), false;
    }
    var status := ParseStatus(Trim(statusName));
    if status.None? {
      return Err(ValidationFailed), false;
    }
    var inv := found.value;
    var updated := inv.(status := status.value);
    var changed := inv.status != status.value;
    db.SetInvoiceStatus(id, status.value);
    assert db.invoices[id - 1] == updated;
    posted := false;
    if changed {
      posted := InvoiceObserver.Updated(db, auth, updated, changed, today, like);
    }
    var created := InvoiceObserver.HasInvoiceEntry(db.entries, auth, id);
    r := Ok(StatusUpdate(updated, created));
  }

  // ---------------------------------------------------------------------
  // Payments

  datatype PaymentRequest = PaymentRequest(
    invoiceId: nat,
    amount: Cents,
    paymentDate: Date,
    paymentMethod: string,
    reference: Option<string>,
    notes: Option<string>)
  {
    /** The request as the controller reads it, after the global
        middleware. */
    function Trimmed(): PaymentRequest {
      this.(paymentMethod := Trim(paymentMethod), reference := TrimNullable(reference), notes := TrimNullable(notes))
    }
  }

  /** The validation rules of `createPayment`; `exists:invoices,id` reads
      the whole table, not the caller's scope. */
  predicate PaymentRequestValid(invoiceCount: nat, req: PaymentRequest) {
    && 1 <= req.invoiceId <= invoiceCount
    && req.amount >= 0
    && RequiredMax(req.paymentMethod, 255)
    && NullableMax(req.reference, 255)
    && NullableMax(req.notes, 500)
  }

  /** Validation (422), then a scoped lookup of the invoice (404), then the
      amount against the invoice total (422). */
  function PaymentOutcome(invs: seq<Invoice>, auth: Auth, req: PaymentRequest): Option<ApiError> {
    if !PaymentRequestValid(|invs|, req) then Some(ValidationFailed)
    else if FindInvoice(invs, auth, req.invoiceId).None? then Some(NotFound)
    else if req.amount > FindInvoice(invs, auth, req.invoiceId).value.total then Some(PaymentExceedsTotal)
    else None
  }

  /** A payment is accepted exactly for a valid request on an invoice in the
      caller's scope whose total covers the amount. */
  lemma PaymentAcceptedIff(invs: seq<Invoice>, auth: Auth, req: PaymentRequest)
    requires InvoicesWellFormed(invs)
    ensures PaymentOutcome(invs, auth, req).None? <==>
              && PaymentRequestValid(|invs|, req)
              && InScope(auth, invs[req.invoiceId - 1].companyId)
              && 0 <= req.amount <= invs[req.invoiceId - 1].total
  {
  }

  function NewPayment(id: nat, auth: Auth, req: PaymentRequest): Payment {
    Payment(id, AssignedCompany(auth, None), Some(req.invoiceId), req.amount, req.paymentDate,
            req.paymentMethod, req.reference, req.notes)
  }

  /** `createPayment` on the trimmed request, followed by the observer's
      `created` hook. */
  method CreatePayment(db: LedgerDb, auth: Auth, sent: PaymentRequest, like: Matcher) returns (r: Response<nat>, posted: bool)
    requires db.Valid()
    modifies db
    ensures db.Valid()
    ensures db.accounts == old(db.accounts) && db.invoices == old(db.invoices)
    ensures r.Err? <==> PaymentOutcome(old(db.invoices), auth, sent.Trimmed()).Some?
    ensures r.Err? ==> r.error == PaymentOutcome(old(db.invoices), auth, sent.Trimmed()).value
                       && db.payments == old(db.payments) && db.entries == old(db.entries) && db.lines == old(db.lines)
                       && !posted
    ensures r.Ok? ==> r.value == |old(db.payments)| + 1 && db.payments == old(db.payments) + [NewPayment(r.value, auth, sent.Trimmed())]
    ensures posted ==> r.Ok?
    ensures !posted ==> db.entries == old(db.entries) && db.lines == old(db.lines)
    ensures r.Ok? ==>
              var company := AssignedCompany(auth, None);
              var cash := First(old(db.accounts), auth, CashFilter(company), like);
              var rec := First(old(db.accounts), auth, ReceivableFilter(company), like);
              && (posted <==> cash.Some? && rec.Some?)
              && (posted ==>
                    && db.entries == old(db.entries) + [PaymentObserver.PaymentEntry(auth, db.payments[r.value - 1])]
                    && db.lines == old(db.lines) + LineRows(|old(db.entries)| + 1, company,
                                                            TransferPostings(cash.value.id, rec.value.id, sent.amount)))
  {
    var req := sent.Trimmed();
    var outcome := PaymentOutcome(db.invoices, auth, req);
    if outcome.Some? {
      return Err(outcome.value), false;
    }
    var id := |db.payments| + 1;
    var p := NewPayment(id, auth, req);
    db.InsertPayment(p);
    assert p in db.payments && db.payments[id - 1] == p;
    posted := PaymentObserver.Created(db, auth, p, like);
    r := Ok(id);
  }
}
