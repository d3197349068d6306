# Multi-tenant double-entry ledger of the ERP backend, in Dafny

This project models the accounting core of a Laravel ERP backend in which
several companies (tenants) share one database. It covers:

- **Manual journal posting**: `createJournalEntry` with its per-line checks,
  the balance check and the rollback of the whole transaction. Also
  accounts, invoices, invoice status changes and payments.
- **Automatic posting**: the Invoice and Payment observers turn a sent invoice
  and a recorded payment into a balanced two-line journal entry. They pick
  the accounts by a keyword heuristic, and a failure only logs.
- **Reporting**: the trial balance, plain and grouped by account type; the
  account ledger; the invoice view with its remaining balance; the journal
  entry view; the income statement; the balance sheet.
- **Tenancy and access**:
  - the `BelongsToTenant` global scope and `creating` hook;
  - the `CheckModuleAccess` guard chain;
  - the company chosen by the trial-balance endpoint;
  - the user-management and super-admin authorization rules;
  - the company–module pivot, written at registration, by
    sync-without-detaching, by update-or-attach and by update-only.

The database is explicit state. The ledger tables (accounts, invoices,
payments, journal entries, journal lines) are `seq` fields of the class
`Ledger.LedgerDb`. Companies, users, modules and the `company_modules` pivot
are `seq` fields of `Core.CoreDb`. The row at index `i` has id `i + 1`.

Each class has a `Valid()` invariant that every writing method keeps:

- `Ledger.LedgerDb.Valid()`:
  - every journal line refers to an existing entry and account;
  - every entry is balanced (Σdebit = Σcredit over its lines);
  - every invoice source refers to an existing invoice;
  - no invoice is posted twice. This holds for the corrected observer of
    finding 2; as written, the duplicate check never finds the earlier
    entry (`InvoiceObserver.AsWrittenRepostsInvoice`).
- `Core.CoreDb.Valid()`:
  - ids are positions;
  - e-mail addresses are unique;
  - every pivot refers to an existing company and module;
  - no (company, module) pair has two pivots.

Conventions:

- Amounts are integer cents, so `round(x, 2) === round(y, 2)` becomes `==`.
  Dates are integer day numbers.
- The logged-in user is an `Auth = Option<Caller>` parameter. `now()` is a
  `today` parameter.
- The observers' `Log::error` becomes a returned `posted: bool`.
- A database write that throws inside a transaction is a `fails: bool`
  parameter. The model then rolls back and answers 500.
- Every endpoint reads its request after Laravel's default global
  middleware, which `bootstrap/app.php` keeps: `TrimStrings` strips blanks
  from both ends of every string, and `ConvertEmptyStringsToNull` turns an
  empty result into null. The blanks are those of `Str::trim`
  (`Common.IsBlank`): NUL, tab, line feed, vertical tab, form feed,
  carriage return, space, U+0085, U+00A0, U+1680, U+2000 to U+200B,
  U+200E, U+2028, U+2029, U+202F, U+205F, U+3000 and U+FEFF. Each endpoint takes the request as sent and
  applies `Common.Trim` (or the request's `Trimmed()`) before validating
  and storing. A blank value reaches `required` as null and is refused; a
  blank optional value is stored as null.
- SQL `LIKE '%keyword%'` depends on the collation, so it is an abstract
  `Matcher` parameter.
- Eloquent behaviour is written out where the core depends on it:
  - mass assignment drops keys that are not `$fillable`;
  - `where('company_id', null)` matches only NULL;
  - `exists:` and `unique:` validation rules read the whole table, not
    the caller's tenant scope;
  - PHP's loose `!=` is written out (`null != 0` is false);
  - `updateExistingPivot` updates every matching pivot and never
    attaches one.

Modules: `Common`, `Tenancy`, `Ledger`, `AccountLookup`, `TrialBalance`,
`AccountingApi`, `InvoiceObserver`, `PaymentObserver`, `Reports`, `Core`,
`ModuleAccess`, `TrialBalanceController`, `Users`, `SuperAdmin`,
`Registration`.

Behaviours worth noting:

- Account codes must be unique over the whole `accounts` table, not per
  company (`AccountingApi.CodeClashAcrossCompanies`).
- `exists:accounts,id` accepts another company's account in a manual entry.
- A zero-total invoice or zero-amount payment posts two lines whose debit
  and credit are both 0 (`InvoiceObserver.ZeroInvoicePostsEmptyLines`).

## Model

| member | source | states |
|---|---|---|
| Common.NatToString | backend/Erp_project/app/Observers/Accounting/InvoiceObserver.php:73-74 | the decimal rendering used in "INV-{id}" and "Payment #{id}" is non-empty, all digits, and one digit exactly for n < 10 |
| Common.DigitsRoundTrip | backend/Erp_project/app/Observers/Accounting/InvoiceObserver.php:74 | reading the rendered digits back gives n, so the rendering loses nothing |
| Common.NatToStringInjective | backend/Erp_project/app/Observers/Accounting/PaymentObserver.php:63 | distinct ids render to distinct strings |
| Common.PrefixedInjective | backend/Erp_project/app/Observers/Accounting/PaymentObserver.php:63 | "PAY-" / "INV-" followed by an id determines the id |
| Common.TrimIsSlice | backend/Erp_project/bootstrap/app.php:39-50 | `TrimStrings` leaves the slice of the input after its leading blanks, everything after that slice is blank, and the result neither starts nor ends with a blank |
| Common.TrimKeepsClean | backend/Erp_project/bootstrap/app.php:39-50 | a string without blanks at its ends reaches the controller unchanged |
| Common.TrimIdempotent | backend/Erp_project/bootstrap/app.php:39-50 | trimming twice is trimming once |
| Common.BlankTrimsToEmpty | backend/Erp_project/bootstrap/app.php:39-50 | a string of blanks reaches the controller empty, that is as null |
| AccountingApi.NoBreakSpaceClientRefused | backend/Erp_project/app/Modules/Accounting/Controllers/AccountingApiController.php:150 | a client name of no-break spaces arrives empty, so `createInvoice` refuses it with 422 |
| Common.TrimAll | backend/Erp_project/bootstrap/app.php:39-50 | every string of an array is trimmed, in place |
| Common.TrimNullable | backend/Erp_project/bootstrap/app.php:39-50 | an optional field is null iff it was absent or blank, and otherwise is the trimmed value |
| Tenancy.ParseRole | backend/Erp_project/app/Http/Controllers/Core/UserController.php:68 | `Rule::in([Roles::USER, Roles::ADMIN, Roles::SUPER_ADMIN])` accepts a name only if it is the exact name of a role |
| Tenancy.ParseRoleName | backend/Erp_project/app/Http/Controllers/Core/UserController.php:119 | every role name is accepted and parsed back to its role |
| Tenancy.Select | backend/Erp_project/app/Traits/BelongsToTenant.php:18-22 | a query with where clauses on company_id returns a sub-sequence of the table |
| Tenancy.SelectMembers | backend/Erp_project/app/Traits/BelongsToTenant.php:18-22 | a row is returned iff it is in the table and its company_id equals every where value |
| Tenancy.QueryBuilder.ApplyTenantScope | backend/Erp_project/app/Traits/BelongsToTenant.php:18-22 | with a caller, the caller's company_id (possibly null) is appended to the where clauses; without one, the query is unchanged; there is no super-admin exemption |
| Tenancy.ScopedQueryIsInScope | backend/Erp_project/app/Traits/BelongsToTenant.php:18-22 | a scoped read returns exactly the table rows whose company_id equals the caller's, and every row when nobody is logged in |
| Tenancy.PendingRow.Creating | backend/Erp_project/app/Traits/BelongsToTenant.php:24-28 | the `creating` hook sets the row's company_id to the caller's, and keeps the supplied one when nobody is logged in |
| Tenancy.CreatingIgnoresSupplied | backend/Erp_project/app/Traits/BelongsToTenant.php:24-28 | with a caller, the stored company_id is the caller's whatever value was supplied |
| Tenancy.CreatedRowIsVisibleToCreator | backend/Erp_project/app/Traits/BelongsToTenant.php:18-28 | a row created by a caller is always inside that caller's read scope |
| AccountLookup.FirstFrom | backend/Erp_project/app/Observers/Accounting/InvoiceObserver.php:53-59 | the scan returns the first index at or after i whose account matches the query; none before it matches; if none is found, none in the rest matches |
| AccountLookup.First | backend/Erp_project/app/Observers/Accounting/PaymentObserver.php:31-47 | `->first()` returns the first matching account in table order, and none iff no account matches |
| AccountLookup.FoundAccountId | backend/Erp_project/app/Observers/Accounting/PaymentObserver.php:71 | the found account's id is its position in the accounts table |
| AccountLookup.FoundAccountBelongsToDocumentCompany | backend/Erp_project/app/Observers/Accounting/InvoiceObserver.php:53-63 | a found account has the document's company_id and the requested type, and the document's company is in the caller's scope |
| Ledger.EntryPostings | backend/Erp_project/app/Modules/Accounting/Services/TrialBalanceService.php:21-24 | selecting the lines of a set of entries never adds lines |
| Ledger.BalancedEntriesBalance | backend/Erp_project/app/Modules/Accounting/Services/TrialBalanceService.php:21-42 | if every selected entry is balanced, the lines of all selected entries together are balanced |
| Ledger.AccountPostings | backend/Erp_project/app/Modules/Accounting/Services/TrialBalanceService.php:23 | the join with accounts keeps only postings to existing accounts |
| Ledger.SelectedEntries | backend/Erp_project/app/Modules/Accounting/Services/TrialBalanceService.php:24-42 | entry k is selected iff it exists, belongs to the company and its date lies in the inclusive window (a missing bound is no bound) |
| Ledger.PeriodPostingsHaveAccounts | backend/Erp_project/app/Modules/Accounting/Services/TrialBalanceService.php:23 | on well-formed books the inner join with accounts drops no line |
| Ledger.GroupByAccount | backend/Erp_project/app/Modules/Accounting/Services/TrialBalanceService.php:25-33 | the grouped-sum query has one row per account with at least one selected line, carrying the sums of that account's debits and credits |
| Ledger.GroupTotals | backend/Erp_project/app/Modules/Accounting/Services/TrialBalanceService.php:65-66 | the grouped rows' debit and credit columns add up to the sums over all selected lines |
| Ledger.RowsOfType | backend/Erp_project/app/Modules/Accounting/Controllers/AccountingApiController.php:369-397 | the filter keeps exactly the rows of accounts of that type |
| Ledger.AccountsOfTypes | backend/Erp_project/app/Modules/Accounting/Controllers/AccountingApiController.php:369-397 | the `whereIn('type', …)` filter keeps exactly the accounts of the given types |
| Ledger.GroupOfTypes | backend/Erp_project/app/Modules/Accounting/Controllers/AccountingApiController.php:369-397 | grouping only the accounts of some types and then taking one of those types gives the same rows as grouping every account |
| Ledger.NetSumIsDifference | backend/Erp_project/app/Modules/Accounting/Services/TrialBalanceService.php:50 | summing the row balances (debit − credit) gives total debit − total credit |
| Ledger.NetSumByType | backend/Erp_project/app/Modules/Accounting/Controllers/AccountingApiController.php:435-465 | the net balance of all rows splits into the net balances of the five account types |
| Ledger.GroupRowsDistinct | backend/Erp_project/app/Modules/Accounting/Services/TrialBalanceService.php:25-33 | with distinct account ids, the grouped query has at most one row per account |
| Ledger.AccountsOfTypesDistinct | backend/Erp_project/app/Modules/Accounting/Controllers/AccountingApiController.php:369-397 | filtering accounts by type keeps their ids distinct |
| Ledger.RowsOfTypeDistinct | backend/Erp_project/app/Modules/Accounting/Controllers/AccountingApiController.php:369-397 | filtering rows by type keeps their account ids distinct |
| Ledger.RowsOfTypeAll | backend/Erp_project/app/Modules/Accounting/Controllers/AccountingApiController.php:369-397 | filtering rows that are all of one type by that type keeps them all |
| Ledger.RowsOfTypeNet | backend/Erp_project/app/Modules/Accounting/Controllers/AccountingApiController.php:369-397 | the rows of one type, grouped from the accounts of a set of types, net to debit − credit over all postings to accounts of that type |
| Ledger.AppendUnsourcedEntry | backend/Erp_project/app/Modules/Accounting/Controllers/AccountingApiController.php:87-91 | an entry with no invoice source keeps "sources exist" and "no invoice posted twice" |
| Ledger.LedgerDb.InsertTwoLineEntry | backend/Erp_project/app/Observers/Accounting/InvoiceObserver.php:70-95 | inserting an entry and its two balanced line rows keeps the ledger invariant and appends exactly that entry and those rows |
| Ledger.LedgerDb.constructor | backend/Erp_project/app/Observers/Accounting/InvoiceObserver.php:47-50 | the empty ledger satisfies the invariant |
| Ledger.LedgerDb.InsertInvoice | backend/Erp_project/app/Modules/Accounting/Controllers/AccountingApiController.php:155 | inserting an invoice row under the next id keeps the invariant, appends exactly that row and changes nothing else |
| Ledger.LedgerDb.SetInvoiceStatus | backend/Erp_project/app/Modules/Accounting/Controllers/AccountingApiController.php:303 | updating one invoice's status keeps the invariant and changes only that column of that row |
| Ledger.LedgerDb.InsertPayment | backend/Erp_project/app/Modules/Accounting/Controllers/AccountingApiController.php:196 | inserting a payment row under the next id keeps the invariant, appends exactly that row and changes nothing else |
| Ledger.TransferPostings | backend/Erp_project/app/Observers/Accounting/InvoiceObserver.php:79-93 | the two lines of an automatic posting debit one account and credit another with the same amount, so they are balanced (used for invoices, receivable/revenue, and for payments, cash/receivable at PaymentObserver.php:68-82) |
| Ledger.LineRows | backend/Erp_project/app/Modules/Accounting/Controllers/AccountingApiController.php:104-109 | one line row per posting, in order, each with the entry id and the company |
| Ledger.AppendBalancedEntry | backend/Erp_project/app/Modules/Accounting/Controllers/AccountingApiController.php:112-117 | appending the lines of a new, balanced entry keeps every entry balanced |
| Ledger.CommitEntryLines | backend/Erp_project/app/Modules/Accounting/Controllers/AccountingApiController.php:104-117 | committing well-formed, balanced postings as the next entry keeps the line invariants |
| Ledger.CommitUnsourcedEntry | backend/Erp_project/app/Modules/Accounting/Controllers/AccountingApiController.php:83-117 | committing a manual entry with balanced, well-formed lines keeps the whole ledger invariant |
| Ledger.NewEntryPostings | backend/Erp_project/app/Modules/Accounting/Controllers/AccountingApiController.php:113 | the lines read back for the new entry are exactly the posted lines |
| TrialBalance.ToRows | backend/Erp_project/app/Modules/Accounting/Services/TrialBalanceService.php:47-62 | one report row per grouped row, in order |
| TrialBalance.ToRowsSums | backend/Erp_project/app/Modules/Accounting/Services/TrialBalanceService.php:65-66 | the report rows' debit and credit sums equal the grouped rows' sums |
| TrialBalance.Generate | backend/Erp_project/app/Modules/Accounting/Services/TrialBalanceService.php:19-82 | every row has balance = debit − credit and balance_type "debit" iff balance ≥ 0; totals are the column sums; difference = debit − credit; is_balanced iff debit = credit; the period echoes the bounds |
| TrialBalance.RowsAreAccountSums | backend/Erp_project/app/Modules/Accounting/Services/TrialBalanceService.php:21-44 | every row is an existing account with the sums of its selected lines, and every account with a selected line has a row |
| TrialBalance.TotalsAreLineSums | backend/Erp_project/app/Modules/Accounting/Services/TrialBalanceService.php:65-66 | total debit and total credit are the sums over every line of the company's entries in the window |
| TrialBalance.BalancedLedgerGivesBalancedReport | backend/Erp_project/app/Modules/Accounting/Services/TrialBalanceService.php:21-75 | if every entry is balanced, the report over any company and window is balanced with difference 0 |
| TrialBalance.OutsideEntryIsInvisible | backend/Erp_project/app/Modules/Accounting/Services/TrialBalanceService.php:24 | adding an entry of another company, or outside the window, with any lines leaves the report unchanged |
| TrialBalance.OutsideEntryAddsNoPostings | backend/Erp_project/app/Modules/Accounting/Services/TrialBalanceService.php:24-42 | such an entry contributes no line to the selection |
| TrialBalance.SameSelection | backend/Erp_project/app/Modules/Accounting/Services/TrialBalanceService.php:24-42 | such an entry leaves the set of selected entries unchanged |
| TrialBalance.OfKinds | backend/Erp_project/app/Modules/Accounting/Services/TrialBalanceService.php:97 | the rows of a group are exactly the report rows of its types |
| TrialBalance.FirstSeenTypes | backend/Erp_project/app/Modules/Accounting/Services/TrialBalanceService.php:97 | `groupBy('type')` yields each account type present in the rows once, and no other |
| TrialBalance.MakeGroups | backend/Erp_project/app/Modules/Accounting/Services/TrialBalanceService.php:97-104 | one group per type, holding exactly the rows of that type |
| TrialBalance.MakeGroupsTotals | backend/Erp_project/app/Modules/Accounting/Services/TrialBalanceService.php:101-102 | the group totals add up to the sums over the rows of the listed types |
| TrialBalance.GenerateByType | backend/Erp_project/app/Modules/Accounting/Services/TrialBalanceService.php:92-111 | every account in a group has that group's type; group totals are sums over the group's rows; the overall totals are those of the plain report |
| TrialBalance.GroupsAddUpToTotals | backend/Erp_project/app/Modules/Accounting/Services/TrialBalanceService.php:101-108 | the groups' debits and credits add up to the report's totals |
| TrialBalance.EveryRowInItsGroup | backend/Erp_project/app/Modules/Accounting/Services/TrialBalanceService.php:97-104 | every row of the plain report appears in the group of its type |
| AccountingApi.ParseAccountType | backend/Erp_project/app/Modules/Accounting/Controllers/AccountingApiController.php:46 | `Rule::in(Account::TYPES)` accepts a name only if it is the exact name of a type |
| AccountingApi.ParseTypeName | backend/Erp_project/app/Modules/Accounting/Controllers/AccountingApiController.php:46 | every type name is accepted and parsed back to its type |
| AccountingApi.CreateAccount | backend/Erp_project/app/Modules/Accounting/Controllers/AccountingApiController.php:41-54 | on the trimmed code, name and type: the account is created iff the request is valid (a non-empty code no row of the table uses, a name of 1 to 255 characters, a known type); it gets the next id and the caller's company; nothing else changes; the invariant is kept |
| AccountingApi.CodeClashAcrossCompanies | backend/Erp_project/app/Modules/Accounting/Controllers/AccountingApiController.php:44 | a code used by any company's account is refused |
| AccountingApi.FirstLineError | backend/Erp_project/app/Modules/Accounting/Controllers/AccountingApiController.php:94-102 | no line error iff every line passes both checks; otherwise the error is some line's error |
| AccountingApi.LineChecksMeanOneSided | backend/Erp_project/app/Modules/Accounting/Controllers/AccountingApiController.php:96-102 | for non-negative amounts, passing both checks is the same as exactly one of debit and credit being non-zero |
| AccountingApi.EntryAcceptedIff | backend/Erp_project/app/Modules/Accounting/Controllers/AccountingApiController.php:73-115 | an entry is accepted iff it passes validation (at least one line, existing accounts, amounts ≥ 0), every line is one-sided, and the lines balance |
| AccountingApi.OneSidedSumsPositive | backend/Erp_project/app/Modules/Accounting/Controllers/AccountingApiController.php:96-102 | the sums of one-sided lines are non-negative, and positive together for a non-empty entry |
| AccountingApi.CommittedEntryHasBothSides | backend/Erp_project/app/Modules/Accounting/Controllers/AccountingApiController.php:77-115 | an accepted entry has at least two lines: one with a positive debit and another with a positive credit |
| AccountingApi.CreateJournalEntry | backend/Erp_project/app/Modules/Accounting/Controllers/AccountingApiController.php:71-130 | on the trimmed request: on any failure the answer is that failure and no entry or line is left; on success exactly the entry and its line rows are appended; the ledger invariant is kept. Corrected per finding 1: success needs the line sums to balance, where the code as written rolls back every entry (`AccountingApi.AsWrittenNeverCommits`) |
| AccountingApi.InsertLines | backend/Erp_project/app/Modules/Accounting/Controllers/AccountingApiController.php:94-110 | the loop reports exactly the first line error; without one it inserts every line row; with one it has inserted the rows before the offending line |
| AccountingApi.JournalEntryOutcomeAsWritten | backend/Erp_project/app/Modules/Accounting/Controllers/AccountingApiController.php:71-130 | the entry endpoint as written always refuses, and refuses as unbalanced exactly the valid requests whose every line passes the one-side checks |
| AccountingApi.AsWrittenRejectsBalancedEntry | backend/Erp_project/app/Modules/Accounting/Controllers/AccountingApiController.php:113-115 | a balanced two-line entry that the intended rule accepts is rejected as unbalanced by the code as written |
| AccountingApi.AsWrittenNeverCommits | backend/Erp_project/app/Modules/Accounting/Controllers/AccountingApiController.php:113-129 | as written, every request is refused, and every request the intended rule refuses is refused for the same reason |
| AccountingApi.AppendInvoiceKeepsSources | backend/Erp_project/app/Modules/Accounting/Controllers/AccountingApiController.php:155 | a new invoice keeps the source invariant and has no journal entry yet |
| AccountingApi.CreateInvoice | backend/Erp_project/app/Modules/Accounting/Controllers/AccountingApiController.php:147-160 | on the trimmed client name and status: the invoice is created iff the request is valid, with the next id and the caller's company; it posts iff it is created, its status is "sent" and the first receivable and revenue accounts are both found, and then exactly the invoice entry and the two lines debiting receivable and crediting revenue by the total are appended; otherwise entries and lines are unchanged. Corrected per finding 2: the stored entry keeps its invoice source |
| AccountingApi.FindInvoice | backend/Erp_project/app/Modules/Accounting/Controllers/AccountingApiController.php:297 | a scoped `findOrFail` returns an invoice of the table that is in the caller's scope and has the requested id |
| AccountingApi.FindInvoiceComplete | backend/Erp_project/app/Modules/Accounting/Controllers/AccountingApiController.php:297 | every invoice in the caller's scope is found by its id |
| AccountingApi.UpdateInvoiceStatus | backend/Erp_project/app/Modules/Accounting/Controllers/AccountingApiController.php:295-310 | 404 before validation of the trimmed status; on success only the status changes; it posts iff the status really changes to "sent", no entry for the invoice exists and both accounts are found, and then exactly the invoice entry and its two lines are appended; `journal_entry_created` is whether the caller sees an entry for the invoice. Corrected per finding 2: the stored entry keeps its invoice source, so the no-entry test sees earlier postings |
| AccountingApi.PaymentAcceptedIff | backend/Erp_project/app/Modules/Accounting/Controllers/AccountingApiController.php:179-194 | a payment is accepted iff it passes validation (the invoice exists in the whole table), the invoice is in the caller's scope, and 0 ≤ amount ≤ invoice total |
| AccountingApi.CreatePayment | backend/Erp_project/app/Modules/Accounting/Controllers/AccountingApiController.php:177-201 | on the trimmed request: a refused payment (422 invalid, 404 out of scope, 422 for an excess amount) creates nothing; an accepted one is appended with the next id and the caller's company; it posts iff the first cash/bank and receivable accounts are both found, and then exactly the payment entry and the lines debiting cash and crediting receivable by the amount are appended; otherwise entries and lines are unchanged |
| InvoiceObserver.InvoiceEntry | backend/Erp_project/app/Observers/Accounting/InvoiceObserver.php:70-77 | the requested entry is dated today, derived from this invoice, visible to the caller who triggered it, filed under the invoice's company whenever that caller can see the invoice, referenced "INV-…" and described with the client name at its end |
| InvoiceObserver.InvoiceReferencesDistinct | backend/Erp_project/app/Observers/Accounting/InvoiceObserver.php:74 | different invoices get different "INV-{id}" references |
| InvoiceObserver.ZeroInvoicePostsEmptyLines | backend/Erp_project/app/Observers/Accounting/InvoiceObserver.php:80-93 | a zero-total invoice posts lines that are not one-sided, which a manual entry would refuse |
| InvoiceObserver.CheckSeesEarlierPosting | backend/Erp_project/app/Observers/Accounting/InvoiceObserver.php:34-38 | once the invoice's entry is stored with its source, the duplicate check finds it |
| InvoiceObserver.CheckMissMeansNoEntry | backend/Erp_project/app/Observers/Accounting/InvoiceObserver.php:34-38 | when the scoped duplicate check finds nothing, no entry for the invoice exists at all |
| InvoiceObserver.InvoiceEntryKeepsSources | backend/Erp_project/app/Observers/Accounting/InvoiceObserver.php:70-77 | posting an invoice that has no entry keeps "no invoice posted twice" |
| InvoiceObserver.PostInvoice | backend/Erp_project/app/Observers/Accounting/InvoiceObserver.php:47-100 | posts iff both the receivable and the revenue account are found; then it appends the entry and the two lines (debit receivable, credit revenue, both the total); otherwise nothing is left behind. Corrected per finding 2: the entry keeps its invoice source |
| InvoiceObserver.Created | backend/Erp_project/app/Observers/Accounting/InvoiceObserver.php:17-23 | posts iff the invoice is "sent" and both accounts are found; then exactly the invoice entry and the two lines debiting receivable and crediting revenue by the total are appended; otherwise entries and lines are unchanged. Corrected per finding 2: the entry keeps its invoice source |
| InvoiceObserver.Updated | backend/Erp_project/app/Observers/Accounting/InvoiceObserver.php:28-42 | posts iff the status changed to "sent", no entry for the invoice exists and both accounts are found; then exactly the invoice entry and its two lines are appended; otherwise entries and lines are unchanged. Corrected per finding 2: the no-entry test sees earlier postings because the entry keeps its source |
| InvoiceObserver.StoredAsWritten | backend/Erp_project/app/Modules/Accounting/Models/JournalEntry.php:15-20 | mass assignment stores the entry without its source and keeps every other field |
| InvoiceObserver.AsWrittenRepostsInvoice | backend/Erp_project/app/Observers/Accounting/InvoiceObserver.php:34-39 | as written, after the first posting the duplicate check still finds nothing, so a second change to "sent" posts a second entry with the same reference |
| PaymentObserver.PaymentDescription | backend/Erp_project/app/Observers/Accounting/PaymentObserver.php:54-57 | "Payment #{id}", followed by " for Invoice #{invoice_id}" exactly when invoice_id is set and not 0 |
| PaymentObserver.PaymentReference | backend/Erp_project/app/Observers/Accounting/PaymentObserver.php:63 | the payment's own reference when it has one, otherwise "PAY-" followed by digits |
| PaymentObserver.PaymentEntry | backend/Erp_project/app/Observers/Accounting/PaymentObserver.php:53-66 | the requested entry is dated on the payment date, is never derived from an invoice, is visible to the caller who triggered it, is filed under the payment's company whenever that caller can see the payment, and carries the payment's reference |
| PaymentObserver.GeneratedReferencesDistinct | backend/Erp_project/app/Observers/Accounting/PaymentObserver.php:63 | payments without a reference get distinct "PAY-{id}" references |
| PaymentObserver.PaymentEntryKeepsSources | backend/Erp_project/app/Observers/Accounting/PaymentObserver.php:59-66 | a payment entry never breaks the invoice-source invariants |
| PaymentObserver.PostPayment | backend/Erp_project/app/Observers/Accounting/PaymentObserver.php:59-84 | appends the payment entry (payment date, description, reference) and the lines debiting cash and crediting receivable, and keeps the invariant |
| PaymentObserver.Created | backend/Erp_project/app/Observers/Accounting/PaymentObserver.php:17-89 | every payment creation tries to post; it posts iff the cash/bank and receivable accounts are both found; otherwise nothing is left behind |
| Reports.FindAccount | backend/Erp_project/app/Modules/Accounting/Controllers/AccountingApiController.php:240 | a scoped `findOrFail` returns an account of the table inside the caller's scope |
| Reports.JoinedFrom | backend/Erp_project/app/Modules/Accounting/Controllers/AccountingApiController.php:247-259 | the joined rows are exactly the account's lines whose entry date lies in the inclusive window, each carrying its entry's date, description and reference |
| Reports.InsertByDate | backend/Erp_project/app/Modules/Accounting/Controllers/AccountingApiController.php:251 | inserting a row into date-ordered rows keeps them ordered, adds exactly that row, and adds its amounts to the sums |
| Reports.SortByDate | backend/Erp_project/app/Modules/Accounting/Controllers/AccountingApiController.php:251 | the result is in ascending date order, is a permutation of its input and keeps the debit and credit sums |
| Reports.AccountLedger | backend/Erp_project/app/Modules/Accounting/Controllers/AccountingApiController.php:238-275 | 404 before 422; the ledger is the selected lines in ascending date order; the totals are their sums and balance = debit − credit |
| Reports.LedgerRowsAreTheSelectedLines | backend/Erp_project/app/Modules/Accounting/Controllers/AccountingApiController.php:247-259 | every ledger row is a line of the account dated inside the window, and every such visible line is a row |
| Reports.AccountLedgerAsWritten | backend/Erp_project/app/Modules/Accounting/Controllers/AccountingApiController.php:238-275 | the ledger as written never succeeds for a logged-in caller; without a caller, and on every answer other than the failed query, it agrees with the intended ledger |
| Reports.AsWrittenLedgerFailsForCallers | backend/Erp_project/app/Modules/Accounting/Controllers/AccountingApiController.php:247-261 | as written, for any logged-in caller the scoped join fails with 500, where the intended query succeeds |
| Reports.InvoicePaymentsMembers | backend/Erp_project/app/Modules/Accounting/Controllers/AccountingApiController.php:287 | the invoice's payments are exactly the visible payments naming it |
| Reports.ShowInvoice | backend/Erp_project/app/Modules/Accounting/Controllers/AccountingApiController.php:280-290 | 404 iff the invoice is not found in scope; has_journal_entry says whether its entry exists; total_paid sums its payments; remaining = total − paid |
| Reports.PaymentLowersRemaining | backend/Erp_project/app/Modules/Accounting/Controllers/AccountingApiController.php:287-288 | a new payment lowers the remaining balance by its amount when it is for the invoice and visible, and leaves it unchanged otherwise |
| Reports.ShowInvoiceAsWritten | backend/Erp_project/app/Modules/Accounting/Controllers/AccountingApiController.php:280-290 | the invoice view as written never succeeds, and answers 404 exactly when the intended view does |
| Reports.AsWrittenShowInvoiceFails | backend/Erp_project/app/Modules/Accounting/Controllers/AccountingApiController.php:282 | as written, every invoice the caller can see answers 500, where the intended relations answer 200 |
| Reports.VisibleLines | backend/Erp_project/app/Modules/Accounting/Controllers/AccountingApiController.php:317 | the entry's lines as the caller reads them are exactly the lines in the caller's scope |
| Reports.ShowJournalEntry | backend/Erp_project/app/Modules/Accounting/Controllers/AccountingApiController.php:315-328 | found iff the entry exists in scope; total_debits and total_credits are the sums of its lines; is_balanced iff they are equal; difference is their difference |
| Reports.ShownEntryIsBalanced | backend/Erp_project/app/Modules/Accounting/Controllers/AccountingApiController.php:322-325 | on a ledger whose entries all balance, a shown entry whose lines are all visible reports is_balanced with difference 0 |
| Reports.StatementLines | backend/Erp_project/app/Modules/Accounting/Controllers/AccountingApiController.php:369-397 | one report line per account row; the amount is credit − debit on credit-normal accounts and debit − credit on the others |
| Reports.StatementTotal | backend/Erp_project/app/Modules/Accounting/Controllers/AccountingApiController.php:388-397 | the report lines add up to the (signed) net of the rows |
| Reports.KindLines | backend/Erp_project/app/Modules/Accounting/Controllers/AccountingApiController.php:369-397 | the report lines of one account type are exactly that type's accounts with a posting, each once, and they add up to the signed net of all postings to accounts of that type |
| Reports.KindLinesComplete | backend/Erp_project/app/Modules/Accounting/Controllers/AccountingApiController.php:369-397 | every account of the type with a posting in the period has a report line |
| Reports.IncomeReportOf | backend/Erp_project/app/Modules/Accounting/Controllers/AccountingApiController.php:345-403 | over the window's postings: the revenue lines are exactly the Revenue accounts with a posting, each once, at credit − debit, and total revenue is the credit − debit of all Revenue postings; the expense lines likewise at debit − credit; net income = total revenue − total expenses |
| Reports.IncomeStatement | backend/Erp_project/app/Modules/Accounting/Controllers/AccountingApiController.php:333-403 | 422 iff the window is unordered; otherwise the income report of the caller's company |
| Reports.BalanceSheet | backend/Erp_project/app/Modules/Accounting/Controllers/AccountingApiController.php:408-469 | up to the as-of date (default today): the asset, liability and equity lines are exactly the accounts of that type with a posting, each once, assets at debit − credit and the others at credit − debit; each total is the line sum and the signed net of all postings of that type; is_balanced iff assets = liabilities + equity |
| Reports.BalanceSheetGapIsNetIncome | backend/Erp_project/app/Modules/Accounting/Controllers/AccountingApiController.php:435-465 | on a balanced ledger, assets − (liabilities + equity) is the net income up to the as-of date |
| Reports.BalanceSheetBalancedIffNoEarnings | backend/Erp_project/app/Modules/Accounting/Controllers/AccountingApiController.php:460-465 | as written, the balance sheet is balanced iff net income to date is 0 |
| Reports.BalanceSheetWithEarnings | backend/Erp_project/app/Modules/Accounting/Controllers/AccountingApiController.php:408-469 | the same sheet, with current earnings on the equity side; balanced iff assets = liabilities + equity + earnings |
| Reports.ClosedBalanceSheetBalances | backend/Erp_project/app/Modules/Accounting/Controllers/AccountingApiController.php:435-465 | on a ledger whose entries all balance, the sheet with current earnings is always balanced |
| Core.ParsePivotStatus | backend/Erp_project/app/Http/Controllers/SuperAdminController.php:146 | `in:active,inactive` accepts exactly those two words, and only "active" means active |
| Core.ModuleByKey | backend/Erp_project/app/Http/Middleware/CheckModuleAccess.php:39-43 | the module found has the key; none is found iff no module has it |
| Core.ModuleIdsFor | backend/Erp_project/app/Http/Controllers/SuperAdminController.php:106 | `whereIn('key', …)->pluck('id')` contains the id of every module whose key is listed, and only ids of such modules |
| Core.PivotFor | backend/Erp_project/app/Http/Controllers/SuperAdminController.php:154-157 | the pivot found is in the table for that company and module; none is found iff there is none |
| Core.AddUserKeepsEmailsUnique | backend/Erp_project/app/Http/Controllers/Core/UserController.php:66 | adding a user whose e-mail passed `unique:users,email` keeps e-mails unique |
| Core.UniquePivotCount | backend/Erp_project/app/Http/Controllers/SuperAdminController.php:154-169 | with unique pivots, a pair has at most one pivot, and exactly one iff one is found |
| Core.CoreDb.constructor | backend/Erp_project/app/Http/Controllers/Core/CompanyRegistrationController.php:19-28 | an empty core database over a module catalogue satisfies the invariant |
| Core.ActivePivots | backend/Erp_project/app/Http/Controllers/SuperAdminController.php:108-111 | one 'active' pivot per module id, in order |
| Core.ModuleIdsIncreasing | backend/Erp_project/app/Http/Controllers/SuperAdminController.php:106 | the plucked module ids are strictly increasing and are ids of existing modules, so the attach creates no duplicate |
| Core.AttachToFreshCompany | backend/Erp_project/app/Http/Controllers/SuperAdminController.php:105-116 | attaching the requested modules to a new company keeps the pivots valid and unique |
| Core.SetStatus | backend/Erp_project/app/Http/Controllers/Core/CompanyRegistrationController.php:123-125 | `updateExistingPivot` rewrites the status of every pivot of the pair and nothing else |
| Core.SetStatusPivotFor | backend/Erp_project/app/Http/Controllers/Core/CompanyRegistrationController.php:123-125 | after the update, the pair's pivot exists iff it did before and has the new status; other pairs are unchanged |
| Core.SetStatusKeepsPivotsValid | backend/Erp_project/app/Http/Controllers/Core/CompanyRegistrationController.php:123-125 | the update keeps the pivots valid and unique |
| Core.UpsertEffect | backend/Erp_project/app/Http/Controllers/SuperAdminController.php:154-169 | after update-or-attach, exactly one pivot of the pair exists with the requested status, the table stays valid, and every other pair is unchanged |
| Core.ActiveModuleRows | backend/Erp_project/app/Http/Controllers/SuperAdminController.php:108-111 | the `foreach` that builds `$modulesData` yields one 'active' row per module id |
| Core.ActivePivotsAppend | backend/Erp_project/app/Http/Controllers/SuperAdminController.php:109-111 | one more loop step adds one 'active' row for the next id |
| Core.OpenCompany | backend/Erp_project/app/Http/Controllers/SuperAdminController.php:74-136 | 422 on invalid input (a blank module key is refused, as null matches no key); 500 with everything rolled back if a write fails; otherwise an active company, an ADMIN user of that company and an 'active' pivot per requested module are added, and nothing else changes |
| Core.OpenedTablesValid | backend/Erp_project/app/Http/Controllers/Core/CompanyRegistrationController.php:34-57 | the company, its admin and its pivots together keep the core invariant |
| Core.OpenedCompanyHasItsModules | backend/Erp_project/app/Http/Controllers/SuperAdminController.php:105-116 | every requested, existing module has an 'active' pivot for the new company |
| Core.OpenedCompanyHasOnlyItsModules | backend/Erp_project/app/Http/Controllers/SuperAdminController.php:105-116 | every pivot of the new company is for an existing module whose key was requested |
| Core.BlankModuleKeyRefused | backend/Erp_project/app/Http/Controllers/Core/CompanyRegistrationController.php:26-27 | a module key sent blank reaches `exists:modules,key` as null, which names no module, so the request is refused |
| ModuleAccess.CheckModuleAccess | backend/Erp_project/app/Http/Middleware/CheckModuleAccess.php:19-55 | 403 unauthenticated; super admins pass; 403 without a company; 404 for an unknown key; otherwise the request passes iff the company's pivot for the module is 'active' |
| ModuleAccess.OtherCompaniesPivotsIrrelevant | backend/Erp_project/app/Http/Middleware/CheckModuleAccess.php:46-48 | the decision depends only on the caller's company's pivots |
| ModuleAccess.MemberPassesIffPivotActive | backend/Erp_project/app/Http/Middleware/CheckModuleAccess.php:46-54 | with unique pivots, a member passes iff the one pivot of their company for the module is 'active' |
| ModuleAccess.NewCompanyAdminPasses | backend/Erp_project/app/Http/Middleware/CheckModuleAccess.php:19-55 | the admin of a newly opened company passes for each requested module |
| ModuleAccess.UpsertDecidesAccess | backend/Erp_project/app/Http/Middleware/CheckModuleAccess.php:46-54 | after the super admin's toggle, a member passes iff the new status is 'active' |
| TrialBalanceController.ResolveCompany | backend/Erp_project/app/Modules/Accounting/Controllers/TrialBalanceController.php:35-41 | a super admin who names a company gets it; anyone else gets their own company, if any |
| TrialBalanceController.Index | backend/Erp_project/app/Modules/Accounting/Controllers/TrialBalanceController.php:23-60 | 422 iff invalid (unordered window, unknown company); 400 iff no company resolves; otherwise the grouped or the plain report of the resolved company |
| TrialBalanceController.OrdinaryCallerGetsOwnCompany | backend/Erp_project/app/Modules/Accounting/Controllers/TrialBalanceController.php:37-38 | whatever company an ordinary caller names, the report is their own company's |
| TrialBalanceController.OtherCompanyEntryIsInvisible | backend/Erp_project/app/Modules/Accounting/Controllers/TrialBalanceController.php:35-57 | another company's new entry never changes an ordinary caller's report |
| TrialBalanceController.ProducedReportIsBalanced | backend/Erp_project/app/Modules/Accounting/Controllers/TrialBalanceController.php:53-57 | on a ledger whose entries all balance, every report the endpoint produces is balanced |
| Users.Index | backend/Erp_project/app/Http/Controllers/Core/UserController.php:19-35 | the listing holds exactly the users that are not deleted and that the caller may manage (all for a super admin, their company's otherwise) |
| Users.FindUser | backend/Erp_project/app/Http/Controllers/Core/UserController.php:43 | `findOrFail` returns a user of the table with that id that is not deleted |
| Users.Show | backend/Erp_project/app/Http/Controllers/Core/UserController.php:40-55 | 404 iff there is no such user; 403 iff an ordinary caller asks for another company's user; otherwise that user |
| Users.ShowAgreesWithIndex | backend/Erp_project/app/Http/Controllers/Core/UserController.php:19-55 | a caller can view a user iff that user is on the caller's list |
| Users.Store | backend/Erp_project/app/Http/Controllers/Core/UserController.php:60-98 | on the trimmed name, e-mail and role: 422 first, including a role that is not one of the three names; 403 for another company or a super-admin role from an ordinary caller; otherwise the user is appended with the next id, and e-mails stay unique |
| Users.UpdateKeepsEmailsUnique | backend/Erp_project/app/Http/Controllers/Core/UserController.php:117 | an e-mail that passes `unique` while ignoring the user's own row keeps e-mails unique |
| Users.Update | backend/Erp_project/app/Http/Controllers/Core/UserController.php:103-148 | on the trimmed fields (one sent blank is refused, and a role must be one of the three names): 404, then 403, then 422, then the two role/company rules; on success only the given fields of that user change |
| Users.OrdinaryUpdateStaysInCompany | backend/Erp_project/app/Http/Controllers/Core/UserController.php:124-135 | after an ordinary caller's update, the user is still in the caller's company and is a super admin only if already one |
| Users.Destroy | backend/Erp_project/app/Http/Controllers/Core/UserController.php:153-177 | 404, 403 for another company, 403 for the caller's own account; otherwise only that user is marked deleted |
| SuperAdmin.ListCompanies | backend/Erp_project/app/Http/Controllers/SuperAdminController.php:19-35 | a super admin sees every company; anyone else sees exactly their own company |
| SuperAdmin.ShowCompany | backend/Erp_project/app/Http/Controllers/SuperAdminController.php:40-56 | 403 for an ordinary caller asking for another id (with PHP's loose comparison); otherwise the company with that id, or 404 |
| SuperAdmin.ShownCompanyIsListed | backend/Erp_project/app/Http/Controllers/SuperAdminController.php:19-56 | a company the caller can view is on the caller's company list |
| SuperAdmin.Subdomain | backend/Erp_project/app/Http/Controllers/SuperAdminController.php:91 | same length as the name; each space becomes '-' and each ASCII capital its lower-case letter |
| SuperAdmin.SubdomainIsSlug | backend/Erp_project/app/Http/Controllers/SuperAdminController.php:91 | the subdomain has no space and no capital, and applying the rule again changes nothing |
| SuperAdmin.CreateCompany | backend/Erp_project/app/Http/Controllers/SuperAdminController.php:74-136 | as Core.OpenCompany on the trimmed request, with the subdomain derived from the trimmed name |
| SuperAdmin.ToggleModule | backend/Erp_project/app/Http/Controllers/SuperAdminController.php:141-182 | on the trimmed key and status: 422 unless company, key and status are valid; otherwise exactly one pivot of the pair exists, with the requested status, and every other pair is unchanged |
| Registration.Register | backend/Erp_project/app/Http/Controllers/Core/CompanyRegistrationController.php:19-75 | as Core.OpenCompany on the trimmed request, with no subdomain: an active company, an ADMIN user and 'active' pivots, or everything rolled back |
| Registration.AssignModules | backend/Erp_project/app/Http/Controllers/Core/CompanyRegistrationController.php:80-108 | on the trimmed keys: 404 for a missing company, then 422 (an empty list or an unknown or blank key); otherwise every listed module's pivot for the company is 'active', and every other pivot is unchanged (nothing is detached) |
| Registration.SyncWithoutDetaching | backend/Erp_project/app/Http/Controllers/Core/CompanyRegistrationController.php:95 | after the loop, each given module has an 'active' pivot for the company and all other pairs are as before |
| Registration.SyncStep | backend/Erp_project/app/Http/Controllers/Core/CompanyRegistrationController.php:95 | one more upsert extends the loop invariant by one module |
| Registration.ToggleModule | backend/Erp_project/app/Http/Controllers/Core/CompanyRegistrationController.php:113-137 | on the trimmed key and status: 404, then 422 for an unknown key or status; no pivot is ever added or removed; an existing pivot gets the status; all other pairs are unchanged |

## Left out

- Passwords, `Hash::make`, the `confirmed` rule and `Password::defaults()` are not modelled. Sanctum tokens and e-mail syntax (`email`) are not modelled either.
- `Log::error` is not modelled; the observers return whether they posted instead.
- `now()` and the request clock are a `today` parameter.
- The keyword match of SQL `LIKE` is an abstract `Matcher` parameter, because its case sensitivity depends on the database collation.
- Eager-loaded relations in responses (`with('company')`, `load('modules')`, `lines.account`) are not modelled; responses carry the row values only.
- Decimal casts and `(float)` conversions are replaced by integer cents, so rounding to two decimals is the identity.
- AccountingApi.CreateJournalEntry, AccountingApi.CreatePayment, AccountingApi.CreateInvoice, Core.OpenCompany: a new row's id is modelled as the table length + 1. PostgreSQL sequences are not rolled back with a transaction, so after a rolled-back insert the real ids skip values; the model does not capture those gaps.
- A failing SQL write inside a transaction is the `fails` parameter of the company-opening methods. The model does not say which write fails.
- Row order of `GROUP BY`, `groupBy('type')` and `first()` without `orderBy` is taken to be table order. The order among ledger rows with the same date is left open (any date-ordered permutation).
- The listing endpoints `accounts`, `journalEntries`, `invoices` and `payments` are not modelled. Each is a scoped read, which `Tenancy.ScopedQueryIsInScope` states.
- The controller's own `trialBalance` is not modelled either: it calls the same service as `TrialBalanceController.Index` with the caller's company.
- `myCompany` is not modelled.
- Soft deletes of ledger rows and `SoftDeleteWithUser`'s deleting hook are not modelled. Users carry a `deleted` mark. Soft deletes on `company_modules` are not modelled.
- Route registration is not modelled: some handlers modelled here are not mounted by the route files.
- App\Models\User is not part of this model. The caller's role test `isSuperAdmin` is taken to be "role is SUPER_ADMIN".
- App\Constants\Roles is not part of this model. `Tenancy.RoleName` takes the three constants to be "user", "admin" and "super_admin", the values the front end sends.
- Users.Index: the listed users carry no company relation (`with('company')`).
- AccountingApi.CreateAccount: the validation covers the code (`unique:accounts,code`), the name length and the type. `string` checks on non-string input are not modelled.
- AccountingApi.UpdateInvoiceStatus: returns the response the evidently intended relations would give. As written, `fresh(['journalEntry.lines.account', 'payments'])` at AccountingApiController.php:306 refers to relations Invoice.php does not define. So, like `showInvoice` (finding 5), the response fails after the status change and any posting have been saved.
- Reports.ShowJournalEntry: the `total_debits`, `total_credits` and `is_balanced` accessors are not defined by JournalEntry.php:11-32. The model defines them as the sums of the entry's lines and whether those sums are equal, which is what the response evidently means.
- PaymentObserver.PaymentEntry: the entry keeps its payment source in the model. As written, `source_type`/`source_id` are dropped by mass assignment just as for invoices (finding 2). Nothing in the core reads a payment's source.

## Findings

| source | as written | input that shows it | evidently intended | confidence | as-written member | corrected member |
|---|---|---|---|---|---|---|
| backend/Erp_project/app/Modules/Accounting/Controllers/AccountingApiController.php:113-115 | `$entry->is_balanced` reads an attribute the JournalEntry model does not define, so it is null and every entry is rolled back with 422 | lines [debit 100.00 to account 1, credit 100.00 to account 2] | accept an entry whose debits equal its credits | not executed | AccountingApi.AsWrittenRejectsBalancedEntry | AccountingApi.EntryAcceptedIff |
| backend/Erp_project/app/Observers/Accounting/InvoiceObserver.php:75-76 | `source_type`/`source_id` are not in JournalEntry's `$fillable` (JournalEntry.php:15-20), so they are dropped and the duplicate check at lines 34-38 never finds the earlier entry | an invoice changed draft → sent → draft → sent | post at most one entry per invoice | not executed | InvoiceObserver.AsWrittenRepostsInvoice | InvoiceObserver.CheckSeesEarlierPosting |
| backend/Erp_project/app/Modules/Accounting/Controllers/AccountingApiController.php:435-465 | the balance sheet compares assets with liabilities + equity without the period's earnings, so `is_balanced` is false whenever net income is not 0 | one sent invoice of 100.00 (receivable +100, revenue +100): assets 100, liabilities + equity 0 | a balanced ledger gives a balanced sheet | not executed | Reports.BalanceSheetBalancedIffNoEarnings | Reports.ClosedBalanceSheetBalances |
| backend/Erp_project/app/Modules/Accounting/Controllers/AccountingApiController.php:247-251 | the tenant scope adds an unqualified `company_id` condition to a query joining `journal_entries`, which also has `company_id`, so the column is ambiguous and the query fails (500) for every logged-in caller | any logged-in caller asking for the ledger of one of their accounts | the lines of the account within the window | not executed | Reports.AsWrittenLedgerFailsForCallers | Reports.LedgerRowsAreTheSelectedLines |
| backend/Erp_project/app/Modules/Accounting/Controllers/AccountingApiController.php:282 | `Invoice::with(['journalEntry.lines.account', 'payments'])` names relations that Invoice.php:10-26 does not define, so loading fails (500) | any invoice the caller can see | the invoice with its posting flag, total paid and remaining balance | not executed | Reports.AsWrittenShowInvoiceFails | Reports.PaymentLowersRemaining |
