/** TrialBalanceController::index: validates the window, decides whose
    books the report reads, and picks the plain or the grouped report. */
module TrialBalanceController {
  import opened Common
  import opened Tenancy
  import opened Ledger
  import opened TrialBalance

  datatype TrialBalanceRequest = TrialBalanceRequest(
    start: Option<Date>,
    end: Option<Date>,
    grouped: Option<bool>,
    companyId: Option<nat>)

  datatype Outcome =
    | Invalid                        // 422
    | NoCompany                      // 400 'No company specified'
    | Plain(report: Report)          // 200
    | ByType(grouped: GroupedReport) // 200

  function OutcomeStatus(o: Outcome): int {
    match o
    case Invalid => 422
    case NoCompany => 400
    case _ => 200
  }

  /** The validation rules: the window is ordered and a requested company
      exists (in the whole companies table). */
  predicate RequestValid(companyCount: nat, req: TrialBalanceRequest) {
    && DateRangeValid(req.start, req.end)
    && (req.companyId.Some? ==> 1 <= req.companyId.value <= companyCount)
  }

  /** The company whose report is produced: the requested one for a super
      admin who names one, the caller's own for everyone else, none without
      a caller. */
  function ResolveCompany(auth: Auth, requested: Option<nat>): (r: Option<nat>)
    ensures auth.None? ==> r.None?
    ensures auth.Some? && IsSuperAdmin(auth.value) && requested.Some? ==> r == requested
    ensures auth.Some? && !(IsSuperAdmin(auth.value) && requested.Some?) ==>
              (r.Some? <==> auth.value.companyId.Some?) && (r.Some? ==> r.value == auth.value.companyId.value)
  {
    if auth.Some? && IsSuperAdmin(auth.value) && requested.Some? then requested
    else if auth.Some? then (if auth.value.companyId.Some? then Some(auth.value.companyId.value as nat) else None)
    else None
  }

  /** `index`. */
  function Index(b: Books, companyCount: nat, auth: Auth, req: TrialBalanceRequest): (r: Outcome)
    ensures !RequestValid(companyCount, req) <==> r == Invalid
    ensures RequestValid(companyCount, req) ==>
              var c := ResolveCompany(auth, req.companyId);
              && (r == NoCompany <==> c.None? || c.value == 0)
              && (c.Some? && c.value > 0 && req.grouped.GetOr(false) ==>
                    r == ByType(GenerateByType(b, c.value, req.start, req.end)))
              && (c.Some? && c.value > 0 && !req.grouped.GetOr(false) ==>
                    r == Plain(Generate(b, c.value, req.start, req.end)))
  {
    if !RequestValid(companyCount, req) then Invalid
    else
      var c := ResolveCompany(auth, req.companyId);
      if c.None? || c.value == 0 then NoCompany
      else if req.grouped.GetOr(false) then ByType(GenerateByType(b, c.value, req.start, req.end))
      else Plain(Generate(b, c.value, req.start, req.end))
  }

  /** Whatever company a caller who is not a super admin names, the report
      they get reads their own company's entries. */
  lemma OrdinaryCallerGetsOwnCompany(b: Books, companyCount: nat, u: Caller, req: TrialBalanceRequest)
    requires !IsSuperAdmin(u)
    requires Index(b, companyCount, Some(u), req).Plain?
    ensures u.companyId.Some?
    ensures Index(b, companyCount, Some(u), req).report == Generate(b, u.companyId.value, req.start, req.end)
  {
  }

  /** An entry of another company never shows in an ordinary caller's
      report, however its lines look. */
  lemma OtherCompanyEntryIsInvisible(b: Books, companyCount: nat, u: Caller, req: TrialBalanceRequest, e: JournalEntry, rows: seq<JournalLine>)
    requires !IsSuperAdmin(u)
    requires u.companyId.Some? && e.companyId != u.companyId
    requires forall i :: 0 <= i < |rows| ==> rows[i].entryId == |b.entries| + 1
    ensures Index(Books(b.accounts, b.entries + [e], b.lines + rows), companyCount, Some(u), req) == Index(b, companyCount, Some(u), req)
  {
    var c := u.companyId.value;
    OutsideEntryIsInvisible(b, e, rows, c, req.start, req.end);
  }

  /** A report produced over a ledger whose entries all balance is
      balanced, grouped or not. */
  lemma ProducedReportIsBalanced(b: Books, companyCount: nat, auth: Auth, req: TrialBalanceRequest)
    requires WellFormedBooks(b) && AllEntriesBalanced(|b.entries|, b.lines)
    ensures Index(b, companyCount, auth, req).Plain? ==> Index(b, companyCount, auth, req).report.totals.isBalanced
    ensures Index(b, companyCount, auth, req).ByType? ==> Index(b, companyCount, auth, req).grouped.totals.isBalanced
  {
    var c := ResolveCompany(auth, req.companyId);
    if RequestValid(companyCount, req) && c.Some? && c.value > 0 {
      BalancedLedgerGivesBalancedReport(b, c.value, req.start, req.end);
    }
  }
}
