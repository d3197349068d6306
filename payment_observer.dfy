/** PaymentObserver: every new payment is posted as a two-line entry
    (debit cash or bank, credit receivable) inside a transaction that rolls
    back and is only logged when an account is missing. */
module PaymentObserver {
  import opened Common
  import opened Tenancy
  import opened Ledger
  import opened AccountLookup

  /** "Payment #id", followed by " for Invoice #n" when the payment names a
      (truthy) invoice id. */
  function PaymentDescription(p: Payment): (s: string)
    ensures var base := "Payment #" + NatToString(p.id);
            && |s| >= |base| && s[..|base|] == base
            && (p.invoiceId.Some? && p.invoiceId.value != 0 <==> |s| > |base|)
            && (|s| > |base| ==> s[|base|..] == " for Invoice #" + NatToString(p.invoiceId.value))
  {
    var base := "Payment #" + NatToString(p.id);
    if p.invoiceId.Some? && p.invoiceId.value != 0 then
      base + " for Invoice #" + NatToString(p.invoiceId.value)
    else
      base
  }

  /** The payment's own reference, or "PAY-id" when it has none. */
  function PaymentReference(p: Payment): (r: string)
    ensures p.reference.Some? ==> r == p.reference.value
    ensures p.reference.None? ==> |r| > 4 && r[..4] == "PAY-" && forall i :: 4 <= i < |r| ==> IsDigit(r[i])
  {
    p.reference.GetOr("PAY-" + NatToString(p.id))
  }

  /** Two payments without a reference of their own never share the
      generated one. */
  lemma GeneratedReferencesDistinct(p: Payment, q: Payment)
    requires p.reference.None? && q.reference.None?
    requires p.id != q.id
    ensures PaymentReference(p) != PaymentReference(q)
  {
    if PaymentReference(p) == PaymentReference(q) {
      PrefixedInjective("PAY-", p.id, q.id);
    }
  }

  /** The entry the observer asks for: dated on the payment date, never
      derived from an invoice, visible to the caller who triggered it, and
      filed under the payment's company whenever that caller can see the
      payment. */
  function PaymentEntry(auth: Auth, p: Payment): (e: JournalEntry)
    ensures e.date == p.paymentDate
    ensures InvoiceOf(e.source) == 0
    ensures InScope(auth, e.companyId)
    ensures InScope(auth, p.companyId) ==> e.companyId == p.companyId
    ensures e.reference == Some(PaymentReference(p))
  {
    JournalEntry(
      AssignedCompany(auth, p.companyId),
      p.paymentDate,
      PaymentDescription(p),
      Some(PaymentReference(p)),
      Some(PaymentSource(p.id)))
  }

  /** A payment entry never claims an invoice as its source. */
  lemma PaymentEntryKeepsSources(es: seq<JournalEntry>, invs: seq<Invoice>, auth: Auth, p: Payment)
    requires InvoiceSourcesValid(es, invs) && InvoicePostedAtMostOnce(es)
    ensures InvoiceSourcesValid(es + [PaymentEntry(auth, p)], invs)
    ensures InvoicePostedAtMostOnce(es + [PaymentEntry(auth, p)])
  {
    var es2 := es + [PaymentEntry(auth, p)];
    assert forall i :: 0 <= i < |es| ==> es2[i] == es[i];
    assert InvoiceOf(es2[|es|].source) == 0;
  }

  /** `createJournalEntry(Payment)` once both accounts are found: the
      entry and its two lines, committed together. */
  method PostPayment(db: LedgerDb, auth: Auth, p: Payment, cash: Account, receivable: Account)
    requires db.Valid()
    requires p in db.payments && cash in db.accounts && receivable in db.accounts
    modifies db
    ensures db.Valid()
    ensures db.accounts == old(db.accounts) && db.invoices == old(db.invoices) && db.payments == old(db.payments)
    ensures db.entries == old(db.entries) + [PaymentEntry(auth, p)]
    ensures db.lines == old(db.lines) + LineRows(|old(db.entries)| + 1, AssignedCompany(auth, None),
                                                 TransferPostings(cash.id, receivable.id, p.amount))
  {
    assert 1 <= cash.id <= |db.accounts| by {
      var k :| 0 <= k < |db.accounts| && db.accounts[k] == cash;
    }
    assert 1 <= receivable.id <= |db.accounts| by {
      var k :| 0 <= k < |db.accounts| && db.accounts[k] == receivable;
    }
    assert p.amount >= 0 by {
      var k :| 0 <= k < |db.payments| && db.payments[k] == p;
    }
    var ps := TransferPostings(cash.id, receivable.id, p.amount);
    assert PostingsWellFormed(ps, |db.accounts|);
    PaymentEntryKeepsSources(db.entries, db.invoices, auth, p);
    db.InsertTwoLineEntry(PaymentEntry(auth, p), AssignedCompany(auth, None), ps);
  }

  /** `created`: no status condition, every payment is attempted. */
  method Created(db: LedgerDb, auth: Auth, p: Payment, like: Matcher) returns (posted: bool)
    requires db.Valid()
    requires p in db.payments
    modifies db
    ensures db.Valid()
    ensures db.accounts == old(db.accounts) && db.invoices == old(db.invoices) && db.payments == old(db.payments)
    ensures var cash := First(old(db.accounts), auth, CashFilter(p.companyId), like);
            var rec := First(old(db.accounts), auth, ReceivableFilter(p.companyId), like);
            && (posted <==> cash.Some? && rec.Some?)
            && (!posted ==> db.entries == old(db.entries) && db.lines == old(db.lines))
            && (posted ==>
                  && db.entries == old(db.entries) + [PaymentEntry(auth, p)]
                  && db.lines == old(db.lines) + LineRows(|old(db.entries)| + 1, AssignedCompany(auth, None),
                                                          TransferPostings(cash.value.id, rec.value.id, p.amount)))
  {
    var cash := First(db.accounts, auth, CashFilter(p.companyId), like);
    var receivable := First(db.accounts, auth, ReceivableFilter(p.companyId), like);
    if cash.None? || receivable.None? {
      // Caught, rolled back (nothing was written yet) and logged.
      return false;
    }
    PostPayment(db, auth, p, cash.value, receivable.value);
    posted := true;
  }
}
