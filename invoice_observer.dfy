/** InvoiceObserver: posts a sent invoice as a two-line entry (debit
    receivable, credit revenue) inside a transaction that rolls back and is
    only logged when an account is missing. */
module InvoiceObserver {
  import opened Common
  import opened Tenancy
  import opened Ledger
  import opened AccountLookup

  /** The entry the observer asks for: dated today, derived from this
      invoice, visible to the caller who triggered it, and filed under the
      invoice's company whenever that caller can see the invoice. */
  function InvoiceEntry(auth: Auth, inv: Invoice, today: Date): (e: JournalEntry)
    ensures e.date == today
    ensures InvoiceOf(e.source) == inv.id
    ensures InScope(auth, e.companyId)
    ensures InScope(auth, inv.companyId) ==> e.companyId == inv.companyId
    ensures e.reference.Some? && |e.reference.value| > 4 && e.reference.value[..4] == "INV-"
    ensures |e.description| >= |inv.clientName| && e.description[|e.description| - |inv.clientName|..] == inv.clientName
  {
    JournalEntry(
      AssignedCompany(auth, inv.companyId),
      today,
      "Invoice #" + NatToString(inv.id) + " - " + inv.clientName,
      Some(InvoiceReference(inv.id)),
      Some(InvoiceSource(inv.id)))
  }

  function InvoiceReference(id: nat): string {
    "INV-" + NatToString(id)
  }

  /** Distinct invoices get distinct references. */
  lemma InvoiceReferencesDistinct(m: nat, n: nat)
    requires m != n
    ensures InvoiceReference(m) != InvoiceReference(n)
  {
    if InvoiceReference(m) == InvoiceReference(n) {
      PrefixedInjective("INV-", m, n);
    }
  }

  /** A zero-total invoice is still posted, with two lines that carry no
      amount on either side: lines the journal-entry endpoint would refuse. */
  lemma ZeroInvoicePostsEmptyLines(receivable: nat, revenue: nat)
    ensures forall p :: p in TransferPostings(receivable, revenue, 0) ==> !OneSided(p)
  {
  }

  predicate NoEntryFor(es: seq<JournalEntry>, id: nat) {
    forall i :: 0 <= i < |es| ==> InvoiceOf(es[i].source) != id
  }

  /** The duplicate check of `updated`: a scoped query for an entry whose
      source is this invoice. */
  predicate HasInvoiceEntry(es: seq<JournalEntry>, auth: Auth, id: nat) {
    exists i | 0 <= i < |es| :: es[i].source == Some(InvoiceSource(id)) && InScope(auth, es[i].companyId)
  }

  /** With sources stored, a posting is seen by the next duplicate check. */
  lemma CheckSeesEarlierPosting(es: seq<JournalEntry>, auth: Auth, inv: Invoice, today: Date)
    requires InScope(auth, inv.companyId)
    ensures HasInvoiceEntry(es + [InvoiceEntry(auth, inv, today)], auth, inv.id)
  {
    var es2 := es + [InvoiceEntry(auth, inv, today)];
    assert es2[|es|] == InvoiceEntry(auth, inv, today);
  }

  /** In a valid ledger a check that finds nothing means there is no entry
      for the invoice at all, not only none in scope. */
  lemma CheckMissMeansNoEntry(es: seq<JournalEntry>, invs: seq<Invoice>, auth: Auth, inv: Invoice)
    requires InvoicesWellFormed(invs) && InvoiceSourcesValid(es, invs)
    requires inv in invs
    requires InScope(auth, inv.companyId)
    requires !HasInvoiceEntry(es, auth, inv.id)
    ensures NoEntryFor(es, inv.id)
  {
    var k :| 0 <= k < |invs| && invs[k] == inv;
    assert inv.id == k + 1;
  }

  /** Appending the posting of an invoice that had no entry keeps every
      invoice entry tied to its invoice and at most one per invoice. */
  lemma InvoiceEntryKeepsSources(es: seq<JournalEntry>, invs: seq<Invoice>, auth: Auth, inv: Invoice, today: Date)
    requires InvoicesWellFormed(invs) && InvoiceSourcesValid(es, invs) && InvoicePostedAtMostOnce(es)
    requires inv in invs
    requires InScope(auth, inv.companyId)
    requires NoEntryFor(es, inv.id)
    ensures InvoiceSourcesValid(es + [InvoiceEntry(auth, inv, today)], invs)
    ensures InvoicePostedAtMostOnce(es + [InvoiceEntry(auth, inv, today)])
  {
    var k :| 0 <= k < |invs| && invs[k] == inv;
    assert inv.id == k + 1;
    var es2 := es + [InvoiceEntry(auth, inv, today)];
    forall i | 0 <= i < |es2| && InvoiceOf(es2[i].source) != 0
      ensures InvoiceOf(es2[i].source) <= |invs|
      ensures es2[i].companyId == invs[InvoiceOf(es2[i].source) - 1].companyId
    {
      if i < |es| {
        assert es2[i] == es[i];
      }
    }
    forall i, j | 0 <= i < j < |es2| && InvoiceOf(es2[i].source) != 0
      ensures InvoiceOf(es2[j].source) != InvoiceOf(es2[i].source)
    {
      assert es2[i] == es[i];
      if j < |es| {
        assert es2[j] == es[j];
      }
    }
  }

  /** `createJournalEntry(Invoice)`.  The invoice is in the caller's scope
      on every path into the observer: it was just created under the tenant
      hook, or found through the tenant scope. */
  method PostInvoice(db: LedgerDb, auth: Auth, inv: Invoice, today: Date, like: Matcher) returns (posted: bool)
    requires db.Valid()
    requires inv in db.invoices
    requires InScope(auth, inv.companyId)
    requires NoEntryFor(db.entries, inv.id)
    modifies db
    ensures db.Valid()
    ensures db.accounts == old(db.accounts) && db.invoices == old(db.invoices) && db.payments == old(db.payments)
    ensures var rec := First(old(db.accounts), auth, ReceivableFilter(inv.companyId), like);
            var rev := First(old(db.accounts), auth, RevenueFilter(inv.companyId), like);
            && (posted <==> rec.Some? && rev.Some?)
            && (!posted ==> db.entries == old(db.entries) && db.lines == old(db.lines))
            && (posted ==>
                  && db.entries == old(db.entries) + [InvoiceEntry(auth, inv, today)]
                  && db.lines == old(db.lines) + LineRows(|old(db.entries)| + 1, AssignedCompany(auth, None),
                                                          TransferPostings(rec.value.id, rev.value.id, inv.total)))
  {
    var receivable := First(db.accounts, auth, ReceivableFilter(inv.companyId), like);
    var revenue := First(db.accounts, auth, RevenueFilter(inv.companyId), like);
    if receivable.None? || revenue.None? {
      // The exception is caught, the empty transaction rolled back and the
      // failure logged.
      return false;
    }
    FoundAccountId(db.accounts, auth, ReceivableFilter(inv.companyId), like);
    FoundAccountId(db.accounts, auth, RevenueFilter(inv.companyId), like);
    var ps := TransferPostings(receivable.value.id, revenue.value.id, inv.total);
    var lineCompany := AssignedCompany(auth, None);
    assert inv.total >= 0 by {
      var k :| 0 <= k < |db.invoices| && db.invoices[k] == inv;
    }
    InvoiceEntryKeepsSources(db.entries, db.invoices, auth, inv, today);
    db.InsertTwoLineEntry(InvoiceEntry(auth, inv, today), lineCompany, ps);
    posted := true;
  }

  /** The `created` event. */
  method Created(db: LedgerDb, auth: Auth, inv: Invoice, today: Date, like: Matcher) returns (posted: bool)
    requires db.Valid()
    requires inv in db.invoices
    requires InScope(auth, inv.companyId)
    requires NoEntryFor(db.entries, inv.id)
    modifies db
    ensures db.Valid()
    ensures db.accounts == old(db.accounts) && db.invoices == old(db.invoices) && db.payments == old(db.payments)
    ensures var rec := First(old(db.accounts), auth, ReceivableFilter(inv.companyId), like);
            var rev := First(old(db.accounts), auth, RevenueFilter(inv.companyId), like);
            && (posted <==> inv.status == Sent && rec.Some? && rev.Some?)
            && (!posted ==> db.entries == old(db.entries) && db.lines == old(db.lines))
            && (posted ==>
                  && db.entries == old(db.entries) + [InvoiceEntry(auth, inv, today)]
                  && db.lines == old(db.lines) + LineRows(|old(db.entries)| + 1, AssignedCompany(auth, None),
                                                          TransferPostings(rec.value.id, rev.value.id, inv.total)))
  {
    posted := false;
    if inv.status == Sent {
      posted := PostInvoice(db, auth, inv, today, like);
    }
  }

  /** The `updated` event; `changed` is `wasChanged('status')`. */
  method Updated(db: LedgerDb, auth: Auth, inv: Invoice, changed: bool, today: Date, like: Matcher) returns (posted: bool)
    requires db.Valid()
    requires inv in db.invoices
    requires InScope(auth, inv.companyId)
    modifies db
    ensures db.Valid()
    ensures db.accounts == old(db.accounts) && db.invoices == old(db.invoices) && db.payments == old(db.payments)
    ensures var rec := First(old(db.accounts), auth, ReceivableFilter(inv.companyId), like);
            var rev := First(old(db.accounts), auth, RevenueFilter(inv.companyId), like);
            && (posted <==> changed && inv.status == Sent && NoEntryFor(old(db.entries), inv.id) && rec.Some? && rev.Some?)
            && (!posted ==> db.entries == old(db.entries) && db.lines == old(db.lines))
            && (posted ==>
                  && db.entries == old(db.entries) + [InvoiceEntry(auth, inv, today)]
                  && db.lines == old(db.lines) + LineRows(|old(db.entries)| + 1, AssignedCompany(auth, None),
                                                          TransferPostings(rec.value.id, rev.value.id, inv.total)))
  {
    posted := false;
    if changed && inv.status == Sent {
      var existing := HasInvoiceEntry(db.entries, auth, inv.id);
      if !existing {
        CheckMissMeansNoEntry(db.entries, db.invoices, auth, inv);
        posted := PostInvoice(db, auth, inv, today, like);
      } else {
        var i :| 0 <= i < |db.entries| && db.entries[i].source == Some(InvoiceSource(inv.id)) && InScope(auth, db.entries[i].companyId);
        assert InvoiceOf(db.entries[i].source) == inv.id;
      }
    }
  }

  // ---------------------------------------------------------------------
  // The duplicate check as written

  /** What `JournalEntry::create` keeps of the observer's attributes:
      mass assignment drops every key outside `$fillable`, and the source
      pair is outside it. */
  function StoredAsWritten(e: JournalEntry): (s: JournalEntry)
    ensures s.source.None?
    ensures s.(source := e.source) == e
  {
    e.(source := None)
  }

  /** As written, a posting leaves nothing for the duplicate check to find:
      when the invoice goes sent, draft, sent again, the second transition
      posts a second entry with the same reference "INV-id". */
  lemma AsWrittenRepostsInvoice(es: seq<JournalEntry>, auth: Auth, inv: Invoice, d1: Date, d2: Date)
    requires !HasInvoiceEntry(es, auth, inv.id)
    ensures var first := StoredAsWritten(InvoiceEntry(auth, inv, d1));
            var second := StoredAsWritten(InvoiceEntry(auth, inv, d2));
            && !HasInvoiceEntry(es + [first], auth, inv.id)
            && first.reference == second.reference == Some(InvoiceReference(inv.id))
  {
    var es2 := es + [StoredAsWritten(InvoiceEntry(auth, inv, d1))];
    assert forall i :: 0 <= i < |es| ==> es2[i] == es[i];
  }
}
