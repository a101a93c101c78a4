/** Step 5 of scripts/dedup_ar_transactions.py: amount_paid and status from the surviving allocations. */
module DedupRecalc {
  import opened Basics
  import opened Sessions
  import opened Sums
  import opened ErpStore

  /** Allocations to an invoice whose payment exists and is not VOID. */
  function LiveAllocations(s: Store, invoice: Id): set<Id> {
    set a | a in s.allocations && s.allocations[a].invoice == invoice
            && s.allocations[a].payment in s.payments
            && s.payments[s.allocations[a].payment].status != PaymentStatus.Void
  }

  function AllocatedAmount(s: Store): nat -> int {
    a => if a in s.allocations then s.allocations[a].amount else 0
  }

  /** COALESCE(SUM(allocated_amount), 0) */
  function PaidSum(s: Store, invoice: Id): int {
    Sum(LiveAllocations(s, invoice), AllocatedAmount(s))
  }

  function Mismatches(s: Store): set<Id> {
    set i | i in s.invoices && s.invoices[i].status != InvoiceStatus.Void && s.invoices[i].paid != PaidSum(s, i)
  }

  /** UPDATE .. SET status = 'PAID' */
  function MarkPaid(i: Invoice): Invoice {
    if i.status in {InvoiceStatus.Posted, InvoiceStatus.PartiallyPaid, InvoiceStatus.Overdue}
       && i.paid >= i.total && i.total > 0
    then i.(status := InvoiceStatus.Paid) else i
  }

  /** UPDATE .. SET status = 'PARTIALLY_PAID' */
  function MarkPartial(i: Invoice): Invoice {
    if i.status in {InvoiceStatus.Posted, InvoiceStatus.Paid, InvoiceStatus.Overdue}
       && i.paid > 0 && i.paid < i.total
    then i.(status := InvoiceStatus.PartiallyPaid) else i
  }

  /** UPDATE .. SET status = 'POSTED' */
  function MarkPosted(i: Invoice): Invoice {
    if i.status in {InvoiceStatus.PartiallyPaid, InvoiceStatus.Paid} && i.paid == 0 && i.total > 0
    then i.(status := InvoiceStatus.Posted) else i
  }

  function Settle(i: Invoice): Invoice {
    MarkPosted(MarkPartial(MarkPaid(i)))
  }

  function WithPaidSum(s: Store, id: Id): Invoice
    requires id in s.invoices
  {
    if s.invoices[id].status != InvoiceStatus.Void
    then s.invoices[id].(paid := PaidSum(s, id)) else s.invoices[id]
  }

  function SettledInvoices(s: Store): map<Id, Invoice> {
    map id | id in s.invoices :: Settle(WithPaidSum(s, id))
  }

  /** UPDATE ar.invoice SET amount_paid = .. WHERE status != 'VOID' */
  function PaidSums(s: Store): map<Id, Invoice> {
    map id | id in s.invoices :: WithPaidSum(s, id)
  }

  /** One UPDATE over every invoice. */
  function UpdateAll(m: map<Id, Invoice>, f: Invoice -> Invoice): map<Id, Invoice> {
    map id | id in m :: f(m[id])
  }

  lemma UpdatesCompose(s: Store)
    ensures UpdateAll(UpdateAll(UpdateAll(PaidSums(s), MarkPaid), MarkPartial), MarkPosted) == SettledInvoices(s)
  {
    var a := UpdateAll(PaidSums(s), MarkPaid);
    var b := UpdateAll(a, MarkPartial);
    forall id | id in s.invoices ensures UpdateAll(b, MarkPosted)[id] == SettledInvoices(s)[id] {
      assert a[id] == MarkPaid(WithPaidSum(s, id));
      assert b[id] == MarkPartial(a[id]);
      assert UpdateAll(b, MarkPosted)[id] == MarkPosted(b[id]);
    }
  }

  function Recalculated(s: Store): Store {
    if Mismatches(s) == {} then s else s.(invoices := SettledInvoices(s))
  }

  /** The four bulk updates, one statement after another. */
  method RecalculateAmountPaid(db: Session<Store>, dryRun: bool) returns (mismatches: nat)
    modifies db`current
    ensures db.current == if dryRun then old(db.current) else Recalculated(old(db.current))
    ensures mismatches == |Mismatches(old(db.current))|
  {
    var s := db.current;
    mismatches := |Mismatches(s)|;
    if dryRun || Mismatches(s) == {} {
      return;
    }
    ApplyUpdates(db);
  }

  method ApplyUpdates(db: Session<Store>)
    modifies db`current
    ensures db.current == old(db.current).(invoices := SettledInvoices(old(db.current)))
  {
    UpdatesCompose(db.current);
    db.Write(db.current.(invoices := PaidSums(db.current)));
    db.Write(db.current.(invoices := UpdateAll(db.current.invoices, MarkPaid)));
    db.Write(db.current.(invoices := UpdateAll(db.current.invoices, MarkPartial)));
    db.Write(db.current.(invoices := UpdateAll(db.current.invoices, MarkPosted)));
  }

  predicate GlImpacting(status: InvoiceStatus) {
    status in {InvoiceStatus.Posted, InvoiceStatus.PartiallyPaid, InvoiceStatus.Paid, InvoiceStatus.Overdue}
  }

  /** The paid sum reads allocations and payments only. */
  lemma PaidSumFrame(s: Store, t: Store, invoice: Id)
    requires t.allocations == s.allocations && t.payments == s.payments
    ensures PaidSum(t, invoice) == PaidSum(s, invoice)
  {
    assert LiveAllocations(t, invoice) == LiveAllocations(s, invoice);
    SumAgree(LiveAllocations(s, invoice), AllocatedAmount(s), AllocatedAmount(t));
  }

  /** Settling changes nothing but the status, and neither makes nor unmakes VOID. */
  lemma SettleFrame(i: Invoice)
    ensures Settle(i) == i.(status := Settle(i).status)
    ensures Settle(i).status == InvoiceStatus.Void <==> i.status == InvoiceStatus.Void
    ensures !GlImpacting(i.status) ==> Settle(i) == i
  {
  }

  lemma SettledRow(s: Store, id: Id)
    requires Mismatches(s) != {} && id in s.invoices
    ensures id in Recalculated(s).invoices && Recalculated(s).invoices[id] == Settle(WithPaidSum(s, id))
  {
  }

  /** After the step no non-VOID invoice disagrees with its allocations, whatever it held before. */
  lemma NoMismatchLeft(s: Store)
    ensures Mismatches(Recalculated(s)) == {}
  {
    if Mismatches(s) != {} {
      var t := s.(invoices := SettledInvoices(s));
      forall i | i in t.invoices && t.invoices[i].status != InvoiceStatus.Void
        ensures t.invoices[i].paid == PaidSum(t, i)
      {
        SettleFrame(WithPaidSum(s, i));
        PaidSumFrame(s, t, i);
      }
    }
  }

  /** Once a mismatch is found, every billable invoice gets the exact paid sum and the status it stands for. */
  lemma RecalculatedStatus(s: Store, id: Id)
    requires Mismatches(s) != {}
    requires id in s.invoices && GlImpacting(s.invoices[id].status)
    requires s.invoices[id].total > 0 && PaidSum(s, id) >= 0
    ensures var i := Recalculated(s).invoices[id];
      && i.paid == PaidSum(s, id) && i.total == s.invoices[id].total
      && (i.status == InvoiceStatus.Paid <==> i.paid >= i.total)
      && (i.status == InvoiceStatus.PartiallyPaid <==> 0 < i.paid < i.total)
      && (i.status in {InvoiceStatus.Posted, InvoiceStatus.Overdue} <==> i.paid == 0)
  {
  }

  /** The status an invoice ends with, from its old status, its total and what is allocated to it. */
  function StatusFor(was: InvoiceStatus, total: int, paid: int): InvoiceStatus {
    if total <= 0 || was !in {InvoiceStatus.Posted, InvoiceStatus.PartiallyPaid, InvoiceStatus.Paid, InvoiceStatus.Overdue}
    then was
    else if paid >= total then InvoiceStatus.Paid
    else if paid > 0 then InvoiceStatus.PartiallyPaid
    else if paid == 0 && was in {InvoiceStatus.PartiallyPaid, InvoiceStatus.Paid} then InvoiceStatus.Posted
    else was
  }

  lemma SettleIsStatusFor(i: Invoice)
    ensures Settle(i).status == StatusFor(i.status, i.total, i.paid)
  {
  }

  /**
   Once a mismatch is found, every live invoice gets the exact paid sum and the exact
   status for it, and nothing else of it changes; VOID ones stay as they are.
   */
  lemma RecalculatedExactly(s: Store, id: Id)
    requires Mismatches(s) != {} && id in s.invoices
    ensures id in Recalculated(s).invoices
    ensures var i := s.invoices[id];
      Recalculated(s).invoices[id]
      == if i.status == InvoiceStatus.Void then i
         else i.(paid := PaidSum(s, id), status := StatusFor(i.status, i.total, PaidSum(s, id)))
  {
    var i := WithPaidSum(s, id);
    SettledRow(s, id);
    SettleFrame(i);
    SettleIsStatusFor(i);
    assert Settle(i) == i.(status := StatusFor(i.status, i.total, i.paid));
  }

  /** It is found iff some live invoice's amount_paid is not its paid sum; otherwise nothing changes. */
  lemma MismatchIff(s: Store)
    ensures Mismatches(s) != {}
       <==> exists id :: id in s.invoices && s.invoices[id].status != InvoiceStatus.Void && s.invoices[id].paid != PaidSum(s, id)
    ensures Mismatches(s) == {} ==> Recalculated(s) == s
  {
    forall id | id in s.invoices && s.invoices[id].status != InvoiceStatus.Void && s.invoices[id].paid != PaidSum(s, id)
      ensures id in Mismatches(s)
    {
    }
  }

  /** Nothing allocated, nothing paid. */
  lemma NothingPaid(s: Store, invoice: Id)
    requires s.allocations == map[]
    ensures PaidSum(s, invoice) == 0
  {
    assert LiveAllocations(s, invoice) == {};
  }

  /** One more allocation adds its amount to its own invoice, if its payment exists and is not VOID, and to no other. */
  lemma OneMoreAllocation(s: Store, a: Id, x: Allocation, invoice: Id)
    requires a !in s.allocations
    ensures PaidSum(s.(allocations := s.allocations[a := x]), invoice)
         == PaidSum(s, invoice)
            + if x.invoice == invoice && x.payment in s.payments && s.payments[x.payment].status != PaymentStatus.Void
              then x.amount else 0
  {
    var t := s.(allocations := s.allocations[a := x]);
    var before, after := LiveAllocations(s, invoice), LiveAllocations(t, invoice);
    SumAgree(before, AllocatedAmount(s), AllocatedAmount(t));
    if a in after {
      assert after - {a} == before;
      SumRemove(after, AllocatedAmount(t), a);
    } else {
      assert after == before;
    }
  }

  /** VOID, DRAFT and disputed documents keep their status, and VOID ones their amount too. */
  lemma RecalculatedOthers(s: Store, id: Id)
    requires id in s.invoices && !GlImpacting(s.invoices[id].status)
    ensures Recalculated(s).invoices[id].status == s.invoices[id].status
    ensures s.invoices[id].status == InvoiceStatus.Void ==> Recalculated(s).invoices[id] == s.invoices[id]
  {
    if Mismatches(s) != {} {
      var i := WithPaidSum(s, id);
      SettledRow(s, id);
      SettleFrame(i);
      assert i == s.invoices[id].(paid := i.paid);
    }
  }

  /** The three status updates may run in any order and any number of times. */
  lemma StatusUpdatesCommute(i: Invoice)
    ensures MarkPaid(MarkPartial(MarkPosted(i))) == Settle(i)
    ensures MarkPaid(MarkPosted(MarkPartial(i))) == Settle(i)
    ensures MarkPartial(MarkPaid(MarkPosted(i))) == Settle(i)
    ensures MarkPartial(MarkPosted(MarkPaid(i))) == Settle(i)
    ensures MarkPosted(MarkPaid(MarkPartial(i))) == Settle(i)
    ensures Settle(Settle(i)) == Settle(i)
  {
  }

  /** A second run of the step does nothing. */
  lemma RecalculateIdempotent(s: Store)
    ensures Recalculated(Recalculated(s)) == Recalculated(s)
  {
    NoMismatchLeft(s);
  }

  /** An invoice the status updates are meant for. */
  ghost predicate Billable(s: Store, id: Id) {
    id in s.invoices && GlImpacting(s.invoices[id].status) && s.invoices[id].total > 0 && PaidSum(s, id) >= 0
  }

  /** The status stands for the amount that is allocated. */
  predicate StatusFits(i: Invoice, paid: int) {
    && (i.status == InvoiceStatus.Paid <==> paid >= i.total)
    && (i.status == InvoiceStatus.PartiallyPaid <==> 0 < paid < i.total)
    && (i.status in {InvoiceStatus.Posted, InvoiceStatus.Overdue} <==> paid == 0)
  }

  ghost predicate StatusesFit(s: Store) {
    forall id :: Billable(s, id) ==> StatusFits(s.invoices[id], PaidSum(s, id))
  }

  /** Settling keeps the total and the billable statuses among themselves. */
  lemma SettleKeepsBillable(i: Invoice)
    ensures GlImpacting(Settle(i).status) <==> GlImpacting(i.status)
    ensures Settle(i).total == i.total
  {
  }

  lemma RecalculatedBillable(s: Store, id: Id)
    requires Mismatches(s) != {}
    ensures Billable(Recalculated(s), id) <==> Billable(s, id)
    ensures PaidSum(Recalculated(s), id) == PaidSum(s, id)
  {
    var t := Recalculated(s);
    PaidSumFrame(s, t, id);
    if id in s.invoices {
      SettledRow(s, id);
      SettleKeepsBillable(WithPaidSum(s, id));
    }
  }

  /**
   The step exits early when all amounts are right.  So every billable invoice
   ends with the right status iff some amount was wrong or every status was right
   to begin with.
   */
  lemma StatusesFitIff(s: Store)
    ensures StatusesFit(Recalculated(s)) <==> Mismatches(s) != {} || StatusesFit(s)
  {
    if Mismatches(s) != {} {
      var t := Recalculated(s);
      forall id | Billable(t, id) ensures StatusFits(t.invoices[id], PaidSum(t, id)) {
        RecalculatedBillable(s, id);
        RecalculatedStatus(s, id);
      }
    }
  }

  /** A PAID invoice without any allocation and with amount_paid zero stays PAID. */
  lemma WrongStatusCanSurvive() returns (s: Store)
    ensures Billable(s, 0) && s.invoices[0].status == InvoiceStatus.Paid && PaidSum(s, 0) == 0
    ensures !StatusesFit(Recalculated(s))
  {
    var i := Invoice(1, 100, 0, 0, 0, InvoiceStatus.Paid, None, None, None, None);
    s := Store(map[], map[], map[0 := i], map[], map[], map[], map[], {}, map[], map[], map[]);
    assert LiveAllocations(s, 0) == {};
    assert Mismatches(s) == {};
    assert Billable(s, 0) && !StatusFits(s.invoices[0], PaidSum(s, 0));
    StatusesFitIff(s);
  }
}
