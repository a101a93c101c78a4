/** The two pairing queries of scripts/dedup_ar_transactions.py, and what voiding a pair does. */
module DedupPairs {
  import opened Basics
  import opened ErpStore
  import opened GeneralLedger
  import opened Ranking

  const DATE_WINDOW := 3

  datatype DupPair = DupPair(keeper: Id, dup: Id, dupJournal: Option<Id>, dupBatch: Option<Id>, dupErpnextId: Option<string>)

  /** Python's truth value of an optional id. */
  predicate Truthy(id: Option<string>) {
    id.Some? && id.value != ""
  }

  // ---- Payments: partition by (customer, amount, date) ----

  type PaymentKey = (Id, int, int)

  predicate SplynxOnlyPayment(p: Payment) {
    p.splynxId.Some? && p.erpnextId.None? && p.status != PaymentStatus.Void
  }

  predicate ErpnextOnlyPayment(p: Payment) {
    p.erpnextId.Some? && p.splynxId.None? && p.status != PaymentStatus.Void
  }

  function PaymentRow(id: Id, p: Payment): Row<PaymentKey> {
    Row(id, (p.customer, p.amount, p.date), p.date, p.created)
  }

  function SplynxPayments(payments: map<Id, Payment>): set<Row<PaymentKey>> {
    set id | id in payments && SplynxOnlyPayment(payments[id]) :: PaymentRow(id, payments[id])
  }

  function ErpnextPayments(payments: map<Id, Payment>): set<Row<PaymentKey>> {
    set id | id in payments && ErpnextOnlyPayment(payments[id]) :: PaymentRow(id, payments[id])
  }

  /** pair is a row of the payment pairing query. */
  predicate IsPaymentPair(payments: map<Id, Payment>, pair: DupPair) {
    && pair.keeper in payments && pair.dup in payments
    && SplynxOnlyPayment(payments[pair.keeper]) && ErpnextOnlyPayment(payments[pair.dup])
    && (PaymentRow(pair.keeper, payments[pair.keeper]), PaymentRow(pair.dup, payments[pair.dup]))
         in RankPairs(SplynxPayments(payments), ErpnextPayments(payments))
    && pair.dupJournal == payments[pair.dup].journal
    && pair.dupBatch == payments[pair.dup].batch
    && pair.dupErpnextId == payments[pair.dup].erpnextId
  }

  /** An answer of the payment pairing query, in any row order. */
  ghost predicate IsPaymentPairListing(payments: map<Id, Payment>, pairs: seq<DupPair>) {
    NoRepeats(pairs) && forall pair :: pair in pairs <==> IsPaymentPair(payments, pair)
  }

  function VoidPaymentRow(payments: map<Id, Payment>, pair: DupPair): map<Id, Payment> {
    var voided := if pair.dup in payments
                  then payments[pair.dup := payments[pair.dup].(status := PaymentStatus.Void)] else payments;
    if Truthy(pair.dupErpnextId) && pair.keeper in voided && voided[pair.keeper].erpnextId.None?
    then voided[pair.keeper := voided[pair.keeper].(erpnextId := pair.dupErpnextId)] else voided
  }

  /** The duplicate is VOID; the keeper takes a non-empty ERPNext id if it has none; every other column and row stays. */
  lemma PaymentRowsAfter(payments: map<Id, Payment>, pair: DupPair, id: Id)
    requires pair.keeper != pair.dup
    ensures id in VoidPaymentRow(payments, pair) <==> id in payments
    ensures id in payments ==>
      VoidPaymentRow(payments, pair)[id]
      == if id == pair.dup then payments[id].(status := PaymentStatus.Void)
         else if id == pair.keeper && payments[id].erpnextId.None? && pair.dupErpnextId.Some? && pair.dupErpnextId.value != ""
         then payments[id].(erpnextId := pair.dupErpnextId)
         else payments[id]
  {
  }

  function DropPaymentAllocations(allocations: map<Id, Allocation>, payment: Id): map<Id, Allocation> {
    map a | a in allocations && allocations[a].payment != payment :: allocations[a]
  }

  function VoidPairGl(s: Store, pair: DupPair): Store {
    if pair.dupJournal.Some? then VoidGl(s, pair.dupJournal.value, pair.dupBatch) else s
  }

  /** The statements of step2_void_dup_payments for one pair. */
  function VoidPayment(s: Store, pair: DupPair): Store {
    var cleaned := VoidPairGl(s.(allocations := DropPaymentAllocations(s.allocations, pair.dup)), pair);
    cleaned.(payments := VoidPaymentRow(cleaned.payments, pair))
  }

  // ---- Invoices: partition by (customer, total), dates within three days ----

  type InvoiceKey = (Id, int)

  predicate SplynxOnlyInvoice(i: Invoice) {
    i.splynxId.Some? && i.erpnextId.None? && i.status != InvoiceStatus.Void
  }

  predicate ErpnextOnlyInvoice(i: Invoice) {
    i.erpnextId.Some? && i.splynxId.None? && i.status != InvoiceStatus.Void
  }

  function InvoiceRow(id: Id, i: Invoice): Row<InvoiceKey> {
    Row(id, (i.customer, i.total), i.date, i.created)
  }

  function SplynxInvoices(invoices: map<Id, Invoice>): set<Row<InvoiceKey>> {
    set id | id in invoices && SplynxOnlyInvoice(invoices[id]) :: InvoiceRow(id, invoices[id])
  }

  function ErpnextInvoices(invoices: map<Id, Invoice>): set<Row<InvoiceKey>> {
    set id | id in invoices && ErpnextOnlyInvoice(invoices[id]) :: InvoiceRow(id, invoices[id])
  }

  predicate IsInvoicePair(invoices: map<Id, Invoice>, pair: DupPair) {
    && pair.keeper in invoices && pair.dup in invoices
    && SplynxOnlyInvoice(invoices[pair.keeper]) && ErpnextOnlyInvoice(invoices[pair.dup])
    && (InvoiceRow(pair.keeper, invoices[pair.keeper]), InvoiceRow(pair.dup, invoices[pair.dup]))
         in RankPairs(SplynxInvoices(invoices), ErpnextInvoices(invoices))
    && -DATE_WINDOW <= invoices[pair.keeper].date - invoices[pair.dup].date <= DATE_WINDOW
    && pair.dupJournal == invoices[pair.dup].journal
    && pair.dupBatch == invoices[pair.dup].batch
    && pair.dupErpnextId == invoices[pair.dup].erpnextId
  }

  ghost predicate IsInvoicePairListing(invoices: map<Id, Invoice>, pairs: seq<DupPair>) {
    NoRepeats(pairs) && forall pair :: pair in pairs <==> IsInvoicePair(invoices, pair)
  }

  function VoidInvoiceRow(invoices: map<Id, Invoice>, pair: DupPair): map<Id, Invoice> {
    var voided := if pair.dup in invoices
                  then invoices[pair.dup := invoices[pair.dup].(status := InvoiceStatus.Void)] else invoices;
    if Truthy(pair.dupErpnextId) && pair.keeper in voided && voided[pair.keeper].erpnextId.None?
    then voided[pair.keeper := voided[pair.keeper].(erpnextId := pair.dupErpnextId)] else voided
  }

  /** The same for an invoice. */
  lemma InvoiceRowsAfter(invoices: map<Id, Invoice>, pair: DupPair, id: Id)
    requires pair.keeper != pair.dup
    ensures id in VoidInvoiceRow(invoices, pair) <==> id in invoices
    ensures id in invoices ==>
      VoidInvoiceRow(invoices, pair)[id]
      == if id == pair.dup then invoices[id].(status := InvoiceStatus.Void)
         else if id == pair.keeper && invoices[id].erpnextId.None? && pair.dupErpnextId.Some? && pair.dupErpnextId.value != ""
         then invoices[id].(erpnextId := pair.dupErpnextId)
         else invoices[id]
  {
  }

  function DropInvoiceAllocations(allocations: map<Id, Allocation>, invoice: Id): map<Id, Allocation> {
    map a | a in allocations && allocations[a].invoice != invoice :: allocations[a]
  }

  function DropLineTaxes(lineTaxes: map<Id, Id>, invoice: Id): map<Id, Id> {
    map t | t in lineTaxes && lineTaxes[t] != invoice :: lineTaxes[t]
  }

  /** The statements of step4_void_dup_invoices for one pair. */
  function VoidInvoice(s: Store, pair: DupPair): Store {
    var cleaned := VoidPairGl(
      s.(allocations := DropInvoiceAllocations(s.allocations, pair.dup),
         lineTaxes := DropLineTaxes(s.lineTaxes, pair.dup)), pair);
    cleaned.(invoices := VoidInvoiceRow(cleaned.invoices, pair))
  }

  // ---- Pairings are one to one ----

  /** No payment is in two pairs. */
  lemma PaymentPairsInjective(payments: map<Id, Payment>, p: DupPair, q: DupPair)
    requires IsPaymentPair(payments, p) && IsPaymentPair(payments, q)
    ensures p.keeper == q.keeper <==> p.dup == q.dup
    ensures p.keeper == q.keeper <==> p == q
    ensures p.keeper != q.dup
  {
    PairsInjective(SplynxPayments(payments), ErpnextPayments(payments),
      (PaymentRow(p.keeper, payments[p.keeper]), PaymentRow(p.dup, payments[p.dup])),
      (PaymentRow(q.keeper, payments[q.keeper]), PaymentRow(q.dup, payments[q.dup])));
  }

  /** No invoice is in two pairs. */
  lemma InvoicePairsInjective(invoices: map<Id, Invoice>, p: DupPair, q: DupPair)
    requires IsInvoicePair(invoices, p) && IsInvoicePair(invoices, q)
    ensures p.keeper == q.keeper <==> p.dup == q.dup
    ensures p.keeper == q.keeper <==> p == q
    ensures p.keeper != q.dup
  {
    PairsInjective(SplynxInvoices(invoices), ErpnextInvoices(invoices),
      (InvoiceRow(p.keeper, invoices[p.keeper]), InvoiceRow(p.dup, invoices[p.dup])),
      (InvoiceRow(q.keeper, invoices[q.keeper]), InvoiceRow(q.dup, invoices[q.dup])));
  }

  /** Payments of one key pair off until the shorter side runs out. */
  lemma PaymentPairCount(payments: map<Id, Payment>, key: PaymentKey)
    ensures |PairsOf(SplynxPayments(payments), ErpnextPayments(payments), key)|
         == var x, y := |Group(SplynxPayments(payments), key)|, |Group(ErpnextPayments(payments), key)|;
            if x <= y then x else y
  {
    PairCount(SplynxPayments(payments), ErpnextPayments(payments), key);
  }

  ghost predicate HasInvoicePair(invoices: map<Id, Invoice>, dup: Id) {
    exists pair :: IsInvoicePair(invoices, pair) && pair.dup == dup
  }

  /** The query finds a keeper for every ERPNext invoice of the (customer, total) group. */
  ghost predicate GroupPaired(invoices: map<Id, Invoice>, key: InvoiceKey) {
    forall dup :: dup in invoices && ErpnextOnlyInvoice(invoices[dup]) && InvoiceRow(dup, invoices[dup]).group == key ==>
      HasInvoicePair(invoices, dup)
  }

  lemma InvoicePairIff(invoices: map<Id, Invoice>, dup: Id)
    requires dup in invoices && ErpnextOnlyInvoice(invoices[dup])
    ensures HasInvoicePair(invoices, dup)
       <==> PairedClose(SplynxInvoices(invoices), ErpnextInvoices(invoices), DATE_WINDOW, InvoiceRow(dup, invoices[dup]))
  {
    var xs, ys, y := SplynxInvoices(invoices), ErpnextInvoices(invoices), InvoiceRow(dup, invoices[dup]);
    if PairedClose(xs, ys, DATE_WINDOW, y) {
      var x :| (x, y) in RankPairs(xs, ys) && Close(x, y, DATE_WINDOW);
      var keeper :| keeper in invoices && SplynxOnlyInvoice(invoices[keeper]) && x == InvoiceRow(keeper, invoices[keeper]);
      var pair := DupPair(keeper, dup, invoices[dup].journal, invoices[dup].batch, invoices[dup].erpnextId);
      assert IsInvoicePair(invoices, pair);
    }
    if pair :| IsInvoicePair(invoices, pair) && pair.dup == dup {
      assert Close(InvoiceRow(pair.keeper, invoices[pair.keeper]), y, DATE_WINDOW);
    }
  }

  /**
   Exactly when no ERPNext invoice of a group is missed: its invoices can be
   matched one to one, all dates within three days, with as many of the earliest
   Splynx invoices of the group.
   */
  lemma InvoicePairingIff(invoices: map<Id, Invoice>, key: InvoiceKey)
    ensures var xs, ys := SplynxInvoices(invoices), ErpnextInvoices(invoices);
      GroupPaired(invoices, key) <==> HasMatching(Lowest(xs, |Group(ys, key)|), ys, key, DATE_WINDOW)
  {
    var xs, ys := SplynxInvoices(invoices), ErpnextInvoices(invoices);
    AllPairedIff(xs, ys, key, DATE_WINDOW);
    forall dup | dup in invoices && ErpnextOnlyInvoice(invoices[dup])
      ensures HasInvoicePair(invoices, dup) <==> PairedClose(xs, ys, DATE_WINDOW, InvoiceRow(dup, invoices[dup]))
      ensures InvoiceRow(dup, invoices[dup]) in ys
    {
      InvoicePairIff(invoices, dup);
    }
    forall y | y in Group(ys, key)
      ensures exists dup :: dup in invoices && ErpnextOnlyInvoice(invoices[dup]) && y == InvoiceRow(dup, invoices[dup])
    {
    }
  }

  /** With as many Splynx as ERPNext invoices, exactly when the two whole sides can be so matched. */
  lemma InvoicePairingOptimal(invoices: map<Id, Invoice>, key: InvoiceKey)
    requires |Group(SplynxInvoices(invoices), key)| == |Group(ErpnextInvoices(invoices), key)|
    ensures GroupPaired(invoices, key)
       <==> HasMatching(SplynxInvoices(invoices), ErpnextInvoices(invoices), key, DATE_WINDOW)
  {
    var xs, ys := SplynxInvoices(invoices), ErpnextInvoices(invoices);
    var low := Lowest(xs, |Group(ys, key)|);
    InvoicePairingIff(invoices, key);
    forall x | x in Group(xs, key) ensures x in low {
      RankBelowGroupSize(xs, x);
    }
    assert Group(low, key) == Group(xs, key);
    SameGroupMatching(low, xs, ys, key, DATE_WINDOW);
  }

  /** Without equal sides a same-day pair can be missed: of days 1 and 100 only day 1 is matched against day 100. */
  lemma UnequalSidesCanMiss() returns (invoices: map<Id, Invoice>)
    ensures invoices.Keys == {0, 1, 2}
    ensures SplynxOnlyInvoice(invoices[1]) && ErpnextOnlyInvoice(invoices[2])
    ensures InvoiceRow(1, invoices[1]).group == InvoiceRow(2, invoices[2]).group
    ensures invoices[1].date == invoices[2].date
    ensures !GroupPaired(invoices, InvoiceRow(2, invoices[2]).group)
  {
    var early := Invoice(7, 50, 0, 1, 0, InvoiceStatus.Posted, Some("s1"), None, None, None);
    var late := Invoice(7, 50, 0, 100, 0, InvoiceStatus.Posted, Some("s2"), None, None, None);
    var dup := Invoice(7, 50, 0, 100, 0, InvoiceStatus.Posted, None, Some("e1"), None, None);
    invoices := map[0 := early, 1 := late, 2 := dup];
    assert SplynxOnlyInvoice(invoices[0]) && SplynxOnlyInvoice(invoices[1]) && ErpnextOnlyInvoice(invoices[2]);
    var xs, ys := SplynxInvoices(invoices), ErpnextInvoices(invoices);
    var r0, r1, r2 := InvoiceRow(0, invoices[0]), InvoiceRow(1, invoices[1]), InvoiceRow(2, invoices[2]);
    var key := r2.group;
    assert r0 in xs && r1 in xs && r2 in ys;
    assert ys == {r2} && xs == {r0, r1};
    assert Group(ys, key) == {r2};
    assert Earlier(xs, r0) == {};
    var low := Lowest(xs, 1);
    assert r0 in Group(low, key);
    forall m ensures !Matching(low, ys, key, DATE_WINDOW, m) {
      if r0 in m && m[r0] in Group(ys, key) {
        assert m[r0] == r2 && !Close(r0, r2, DATE_WINDOW);
      }
    }
    InvoicePairingIff(invoices, key);
  }
}
