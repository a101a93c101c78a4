/**
 The two pairing queries of scripts/dedup_ar_transactions.py read off the columns
 they select, without row numbers, partitions or joins.
 */
module DedupColumns {
  import opened Basics
  import opened ErpStore
  import opened Ranking
  import opened DedupPairs

  // ---- Payments ----

  predicate OnPaymentSide(i: Payment, splynx: bool) {
    && i.status != PaymentStatus.Void
    && (if splynx then i.splynxId.Some? && i.erpnextId.None? else i.erpnextId.Some? && i.splynxId.None?)
  }

  /** The payments of one side that the query numbers before payment id. */
  function PaymentsBefore(payments: map<Id, Payment>, id: Id, splynx: bool): set<Id>
    requires id in payments
  {
    set j | j in payments && OnPaymentSide(payments[j], splynx)
            && payments[j].customer == payments[id].customer && payments[j].amount == payments[id].amount && payments[j].date == payments[id].date
            && (payments[j].created < payments[id].created || (payments[j].created == payments[id].created && j < id))
  }

  lemma PaymentRank(payments: map<Id, Payment>, id: Id, splynx: bool)
    requires id in payments
    ensures Rank(if splynx then SplynxPayments(payments) else ErpnextPayments(payments), PaymentRow(id, payments[id])) == |PaymentsBefore(payments, id, splynx)|
  {
    var side := if splynx then SplynxPayments(payments) else ErpnextPayments(payments);
    var rowOf := (j: Id) => if j in payments then PaymentRow(j, payments[j]) else PaymentRow(j, payments[id]);
    var earlier, before := Earlier(side, PaymentRow(id, payments[id])), PaymentsBefore(payments, id, splynx);
    forall r ensures r in earlier <==> exists j :: j in before && rowOf(j) == r {
      if r in earlier {
        var j :| j in payments && OnPaymentSide(payments[j], splynx) && r == PaymentRow(j, payments[j]);
        assert j in before && rowOf(j) == r;
      }
      if j :| j in before && rowOf(j) == r {
        assert r == PaymentRow(j, payments[j]) && r in side;
      }
    }
    ImageSize(before, rowOf, earlier);
  }

  /**
   A row of the payment query: a live Splynx-only and a live ERPNext-only payment of one
   customer, amount and date, with as many such payments of its own side created before.
   */
  lemma PaymentPairColumns(payments: map<Id, Payment>, pair: DupPair)
    ensures IsPaymentPair(payments, pair) <==>
      && pair.keeper in payments && pair.dup in payments
      && var k, d := payments[pair.keeper], payments[pair.dup];
         && k.splynxId.Some? && k.erpnextId.None? && k.status != PaymentStatus.Void
         && d.erpnextId.Some? && d.splynxId.None? && d.status != PaymentStatus.Void
         && k.customer == d.customer && k.amount == d.amount && k.date == d.date
         && |PaymentsBefore(payments, pair.keeper, true)| == |PaymentsBefore(payments, pair.dup, false)|
         && pair.dupJournal == d.journal && pair.dupBatch == d.batch && pair.dupErpnextId == d.erpnextId
  {
    if pair.keeper in payments && pair.dup in payments {
      PaymentRank(payments, pair.keeper, true);
      PaymentRank(payments, pair.dup, false);
    }
  }

  // ---- Invoices ----

  predicate OnInvoiceSide(i: Invoice, splynx: bool) {
    && i.status != InvoiceStatus.Void
    && (if splynx then i.splynxId.Some? && i.erpnextId.None? else i.erpnextId.Some? && i.splynxId.None?)
  }

  /** The invoices of one side that the query numbers before invoice id. */
  function InvoicesBefore(invoices: map<Id, Invoice>, id: Id, splynx: bool): set<Id>
    requires id in invoices
  {
    set j | j in invoices && OnInvoiceSide(invoices[j], splynx)
            && invoices[j].customer == invoices[id].customer && invoices[j].total == invoices[id].total
            && (invoices[j].date < invoices[id].date
               || (invoices[j].date == invoices[id].date
                   && (invoices[j].created < invoices[id].created || (invoices[j].created == invoices[id].created && j < id))))
  }

  lemma InvoiceRank(invoices: map<Id, Invoice>, id: Id, splynx: bool)
    requires id in invoices
    ensures Rank(if splynx then SplynxInvoices(invoices) else ErpnextInvoices(invoices), InvoiceRow(id, invoices[id])) == |InvoicesBefore(invoices, id, splynx)|
  {
    var side := if splynx then SplynxInvoices(invoices) else ErpnextInvoices(invoices);
    var rowOf := (j: Id) => if j in invoices then InvoiceRow(j, invoices[j]) else InvoiceRow(j, invoices[id]);
    var earlier, before := Earlier(side, InvoiceRow(id, invoices[id])), InvoicesBefore(invoices, id, splynx);
    forall r ensures r in earlier <==> exists j :: j in before && rowOf(j) == r {
      if r in earlier {
        var j :| j in invoices && OnInvoiceSide(invoices[j], splynx) && r == InvoiceRow(j, invoices[j]);
        assert j in before && rowOf(j) == r;
      }
      if j :| j in before && rowOf(j) == r {
        assert r == InvoiceRow(j, invoices[j]) && r in side;
      }
    }
    ImageSize(before, rowOf, earlier);
  }

  /**
   A row of the invoice query: a live Splynx-only and a live ERPNext-only invoice of one
   customer and total, dated at most three days apart, with as many such invoices of its
   own side earlier by date, creation time and id.
   */
  lemma InvoicePairColumns(invoices: map<Id, Invoice>, pair: DupPair)
    ensures IsInvoicePair(invoices, pair) <==>
      && pair.keeper in invoices && pair.dup in invoices
      && var k, d := invoices[pair.keeper], invoices[pair.dup];
         && k.splynxId.Some? && k.erpnextId.None? && k.status != InvoiceStatus.Void
         && d.erpnextId.Some? && d.splynxId.None? && d.status != InvoiceStatus.Void
         && k.customer == d.customer && k.total == d.total && -3 <= k.date - d.date <= 3
         && |InvoicesBefore(invoices, pair.keeper, true)| == |InvoicesBefore(invoices, pair.dup, false)|
         && pair.dupJournal == d.journal && pair.dupBatch == d.batch && pair.dupErpnextId == d.erpnextId
  {
    if pair.keeper in invoices && pair.dup in invoices {
      InvoiceRank(invoices, pair.keeper, true);
      InvoiceRank(invoices, pair.dup, false);
    }
  }

  /** Splynx invoice a is where ERPNext invoice b belongs. */
  predicate IsKeeperOf(invoices: map<Id, Invoice>, a: Id, b: Id)
    requires b in invoices
  {
    && a in invoices && OnInvoiceSide(invoices[a], true)
    && invoices[a].customer == invoices[b].customer && invoices[a].total == invoices[b].total
    && -3 <= invoices[a].date - invoices[b].date <= 3
    && |InvoicesBefore(invoices, a, true)| == |InvoicesBefore(invoices, b, false)|
  }

  /** A live ERPNext-only invoice is paired iff it has such a keeper. */
  lemma InvoiceIsPairedIff(invoices: map<Id, Invoice>, dup: Id)
    requires dup in invoices && OnInvoiceSide(invoices[dup], false)
    ensures (exists pair :: IsInvoicePair(invoices, pair) && pair.dup == dup) <==> exists a :: IsKeeperOf(invoices, a, dup)
  {
    if pair :| IsInvoicePair(invoices, pair) && pair.dup == dup {
      InvoicePairColumns(invoices, pair);
      assert IsKeeperOf(invoices, pair.keeper, dup);
    }
    if a :| IsKeeperOf(invoices, a, dup) {
      var pair := DupPair(a, dup, invoices[dup].journal, invoices[dup].batch, invoices[dup].erpnextId);
      InvoicePairColumns(invoices, pair);
      assert IsInvoicePair(invoices, pair);
    }
  }
}
