/**
 What voiding a list of duplicate pairs leaves of every table, stated without
 the order of the statements (steps 2 and 4 of scripts/dedup_ar_transactions.py).
 */
module DedupEffect {
  import opened Basics
  import opened ErpStore
  import opened GeneralLedger
  import opened DedupPairs
  import opened DedupVoid

  function Dups(pairs: seq<DupPair>): set<Id> {
    set p | p in pairs :: p.dup
  }

  function Journals(pairs: seq<DupPair>): set<Id> {
    set p | p in pairs && p.dupJournal.Some? :: p.dupJournal.value
  }

  /** Exactly the journals js lose their lines and become VOID; batches only go away. */
  ghost predicate JournalsVoided(s: Store, t: Store, js: set<Id>) {
    && t.lines == (map l | l in s.lines && s.lines[l].journal !in js :: s.lines[l])
    && t.journals == (map j | j in s.journals ::
                        if j in js then s.journals[j].(status := JournalStatus.Void) else s.journals[j])
    && t.batches <= s.batches
  }

  lemma VoidPairGlEffect(s: Store, pair: DupPair)
    ensures JournalsVoided(s, VoidPairGl(s, pair), Journals([pair]))
  {
    if pair.dupJournal.Some? {
      assert pair in [pair];
      assert Journals([pair]) == {pair.dupJournal.value};
    } else {
      assert Journals([pair]) == {};
    }
  }

  lemma JournalsVoidedCompose(s: Store, t: Store, u: Store, js: set<Id>, ks: set<Id>)
    requires JournalsVoided(s, t, js) && JournalsVoided(t, u, ks)
    ensures JournalsVoided(s, u, js + ks)
  {
  }

  lemma SplitJournals(pairs: seq<DupPair>)
    requires pairs != []
    ensures Journals(pairs) == Journals([pairs[0]]) + Journals(pairs[1..])
    ensures Dups(pairs) == {pairs[0].dup} + Dups(pairs[1..])
  {
    assert pairs == [pairs[0]] + pairs[1..];
    assert forall p :: p in pairs <==> p in [pairs[0]] || p in pairs[1..];
  }

  /** No record is in two pairs, or on both sides. */
  ghost predicate Disjoint(pairs: seq<DupPair>) {
    && (forall i, j :: 0 <= i < j < |pairs| ==> pairs[i].dup != pairs[j].dup && pairs[i].keeper != pairs[j].keeper)
    && (forall i, j :: 0 <= i < |pairs| && 0 <= j < |pairs| ==> pairs[i].keeper != pairs[j].dup)
  }

  // ---- Payments ----

  ghost predicate PaymentsReady(payments: map<Id, Payment>, pairs: seq<DupPair>) {
    && Disjoint(pairs)
    && forall i :: 0 <= i < |pairs| ==>
         pairs[i].dup in payments && pairs[i].keeper in payments && payments[pairs[i].keeper].erpnextId.None?
  }

  function LinkedPayment(payment: Payment, pair: DupPair): Payment {
    if Truthy(pair.dupErpnextId) then payment.(erpnextId := pair.dupErpnextId) else payment
  }

  /** Each duplicate becomes VOID, each keeper takes its ERPNext id, nothing else changes. */
  ghost predicate PaymentsVoided(before: map<Id, Payment>, after: map<Id, Payment>, pairs: seq<DupPair>) {
    && after.Keys == before.Keys
    && (forall i :: 0 <= i < |pairs| ==>
          && pairs[i].dup in before && pairs[i].keeper in before
          && after[pairs[i].dup] == before[pairs[i].dup].(status := PaymentStatus.Void)
          && after[pairs[i].keeper] == LinkedPayment(before[pairs[i].keeper], pairs[i]))
    && (forall id :: id in before && (forall i :: 0 <= i < |pairs| ==> pairs[i].dup != id && pairs[i].keeper != id) ==>
          after[id] == before[id])
  }

  lemma NextPaymentsReady(payments: map<Id, Payment>, pairs: seq<DupPair>)
    requires pairs != [] && PaymentsReady(payments, pairs)
    ensures PaymentsReady(VoidPaymentRow(payments, pairs[0]), pairs[1..])
  {
    assert forall i :: 0 <= i < |pairs[1..]| ==> pairs[1..][i] == pairs[i + 1];
  }

  lemma {:induction false} UntouchedPayment(payments: map<Id, Payment>, pairs: seq<DupPair>, id: Id)
    requires id in payments && forall i :: 0 <= i < |pairs| ==> pairs[i].dup != id && pairs[i].keeper != id
    ensures id in VoidPaymentRows(payments, pairs) && VoidPaymentRows(payments, pairs)[id] == payments[id]
    decreases |pairs|
  {
    if pairs == [] {
    } else {
      UntouchedPayment(VoidPaymentRow(payments, pairs[0]), pairs[1..], id);
    }
  }

  /** Pair k's own two rows after the whole list. */
  lemma {:induction false} PairedPayments(payments: map<Id, Payment>, pairs: seq<DupPair>, k: nat)
    requires PaymentsReady(payments, pairs) && k < |pairs|
    ensures var after := VoidPaymentRows(payments, pairs);
      && pairs[k].dup in after && pairs[k].keeper in after
      && after[pairs[k].dup] == payments[pairs[k].dup].(status := PaymentStatus.Void)
      && after[pairs[k].keeper] == LinkedPayment(payments[pairs[k].keeper], pairs[k])
    decreases |pairs|
  {
    var rest, next := pairs[1..], VoidPaymentRow(payments, pairs[0]);
    NextPaymentsReady(payments, pairs);
    if k == 0 {
      UntouchedPayment(next, rest, pairs[0].dup);
      UntouchedPayment(next, rest, pairs[0].keeper);
    } else {
      assert rest[k - 1] == pairs[k];
      PairedPayments(next, rest, k - 1);
    }
  }

  lemma {:induction false} VoidPaymentRowKeys(payments: map<Id, Payment>, pairs: seq<DupPair>)
    requires PaymentsReady(payments, pairs)
    ensures VoidPaymentRows(payments, pairs).Keys == payments.Keys
    decreases |pairs|
  {
    if pairs == [] {
    } else {
      NextPaymentsReady(payments, pairs);
      VoidPaymentRowKeys(VoidPaymentRow(payments, pairs[0]), pairs[1..]);
    }
  }

  lemma VoidPaymentRowsEffect(payments: map<Id, Payment>, pairs: seq<DupPair>)
    requires PaymentsReady(payments, pairs)
    ensures PaymentsVoided(payments, VoidPaymentRows(payments, pairs), pairs)
  {
    VoidPaymentRowKeys(payments, pairs);
    forall k | 0 <= k < |pairs|
      ensures VoidPaymentRows(payments, pairs)[pairs[k].dup] == payments[pairs[k].dup].(status := PaymentStatus.Void)
      ensures VoidPaymentRows(payments, pairs)[pairs[k].keeper] == LinkedPayment(payments[pairs[k].keeper], pairs[k])
    {
      PairedPayments(payments, pairs, k);
    }
    forall id | id in payments && forall i :: 0 <= i < |pairs| ==> pairs[i].dup != id && pairs[i].keeper != id
      ensures VoidPaymentRows(payments, pairs)[id] == payments[id]
    {
      UntouchedPayment(payments, pairs, id);
    }
  }

  lemma ListedPaymentsReady(payments: map<Id, Payment>, pairs: seq<DupPair>)
    requires NoRepeats(pairs) && forall p :: p in pairs ==> IsPaymentPair(payments, p)
    ensures PaymentsReady(payments, pairs)
  {
    forall i, j | 0 <= i < |pairs| && 0 <= j < |pairs|
      ensures pairs[i].keeper != pairs[j].dup
      ensures i != j ==> pairs[i].dup != pairs[j].dup && pairs[i].keeper != pairs[j].keeper
    {
      assert pairs[i] in pairs && pairs[j] in pairs;
      PaymentPairsInjective(payments, pairs[i], pairs[j]);
    }
    forall i | 0 <= i < |pairs| ensures IsPaymentPair(payments, pairs[i]) {
      assert pairs[i] in pairs;
    }
  }

  lemma {:induction false} VoidPaymentsLedger(s: Store, pairs: seq<DupPair>)
    ensures JournalsVoided(s, VoidPayments(s, pairs), Journals(pairs))
    ensures VoidPayments(s, pairs).allocations
         == map a | a in s.allocations && s.allocations[a].payment !in Dups(pairs) :: s.allocations[a]
    decreases |pairs|
  {
    if pairs == [] {
    } else {
      var first := VoidPayment(s, pairs[0]);
      VoidPairGlEffect(s.(allocations := DropPaymentAllocations(s.allocations, pairs[0].dup)), pairs[0]);
      VoidPaymentShape(s, pairs[0]);
      assert JournalsVoided(s, first, Journals([pairs[0]]));
      VoidPaymentsLedger(first, pairs[1..]);
      JournalsVoidedCompose(s, first, VoidPayments(s, pairs), Journals([pairs[0]]), Journals(pairs[1..]));
      SplitJournals(pairs);
    }
  }

  /**
   Voiding any of the listed payment pairs: duplicates VOID and without
   allocations, their journals VOID and without lines, keepers linked, and every
   other payment, allocation, line, journal and table as before.
   */
  lemma VoidPaymentsEffect(s: Store, pairs: seq<DupPair>)
    requires NoRepeats(pairs) && forall p :: p in pairs ==> IsPaymentPair(s.payments, p)
    ensures var t := VoidPayments(s, pairs);
      && PaymentsVoided(s.payments, t.payments, pairs)
      && JournalsVoided(s, t, Journals(pairs))
      && t.allocations == (map a | a in s.allocations && s.allocations[a].payment !in Dups(pairs) :: s.allocations[a])
      && t == s.(payments := t.payments, allocations := t.allocations, lines := t.lines, journals := t.journals, batches := t.batches)
  {
    ListedPaymentsReady(s.payments, pairs);
    VoidPaymentRowsEffect(s.payments, pairs);
    VoidPaymentsRows(s, pairs);
    VoidPaymentsLedger(s, pairs);
    VoidPaymentsFrame(s, pairs);
  }

  lemma {:induction false} VoidPaymentsFrame(s: Store, pairs: seq<DupPair>)
    ensures var t := VoidPayments(s, pairs);
      t == s.(payments := t.payments, allocations := t.allocations, lines := t.lines, journals := t.journals, batches := t.batches)
    decreases |pairs|
  {
    if pairs == [] {
    } else {
      VoidPaymentsFrame(VoidPayment(s, pairs[0]), pairs[1..]);
      VoidPairGlShape(s.(allocations := DropPaymentAllocations(s.allocations, pairs[0].dup)), pairs[0]);
    }
  }

  // ---- Invoices ----

  ghost predicate InvoicesReady(invoices: map<Id, Invoice>, pairs: seq<DupPair>) {
    && Disjoint(pairs)
    && forall i :: 0 <= i < |pairs| ==>
         pairs[i].dup in invoices && pairs[i].keeper in invoices && invoices[pairs[i].keeper].erpnextId.None?
  }

  function LinkedInvoice(invoice: Invoice, pair: DupPair): Invoice {
    if Truthy(pair.dupErpnextId) then invoice.(erpnextId := pair.dupErpnextId) else invoice
  }

  /** Each duplicate becomes VOID, each keeper takes its ERPNext id, nothing else changes. */
  ghost predicate InvoicesVoided(before: map<Id, Invoice>, after: map<Id, Invoice>, pairs: seq<DupPair>) {
    && after.Keys == before.Keys
    && (forall i :: 0 <= i < |pairs| ==>
          && pairs[i].dup in before && pairs[i].keeper in before
          && after[pairs[i].dup] == before[pairs[i].dup].(status := InvoiceStatus.Void)
          && after[pairs[i].keeper] == LinkedInvoice(before[pairs[i].keeper], pairs[i]))
    && (forall id :: id in before && (forall i :: 0 <= i < |pairs| ==> pairs[i].dup != id && pairs[i].keeper != id) ==>
          after[id] == before[id])
  }

  lemma NextInvoicesReady(invoices: map<Id, Invoice>, pairs: seq<DupPair>)
    requires pairs != [] && InvoicesReady(invoices, pairs)
    ensures InvoicesReady(VoidInvoiceRow(invoices, pairs[0]), pairs[1..])
  {
    assert forall i :: 0 <= i < |pairs[1..]| ==> pairs[1..][i] == pairs[i + 1];
  }

  lemma {:induction false} UntouchedInvoice(invoices: map<Id, Invoice>, pairs: seq<DupPair>, id: Id)
    requires id in invoices && forall i :: 0 <= i < |pairs| ==> pairs[i].dup != id && pairs[i].keeper != id
    ensures id in VoidInvoiceRows(invoices, pairs) && VoidInvoiceRows(invoices, pairs)[id] == invoices[id]
    decreases |pairs|
  {
    if pairs == [] {
    } else {
      UntouchedInvoice(VoidInvoiceRow(invoices, pairs[0]), pairs[1..], id);
    }
  }

  /** Pair k's own two rows after the whole list. */
  lemma {:induction false} PairedInvoices(invoices: map<Id, Invoice>, pairs: seq<DupPair>, k: nat)
    requires InvoicesReady(invoices, pairs) && k < |pairs|
    ensures var after := VoidInvoiceRows(invoices, pairs);
      && pairs[k].dup in after && pairs[k].keeper in after
      && after[pairs[k].dup] == invoices[pairs[k].dup].(status := InvoiceStatus.Void)
      && after[pairs[k].keeper] == LinkedInvoice(invoices[pairs[k].keeper], pairs[k])
    decreases |pairs|
  {
    var rest, next := pairs[1..], VoidInvoiceRow(invoices, pairs[0]);
    NextInvoicesReady(invoices, pairs);
    if k == 0 {
      UntouchedInvoice(next, rest, pairs[0].dup);
      UntouchedInvoice(next, rest, pairs[0].keeper);
    } else {
      assert rest[k - 1] == pairs[k];
      PairedInvoices(next, rest, k - 1);
    }
  }

  lemma {:induction false} VoidInvoiceRowKeys(invoices: map<Id, Invoice>, pairs: seq<DupPair>)
    requires InvoicesReady(invoices, pairs)
    ensures VoidInvoiceRows(invoices, pairs).Keys == invoices.Keys
    decreases |pairs|
  {
    if pairs == [] {
    } else {
      NextInvoicesReady(invoices, pairs);
      VoidInvoiceRowKeys(VoidInvoiceRow(invoices, pairs[0]), pairs[1..]);
    }
  }

  lemma VoidInvoiceRowsEffect(invoices: map<Id, Invoice>, pairs: seq<DupPair>)
    requires InvoicesReady(invoices, pairs)
    ensures InvoicesVoided(invoices, VoidInvoiceRows(invoices, pairs), pairs)
  {
    VoidInvoiceRowKeys(invoices, pairs);
    forall k | 0 <= k < |pairs|
      ensures VoidInvoiceRows(invoices, pairs)[pairs[k].dup] == invoices[pairs[k].dup].(status := InvoiceStatus.Void)
      ensures VoidInvoiceRows(invoices, pairs)[pairs[k].keeper] == LinkedInvoice(invoices[pairs[k].keeper], pairs[k])
    {
      PairedInvoices(invoices, pairs, k);
    }
    forall id | id in invoices && forall i :: 0 <= i < |pairs| ==> pairs[i].dup != id && pairs[i].keeper != id
      ensures VoidInvoiceRows(invoices, pairs)[id] == invoices[id]
    {
      UntouchedInvoice(invoices, pairs, id);
    }
  }

  lemma ListedInvoicesReady(invoices: map<Id, Invoice>, pairs: seq<DupPair>)
    requires NoRepeats(pairs) && forall p :: p in pairs ==> IsInvoicePair(invoices, p)
    ensures InvoicesReady(invoices, pairs)
  {
    forall i, j | 0 <= i < |pairs| && 0 <= j < |pairs|
      ensures pairs[i].keeper != pairs[j].dup
      ensures i != j ==> pairs[i].dup != pairs[j].dup && pairs[i].keeper != pairs[j].keeper
    {
      assert pairs[i] in pairs && pairs[j] in pairs;
      InvoicePairsInjective(invoices, pairs[i], pairs[j]);
    }
    forall i | 0 <= i < |pairs| ensures IsInvoicePair(invoices, pairs[i]) {
      assert pairs[i] in pairs;
    }
  }

  lemma {:induction false} VoidInvoicesLedger(s: Store, pairs: seq<DupPair>)
    ensures JournalsVoided(s, VoidInvoices(s, pairs), Journals(pairs))
    decreases |pairs|
  {
    if pairs == [] {
    } else {
      var first := VoidInvoice(s, pairs[0]);
      var cleaned := s.(allocations := DropInvoiceAllocations(s.allocations, pairs[0].dup),
                        lineTaxes := DropLineTaxes(s.lineTaxes, pairs[0].dup));
      assert JournalsVoided(s, first, Journals([pairs[0]])) by {
        VoidPairGlEffect(cleaned, pairs[0]);
      }
      VoidInvoicesLedger(first, pairs[1..]);
      JournalsVoidedCompose(s, first, VoidInvoices(s, pairs), Journals([pairs[0]]), Journals(pairs[1..]));
      SplitJournals(pairs);
    }
  }

  lemma VoidInvoiceDetails(s: Store, pair: DupPair)
    ensures VoidInvoice(s, pair).allocations == DropInvoiceAllocations(s.allocations, pair.dup)
    ensures VoidInvoice(s, pair).lineTaxes == DropLineTaxes(s.lineTaxes, pair.dup)
  {
    VoidPairGlShape(s.(allocations := DropInvoiceAllocations(s.allocations, pair.dup),
                       lineTaxes := DropLineTaxes(s.lineTaxes, pair.dup)), pair);
  }

  lemma {:induction false} VoidInvoicesDetails(s: Store, pairs: seq<DupPair>)
    ensures VoidInvoices(s, pairs).allocations
         == map a | a in s.allocations && s.allocations[a].invoice !in Dups(pairs) :: s.allocations[a]
    ensures VoidInvoices(s, pairs).lineTaxes == map t | t in s.lineTaxes && s.lineTaxes[t] !in Dups(pairs) :: s.lineTaxes[t]
    decreases |pairs|
  {
    if pairs == [] {
    } else {
      VoidInvoiceDetails(s, pairs[0]);
      VoidInvoicesDetails(VoidInvoice(s, pairs[0]), pairs[1..]);
      SplitJournals(pairs);
    }
  }

  /** The same for invoice pairs; the duplicates' line taxes go as well. */
  lemma VoidInvoicesEffect(s: Store, pairs: seq<DupPair>)
    requires NoRepeats(pairs) && forall p :: p in pairs ==> IsInvoicePair(s.invoices, p)
    ensures var t := VoidInvoices(s, pairs);
      && InvoicesVoided(s.invoices, t.invoices, pairs)
      && JournalsVoided(s, t, Journals(pairs))
      && t.allocations == (map a | a in s.allocations && s.allocations[a].invoice !in Dups(pairs) :: s.allocations[a])
      && t.lineTaxes == (map x | x in s.lineTaxes && s.lineTaxes[x] !in Dups(pairs) :: s.lineTaxes[x])
      && t == s.(invoices := t.invoices, allocations := t.allocations, lineTaxes := t.lineTaxes,
                 lines := t.lines, journals := t.journals, batches := t.batches)
  {
    ListedInvoicesReady(s.invoices, pairs);
    VoidInvoiceRowsEffect(s.invoices, pairs);
    VoidInvoicesRows(s, pairs);
    VoidInvoicesLedger(s, pairs);
    VoidInvoicesDetails(s, pairs);
    VoidInvoicesFrame(s, pairs);
  }

  lemma {:induction false} VoidInvoicesFrame(s: Store, pairs: seq<DupPair>)
    ensures var t := VoidInvoices(s, pairs);
      t == s.(invoices := t.invoices, allocations := t.allocations, lineTaxes := t.lineTaxes,
              lines := t.lines, journals := t.journals, batches := t.batches)
    decreases |pairs|
  {
    if pairs == [] {
    } else {
      VoidInvoicesFrame(VoidInvoice(s, pairs[0]), pairs[1..]);
      VoidPairGlShape(s.(allocations := DropInvoiceAllocations(s.allocations, pairs[0].dup),
                         lineTaxes := DropLineTaxes(s.lineTaxes, pairs[0].dup)), pairs[0]);
    }
  }

  // ---- Posting batches over the whole run ----

  /** Every document names its journal's own posting batch. */
  ghost predicate BatchesAgree(s: Store, pairs: seq<DupPair>) {
    forall i :: 0 <= i < |pairs| && pairs[i].dupJournal.Some? ==>
      && pairs[i].dupJournal.value in s.journals
      && s.journals[pairs[i].dupJournal.value].batch == pairs[i].dupBatch
  }

  lemma VoidPairGlNoIdle(s: Store, pair: DupPair, rest: seq<DupPair>)
    requires NoIdleBatches(s) && BatchesAgree(s, [pair] + rest)
    ensures NoIdleBatches(VoidPairGl(s, pair)) && BatchesAgree(VoidPairGl(s, pair), rest)
  {
    assert ([pair] + rest)[0] == pair;
    if pair.dupJournal.Some? {
      BatchGoesWithLastJournal(s, pair.dupJournal.value, pair.dupBatch);
    }
    forall i | 0 <= i < |rest| && rest[i].dupJournal.Some?
      ensures rest[i].dupJournal.value in VoidPairGl(s, pair).journals
      ensures VoidPairGl(s, pair).journals[rest[i].dupJournal.value].batch == rest[i].dupBatch
    {
      assert ([pair] + rest)[i + 1] == rest[i];
    }
  }

  /** After voiding payments a posting batch is left iff one of its journals is still live. */
  lemma PaymentBatchesFollowJournals(s: Store, pairs: seq<DupPair>)
    requires LiveBatchesExist(s) && NoIdleBatches(s) && BatchesAgree(s, pairs)
    ensures NoIdleBatches(VoidPayments(s, pairs))
    ensures forall b :: b in s.batches ==>
      (b in VoidPayments(s, pairs).batches <==> Holds(VoidPayments(s, pairs), b))
  {
    PaymentsKeepNoIdle(s, pairs);
    VoidPaymentsKeepLiveBatches(s, pairs);
  }

  lemma {:induction false} PaymentsKeepNoIdle(s: Store, pairs: seq<DupPair>)
    requires NoIdleBatches(s) && BatchesAgree(s, pairs)
    ensures NoIdleBatches(VoidPayments(s, pairs))
    decreases |pairs|
  {
    if pairs == [] {
    } else {
      var cleaned := s.(allocations := DropPaymentAllocations(s.allocations, pairs[0].dup));
      assert pairs == [pairs[0]] + pairs[1..];
      SameJournalsIdle(s, cleaned, pairs);
      VoidPairGlNoIdle(cleaned, pairs[0], pairs[1..]);
      SameJournalsIdle(VoidPairGl(cleaned, pairs[0]), VoidPayment(s, pairs[0]), pairs[1..]);
      PaymentsKeepNoIdle(VoidPayment(s, pairs[0]), pairs[1..]);
    }
  }

  lemma SameJournalsIdle(s: Store, t: Store, pairs: seq<DupPair>)
    requires NoIdleBatches(s) && BatchesAgree(s, pairs) && t.journals == s.journals && t.batches == s.batches
    ensures NoIdleBatches(t) && BatchesAgree(t, pairs)
  {
    forall b | b in t.batches ensures Holds(t, b) {
      assert Holds(s, b);
    }
  }

  /** And the same after voiding invoices. */
  lemma InvoiceBatchesFollowJournals(s: Store, pairs: seq<DupPair>)
    requires LiveBatchesExist(s) && NoIdleBatches(s) && BatchesAgree(s, pairs)
    ensures NoIdleBatches(VoidInvoices(s, pairs))
    ensures forall b :: b in s.batches ==>
      (b in VoidInvoices(s, pairs).batches <==> Holds(VoidInvoices(s, pairs), b))
  {
    InvoicesKeepNoIdle(s, pairs);
    VoidInvoicesKeepLiveBatches(s, pairs);
  }

  lemma {:induction false} InvoicesKeepNoIdle(s: Store, pairs: seq<DupPair>)
    requires NoIdleBatches(s) && BatchesAgree(s, pairs)
    ensures NoIdleBatches(VoidInvoices(s, pairs))
    decreases |pairs|
  {
    if pairs == [] {
    } else {
      var cleaned := s.(allocations := DropInvoiceAllocations(s.allocations, pairs[0].dup),
                        lineTaxes := DropLineTaxes(s.lineTaxes, pairs[0].dup));
      assert pairs == [pairs[0]] + pairs[1..];
      SameJournalsIdle(s, cleaned, pairs);
      VoidPairGlNoIdle(cleaned, pairs[0], pairs[1..]);
      SameJournalsIdle(VoidPairGl(cleaned, pairs[0]), VoidInvoice(s, pairs[0]), pairs[1..]);
      InvoicesKeepNoIdle(VoidInvoice(s, pairs[0]), pairs[1..]);
    }
  }

  // ---- Resuming after failures ----

  lemma SameMembers(xs: seq<DupPair>, ys: seq<DupPair>)
    requires forall p :: p in xs <==> p in ys
    ensures Dups(xs) == Dups(ys) && Journals(xs) == Journals(ys)
  {
  }

  lemma SameJournalsVoided(s: Store, t: Store, u: Store, js: set<Id>)
    requires JournalsVoided(s, t, js) && JournalsVoided(s, u, js)
    ensures t.lines == u.lines && t.journals == u.journals
  {
  }

  lemma SameBatches(s: Store, t: Store, u: Store)
    requires t.batches <= s.batches && u.batches <= s.batches && t.journals == u.journals
    requires forall b :: b in s.batches ==> (b in t.batches <==> Holds(t, b))
    requires forall b :: b in s.batches ==> (b in u.batches <==> Holds(u, b))
    ensures t.batches == u.batches
  {
    forall b | b in s.batches ensures b in t.batches <==> b in u.batches {
      assert Holds(t, b) <==> Holds(u, b);
    }
  }

  lemma AppendNoRepeats(xs: seq<DupPair>, ys: seq<DupPair>)
    requires NoRepeats(xs) && NoRepeats(ys) && forall p :: p in ys ==> p !in xs
    ensures NoRepeats(xs + ys)
  {
    forall i, j | 0 <= i < j < |xs + ys| ensures (xs + ys)[i] != (xs + ys)[j] {
      assert i < |xs| <= j ==> xs[i] in xs && ys[j - |xs|] in ys;
    }
  }

  lemma AgreeOnMembers(s: Store, xs: seq<DupPair>, ys: seq<DupPair>)
    requires BatchesAgree(s, xs) && forall p :: p in ys ==> p in xs
    ensures BatchesAgree(s, ys)
  {
    forall j | 0 <= j < |ys| && ys[j].dupJournal.Some?
      ensures ys[j].dupJournal.value in s.journals
      ensures s.journals[ys[j].dupJournal.value].batch == ys[j].dupBatch
    {
      assert ys[j] in xs;
      var i :| 0 <= i < |xs| && xs[i] == ys[j];
    }
  }

  lemma PaymentsVoidedDetermined(before: map<Id, Payment>, xs: seq<DupPair>, ys: seq<DupPair>, a: map<Id, Payment>, b: map<Id, Payment>)
    requires forall p :: p in xs <==> p in ys
    requires PaymentsVoided(before, a, xs) && PaymentsVoided(before, b, ys)
    ensures a == b
  {
    forall id | id in before ensures a[id] == b[id] {
      if i :| 0 <= i < |xs| && (xs[i].dup == id || xs[i].keeper == id) {
        assert xs[i] in ys;
        var j :| 0 <= j < |ys| && ys[j] == xs[i];
      } else {
        forall j | 0 <= j < |ys| ensures ys[j].dup != id && ys[j].keeper != id {
          assert ys[j] in xs;
          var i :| 0 <= i < |xs| && xs[i] == ys[j];
        }
      }
    }
  }

  /** The pairs may be taken in any order. */
  lemma VoidPaymentsOrderFree(s: Store, xs: seq<DupPair>, ys: seq<DupPair>)
    requires LiveBatchesExist(s) && NoIdleBatches(s) && BatchesAgree(s, xs) && BatchesAgree(s, ys)
    requires NoRepeats(xs) && NoRepeats(ys) && forall p :: p in xs <==> p in ys
    requires forall p :: p in xs ==> IsPaymentPair(s.payments, p)
    ensures VoidPayments(s, xs) == VoidPayments(s, ys)
  {
    var t, u := VoidPayments(s, xs), VoidPayments(s, ys);
    VoidPaymentsEffect(s, xs);
    VoidPaymentsEffect(s, ys);
    SameMembers(xs, ys);
    PaymentsVoidedDetermined(s.payments, xs, ys, t.payments, u.payments);
    SameJournalsVoided(s, t, u, Journals(xs));
    PaymentBatchesFollowJournals(s, xs);
    PaymentBatchesFollowJournals(s, ys);
    SameBatches(s, t, u);
  }

  /**
   A run with failed batches followed by a run without any ends exactly where an
   undisturbed run does, in whatever order either query lists its pairs.
   */
  lemma ResumedPaymentRunConverges(s: Store, pairs: seq<DupPair>, outcome: nat -> BatchOutcome, retried: seq<DupPair>)
    requires LiveBatchesExist(s) && NoIdleBatches(s)
    requires IsPaymentPairListing(s.payments, pairs) && BatchesAgree(s, pairs)
    requires forall p :: p in pairs ==> Truthy(p.dupErpnextId)
    requires IsPaymentPairListing(VoidPayments(s, Successful(pairs, outcome, 0)).payments, retried)
    ensures VoidPayments(VoidPayments(s, Successful(pairs, outcome, 0)), retried) == VoidPayments(s, pairs)
  {
    var done := Successful(pairs, outcome, 0);
    SuccessfulAreListed(pairs, outcome, 0);
    forall p ensures p in retried <==> p in pairs && p !in done {
      FailedBatchesAreRetried(s, pairs, outcome, p);
    }
    var all := done + retried;
    forall p ensures p in all <==> p in pairs { assert p in all <==> p in done || p in retried; }
    AppendNoRepeats(done, retried);
    AgreeOnMembers(s, pairs, all);
    VoidPaymentsOrderFree(s, all, pairs);
    VoidPaymentsSplit(s, done, retried);
  }

  lemma InvoicesVoidedDetermined(before: map<Id, Invoice>, xs: seq<DupPair>, ys: seq<DupPair>, a: map<Id, Invoice>, b: map<Id, Invoice>)
    requires forall p :: p in xs <==> p in ys
    requires InvoicesVoided(before, a, xs) && InvoicesVoided(before, b, ys)
    ensures a == b
  {
    forall id | id in before ensures a[id] == b[id] {
      if i :| 0 <= i < |xs| && (xs[i].dup == id || xs[i].keeper == id) {
        assert xs[i] in ys;
        var j :| 0 <= j < |ys| && ys[j] == xs[i];
      } else {
        forall j | 0 <= j < |ys| ensures ys[j].dup != id && ys[j].keeper != id {
          assert ys[j] in xs;
          var i :| 0 <= i < |xs| && xs[i] == ys[j];
        }
      }
    }
  }

  /** The pairs may be taken in any order. */
  lemma VoidInvoicesOrderFree(s: Store, xs: seq<DupPair>, ys: seq<DupPair>)
    requires LiveBatchesExist(s) && NoIdleBatches(s) && BatchesAgree(s, xs) && BatchesAgree(s, ys)
    requires NoRepeats(xs) && NoRepeats(ys) && forall p :: p in xs <==> p in ys
    requires forall p :: p in xs ==> IsInvoicePair(s.invoices, p)
    ensures VoidInvoices(s, xs) == VoidInvoices(s, ys)
  {
    var t, u := VoidInvoices(s, xs), VoidInvoices(s, ys);
    VoidInvoicesEffect(s, xs);
    VoidInvoicesEffect(s, ys);
    SameMembers(xs, ys);
    InvoicesVoidedDetermined(s.invoices, xs, ys, t.invoices, u.invoices);
    SameJournalsVoided(s, t, u, Journals(xs));
    InvoiceBatchesFollowJournals(s, xs);
    InvoiceBatchesFollowJournals(s, ys);
    SameBatches(s, t, u);
  }

  /**
   A run with failed batches followed by a run without any ends exactly where an
   undisturbed run does, in whatever order either query lists its pairs.
   */
  lemma ResumedInvoiceRunConverges(s: Store, pairs: seq<DupPair>, outcome: nat -> BatchOutcome, retried: seq<DupPair>)
    requires LiveBatchesExist(s) && NoIdleBatches(s)
    requires IsInvoicePairListing(s.invoices, pairs) && BatchesAgree(s, pairs)
    requires forall p :: p in pairs ==> Truthy(p.dupErpnextId)
    requires IsInvoicePairListing(VoidInvoices(s, Successful(pairs, outcome, 0)).invoices, retried)
    ensures VoidInvoices(VoidInvoices(s, Successful(pairs, outcome, 0)), retried) == VoidInvoices(s, pairs)
  {
    var done := Successful(pairs, outcome, 0);
    SuccessfulAreListed(pairs, outcome, 0);
    forall p ensures p in retried <==> p in pairs && p !in done {
      FailedInvoiceBatchesAreRetried(s, pairs, outcome, p);
    }
    var all := done + retried;
    forall p ensures p in all <==> p in pairs { assert p in all <==> p in done || p in retried; }
    AppendNoRepeats(done, retried);
    AgreeOnMembers(s, pairs, all);
    VoidInvoicesOrderFree(s, all, pairs);
    VoidInvoicesSplit(s, done, retried);
  }
}
