/**
 Voiding duplicate payments and invoices in savepointed batches
 (steps 2 and 4 of scripts/dedup_ar_transactions.py).
 */
module DedupVoid {
  import opened Basics
  import opened Sessions
  import opened ErpStore
  import opened GeneralLedger
  import opened Ranking
  import opened DedupPairs

  const BATCH_SIZE := 500

  /** A batch either goes through or raises: at a pair, or (k past the end) when its savepoint is released. */
  datatype BatchOutcome = Succeeds | FailsAt(k: nat)

  function VoidPayments(s: Store, pairs: seq<DupPair>): Store
    decreases |pairs|
  {
    if pairs == [] then s else VoidPayments(VoidPayment(s, pairs[0]), pairs[1..])
  }

  function VoidInvoices(s: Store, pairs: seq<DupPair>): Store
    decreases |pairs|
  {
    if pairs == [] then s else VoidInvoices(VoidInvoice(s, pairs[0]), pairs[1..])
  }

  function BatchEnd<T>(pairs: seq<T>): nat {
    if |pairs| <= BATCH_SIZE then |pairs| else BATCH_SIZE
  }

  /** The pairs whose batch went through, numbering batches from b. */
  function Successful<T>(pairs: seq<T>, outcome: nat -> BatchOutcome, b: nat): seq<T>
    decreases |pairs|
  {
    if pairs == [] then []
    else (if outcome(b).Succeeds? then pairs[..BatchEnd(pairs)] else [])
         + Successful(pairs[BatchEnd(pairs)..], outcome, b + 1)
  }

  lemma {:induction false} VoidPaymentsSplit(s: Store, xs: seq<DupPair>, ys: seq<DupPair>)
    ensures VoidPayments(s, xs + ys) == VoidPayments(VoidPayments(s, xs), ys)
    decreases |xs|
  {
    if xs == [] {
      assert xs + ys == ys;
    } else {
      assert (xs + ys)[1..] == xs[1..] + ys;
      VoidPaymentsSplit(VoidPayment(s, xs[0]), xs[1..], ys);
    }
  }

  lemma {:induction false} VoidInvoicesSplit(s: Store, xs: seq<DupPair>, ys: seq<DupPair>)
    ensures VoidInvoices(s, xs + ys) == VoidInvoices(VoidInvoices(s, xs), ys)
    decreases |xs|
  {
    if xs == [] {
      assert xs + ys == ys;
    } else {
      assert (xs + ys)[1..] == xs[1..] + ys;
      VoidInvoicesSplit(VoidInvoice(s, xs[0]), xs[1..], ys);
    }
  }

  // ---- The batch loops ----

  lemma PaymentBatchStep(s: Store, rest: seq<DupPair>, outcome: nat -> BatchOutcome, b: nat)
    requires rest != []
    ensures VoidPayments(s, Successful(rest, outcome, b))
         == VoidPayments(if outcome(b).Succeeds? then VoidPayments(s, rest[..BatchEnd(rest)]) else s,
                     Successful(rest[BatchEnd(rest)..], outcome, b + 1))
  {
    var tail := Successful(rest[BatchEnd(rest)..], outcome, b + 1);
    if outcome(b).Succeeds? {
      VoidPaymentsSplit(s, rest[..BatchEnd(rest)], tail);
    } else {
      assert Successful(rest, outcome, b) == tail;
    }
  }

  method VoidOnePayment(db: Session<Store>, pair: DupPair)
    modifies db`current
    ensures db.current == VoidPayment(old(db.current), pair)
  {
    db.Write(db.current.(allocations := DropPaymentAllocations(db.current.allocations, pair.dup)));
    if pair.dupJournal.Some? {
      var _ := VoidGlForJournal(db, pair.dupJournal.value, pair.dupBatch);
    }
    if pair.dup in db.current.payments {
      db.Write(db.current.(payments :=
        db.current.payments[pair.dup := db.current.payments[pair.dup].(status := PaymentStatus.Void)]));
    }
    if Truthy(pair.dupErpnextId) {
      if pair.keeper in db.current.payments && db.current.payments[pair.keeper].erpnextId.None? {
        db.Write(db.current.(payments :=
          db.current.payments[pair.keeper := db.current.payments[pair.keeper].(erpnextId := pair.dupErpnextId)]));
      }
    }
  }

  method PaymentBatch(db: Session<Store>, batch: seq<DupPair>, outcome: BatchOutcome)
    modifies db`current, db`savepoints
    ensures db.savepoints == old(db.savepoints)
    ensures db.current == if outcome.Succeeds? then VoidPayments(old(db.current), batch) else old(db.current)
  {
    db.BeginNested();
    ghost var s := db.current;
    for i := 0 to |batch|
      invariant db.savepoints == old(db.savepoints) + [s]
      invariant VoidPayments(db.current, batch[i..]) == VoidPayments(s, batch)
    {
      if outcome == FailsAt(i) {
        db.RollbackToSavepoint();
        return;
      }
      VoidOnePayment(db, batch[i]);
      assert batch[i..][1..] == batch[i + 1..];
    }
    if outcome.Succeeds? {
      db.ReleaseSavepoint();
    } else {
      db.RollbackToSavepoint();
    }
  }

  /** step2_void_dup_payments: whatever fails, the result is the successful batches applied in order. */
  method VoidDupPayments(db: Session<Store>, pairs: seq<DupPair>, outcome: nat -> BatchOutcome, dryRun: bool)
    modifies db`current, db`savepoints
    ensures db.savepoints == old(db.savepoints)
    ensures db.current == if dryRun then old(db.current)
                          else VoidPayments(old(db.current), Successful(pairs, outcome, 0))
  {
    if dryRun {
      return;
    }
    ghost var s := db.current;
    var rest, b := pairs, 0;
    while rest != []
      invariant db.savepoints == old(db.savepoints)
      invariant VoidPayments(db.current, Successful(rest, outcome, b)) == VoidPayments(s, Successful(pairs, outcome, 0))
      decreases |rest|
    {
      PaymentBatchStep(db.current, rest, outcome, b);
      PaymentBatch(db, rest[..BatchEnd(rest)], outcome(b));
      rest, b := rest[BatchEnd(rest)..], b + 1;
    }
  }

  lemma InvoiceBatchStep(s: Store, rest: seq<DupPair>, outcome: nat -> BatchOutcome, b: nat)
    requires rest != []
    ensures VoidInvoices(s, Successful(rest, outcome, b))
         == VoidInvoices(if outcome(b).Succeeds? then VoidInvoices(s, rest[..BatchEnd(rest)]) else s,
                     Successful(rest[BatchEnd(rest)..], outcome, b + 1))
  {
    var tail := Successful(rest[BatchEnd(rest)..], outcome, b + 1);
    if outcome(b).Succeeds? {
      VoidInvoicesSplit(s, rest[..BatchEnd(rest)], tail);
    } else {
      assert Successful(rest, outcome, b) == tail;
    }
  }

  method VoidOneInvoice(db: Session<Store>, pair: DupPair)
    modifies db`current
    ensures db.current == VoidInvoice(old(db.current), pair)
  {
    db.Write(db.current.(allocations := DropInvoiceAllocations(db.current.allocations, pair.dup)));
    db.Write(db.current.(lineTaxes := DropLineTaxes(db.current.lineTaxes, pair.dup)));
    if pair.dupJournal.Some? {
      var _ := VoidGlForJournal(db, pair.dupJournal.value, pair.dupBatch);
    }
    if pair.dup in db.current.invoices {
      db.Write(db.current.(invoices :=
        db.current.invoices[pair.dup := db.current.invoices[pair.dup].(status := InvoiceStatus.Void)]));
    }
    if Truthy(pair.dupErpnextId) {
      if pair.keeper in db.current.invoices && db.current.invoices[pair.keeper].erpnextId.None? {
        db.Write(db.current.(invoices :=
          db.current.invoices[pair.keeper := db.current.invoices[pair.keeper].(erpnextId := pair.dupErpnextId)]));
      }
    }
  }

  method InvoiceBatch(db: Session<Store>, batch: seq<DupPair>, outcome: BatchOutcome)
    modifies db`current, db`savepoints
    ensures db.savepoints == old(db.savepoints)
    ensures db.current == if outcome.Succeeds? then VoidInvoices(old(db.current), batch) else old(db.current)
  {
    db.BeginNested();
    ghost var s := db.current;
    for i := 0 to |batch|
      invariant db.savepoints == old(db.savepoints) + [s]
      invariant VoidInvoices(db.current, batch[i..]) == VoidInvoices(s, batch)
    {
      if outcome == FailsAt(i) {
        db.RollbackToSavepoint();
        return;
      }
      VoidOneInvoice(db, batch[i]);
      assert batch[i..][1..] == batch[i + 1..];
    }
    if outcome.Succeeds? {
      db.ReleaseSavepoint();
    } else {
      db.RollbackToSavepoint();
    }
  }

  /** step4_void_dup_invoices */
  method VoidDupInvoices(db: Session<Store>, pairs: seq<DupPair>, outcome: nat -> BatchOutcome, dryRun: bool)
    modifies db`current, db`savepoints
    ensures db.savepoints == old(db.savepoints)
    ensures db.current == if dryRun then old(db.current)
                          else VoidInvoices(old(db.current), Successful(pairs, outcome, 0))
  {
    if dryRun {
      return;
    }
    ghost var s := db.current;
    var rest, b := pairs, 0;
    while rest != []
      invariant db.savepoints == old(db.savepoints)
      invariant VoidInvoices(db.current, Successful(rest, outcome, b)) == VoidInvoices(s, Successful(pairs, outcome, 0))
      decreases |rest|
    {
      InvoiceBatchStep(db.current, rest, outcome, b);
      InvoiceBatch(db, rest[..BatchEnd(rest)], outcome(b));
      rest, b := rest[BatchEnd(rest)..], b + 1;
    }
  }

  lemma {:induction false} SuccessfulAreListed<T>(pairs: seq<T>, outcome: nat -> BatchOutcome, b: nat)
    requires NoRepeats(pairs)
    ensures NoRepeats(Successful(pairs, outcome, b))
    ensures forall p :: p in Successful(pairs, outcome, b) ==> p in pairs
    ensures |Successful(pairs, outcome, b)| <= |pairs|
    ensures |Successful(pairs, outcome, b)| == |pairs| ==> Successful(pairs, outcome, b) == pairs
    decreases |pairs|
  {
    if pairs == [] {
    } else {
      var n := BatchEnd(pairs);
      var head, tail := pairs[..n], pairs[n..];
      SuccessfulAreListed(tail, outcome, b + 1);
      assert pairs == head + tail;
      var rest := Successful(tail, outcome, b + 1);
      forall i, j | 0 <= i < |head| && 0 <= j < |rest| ensures head[i] != rest[j] {
        assert rest[j] in tail;
      }
    }
  }

  // ---- Soundness of the ledger and of allocations, for any list of pairs ----

  /** No allocation points at a missing or VOID payment or invoice. */
  ghost predicate OrphanFree(s: Store) {
    forall a :: a in s.allocations ==>
      && s.allocations[a].payment in s.payments
      && s.payments[s.allocations[a].payment].status != PaymentStatus.Void
      && s.allocations[a].invoice in s.invoices
      && s.invoices[s.allocations[a].invoice].status != InvoiceStatus.Void
  }

  lemma VoidPairGlShape(s: Store, pair: DupPair)
    ensures VoidPairGl(s, pair) == s.(lines := VoidPairGl(s, pair).lines, journals := VoidPairGl(s, pair).journals,
                                      batches := VoidPairGl(s, pair).batches)
  {
  }

  lemma VoidPairGlKeepsSound(s: Store, pair: DupPair)
    requires GlSound(s)
    ensures GlSound(VoidPairGl(s, pair))
  {
    if pair.dupJournal.Some? {
      VoidGlKeepsSound(s, pair.dupJournal.value, pair.dupBatch);
    }
  }

  lemma SameLedgerSound(s: Store, t: Store)
    requires GlSound(s) && t.lines == s.lines && t.journals == s.journals
    ensures GlSound(t)
  {
  }

  lemma VoidPaymentKeepsGl(s: Store, pair: DupPair)
    requires GlSound(s)
    ensures GlSound(VoidPayment(s, pair))
  {
    var cleaned := s.(allocations := DropPaymentAllocations(s.allocations, pair.dup));
    SameLedgerSound(s, cleaned);
    VoidPairGlKeepsSound(cleaned, pair);
    SameLedgerSound(VoidPairGl(cleaned, pair), VoidPayment(s, pair));
  }

  lemma VoidPaymentShape(s: Store, pair: DupPair)
    ensures VoidPayment(s, pair).allocations == DropPaymentAllocations(s.allocations, pair.dup)
    ensures VoidPayment(s, pair).payments == VoidPaymentRow(s.payments, pair)
    ensures VoidPayment(s, pair).invoices == s.invoices
    ensures VoidPayment(s, pair).customers == s.customers
  {
    VoidPairGlShape(s.(allocations := DropPaymentAllocations(s.allocations, pair.dup)), pair);
  }

  lemma VoidPaymentRowStatus(payments: map<Id, Payment>, pair: DupPair)
    ensures VoidPaymentRow(payments, pair).Keys == payments.Keys
    ensures forall id :: id in payments && id != pair.dup ==>
      VoidPaymentRow(payments, pair)[id].status == payments[id].status
  {
  }

  lemma DropPaymentOrphans(s: Store, t: Store, dup: Id)
    requires OrphanFree(s)
    requires t.allocations == DropPaymentAllocations(s.allocations, dup) && t.invoices == s.invoices
    requires t.payments.Keys == s.payments.Keys
    requires forall id :: id in t.payments && id != dup ==> t.payments[id].status == s.payments[id].status
    ensures OrphanFree(t)
  {
  }

  lemma VoidPaymentKeepsOrphanFree(s: Store, pair: DupPair)
    requires OrphanFree(s)
    ensures OrphanFree(VoidPayment(s, pair))
  {
    var t := VoidPayment(s, pair);
    assert t.allocations == DropPaymentAllocations(s.allocations, pair.dup) && t.invoices == s.invoices by {
      VoidPaymentShape(s, pair);
    }
    assert t.payments == VoidPaymentRow(s.payments, pair) by {
      VoidPaymentShape(s, pair);
    }
    VoidPaymentRowStatus(s.payments, pair);
    DropPaymentOrphans(s, t, pair.dup);
  }

  lemma {:induction false} VoidPaymentsKeepSound(s: Store, pairs: seq<DupPair>)
    requires GlSound(s) && OrphanFree(s)
    ensures GlSound(VoidPayments(s, pairs)) && OrphanFree(VoidPayments(s, pairs))
    ensures VoidPayments(s, pairs).invoices == s.invoices && VoidPayments(s, pairs).customers == s.customers
    decreases |pairs|
  {
    if pairs == [] {
    } else {
      VoidPaymentKeepsGl(s, pairs[0]);
      VoidPaymentKeepsOrphanFree(s, pairs[0]);
      VoidPaymentsKeepSound(VoidPayment(s, pairs[0]), pairs[1..]);
    }
  }

  lemma VoidInvoiceKeepsGl(s: Store, pair: DupPair)
    requires GlSound(s)
    ensures GlSound(VoidInvoice(s, pair))
  {
    var cleaned := s.(allocations := DropInvoiceAllocations(s.allocations, pair.dup),
                      lineTaxes := DropLineTaxes(s.lineTaxes, pair.dup));
    SameLedgerSound(s, cleaned);
    VoidPairGlKeepsSound(cleaned, pair);
    SameLedgerSound(VoidPairGl(cleaned, pair), VoidInvoice(s, pair));
  }

  lemma VoidInvoiceShape(s: Store, pair: DupPair)
    ensures VoidInvoice(s, pair).allocations == DropInvoiceAllocations(s.allocations, pair.dup)
    ensures VoidInvoice(s, pair).invoices == VoidInvoiceRow(s.invoices, pair)
    ensures VoidInvoice(s, pair).payments == s.payments
    ensures VoidInvoice(s, pair).customers == s.customers
  {
    VoidPairGlShape(s.(allocations := DropInvoiceAllocations(s.allocations, pair.dup), lineTaxes := DropLineTaxes(s.lineTaxes, pair.dup)), pair);
  }

  lemma VoidInvoiceRowStatus(invoices: map<Id, Invoice>, pair: DupPair)
    ensures VoidInvoiceRow(invoices, pair).Keys == invoices.Keys
    ensures forall id :: id in invoices && id != pair.dup ==>
      VoidInvoiceRow(invoices, pair)[id].status == invoices[id].status
  {
  }

  lemma DropInvoiceOrphans(s: Store, t: Store, dup: Id)
    requires OrphanFree(s)
    requires t.allocations == DropInvoiceAllocations(s.allocations, dup) && t.payments == s.payments
    requires t.invoices.Keys == s.invoices.Keys
    requires forall id :: id in t.invoices && id != dup ==> t.invoices[id].status == s.invoices[id].status
    ensures OrphanFree(t)
  {
  }

  lemma VoidInvoiceKeepsOrphanFree(s: Store, pair: DupPair)
    requires OrphanFree(s)
    ensures OrphanFree(VoidInvoice(s, pair))
  {
    var t := VoidInvoice(s, pair);
    assert t.allocations == DropInvoiceAllocations(s.allocations, pair.dup) && t.payments == s.payments by {
      VoidInvoiceShape(s, pair);
    }
    assert t.invoices == VoidInvoiceRow(s.invoices, pair) by {
      VoidInvoiceShape(s, pair);
    }
    VoidInvoiceRowStatus(s.invoices, pair);
    DropInvoiceOrphans(s, t, pair.dup);
  }

  lemma {:induction false} VoidInvoicesKeepSound(s: Store, pairs: seq<DupPair>)
    requires GlSound(s) && OrphanFree(s)
    ensures GlSound(VoidInvoices(s, pairs)) && OrphanFree(VoidInvoices(s, pairs))
    ensures VoidInvoices(s, pairs).payments == s.payments && VoidInvoices(s, pairs).customers == s.customers
    decreases |pairs|
  {
    if pairs == [] {
    } else {
      VoidInvoiceKeepsGl(s, pairs[0]);
      VoidInvoiceKeepsOrphanFree(s, pairs[0]);
      VoidInvoicesKeepSound(VoidInvoice(s, pairs[0]), pairs[1..]);
    }
  }

  lemma VoidPairGlKeepsLiveBatches(s: Store, t: Store, pair: DupPair)
    requires LiveBatchesExist(s) && t.journals == s.journals && t.batches == s.batches
    ensures LiveBatchesExist(VoidPairGl(t, pair))
  {
    if pair.dupJournal.Some? {
      VoidGlKeepsLiveBatches(t, pair.dupJournal.value, pair.dupBatch);
    }
  }

  /** Voiding payments takes no live journal its posting batch. */
  lemma {:induction false} VoidPaymentsKeepLiveBatches(s: Store, pairs: seq<DupPair>)
    requires LiveBatchesExist(s)
    ensures LiveBatchesExist(VoidPayments(s, pairs))
    decreases |pairs|
  {
    if pairs == [] {
    } else {
      VoidPairGlKeepsLiveBatches(s, s.(allocations := DropPaymentAllocations(s.allocations, pairs[0].dup)), pairs[0]);
      assert LiveBatchesExist(VoidPayment(s, pairs[0]));
      VoidPaymentsKeepLiveBatches(VoidPayment(s, pairs[0]), pairs[1..]);
    }
  }

  lemma {:induction false} VoidInvoicesKeepLiveBatches(s: Store, pairs: seq<DupPair>)
    requires LiveBatchesExist(s)
    ensures LiveBatchesExist(VoidInvoices(s, pairs))
    decreases |pairs|
  {
    if pairs == [] {
    } else {
      VoidPairGlKeepsLiveBatches(
        s, s.(allocations := DropInvoiceAllocations(s.allocations, pairs[0].dup),
              lineTaxes := DropLineTaxes(s.lineTaxes, pairs[0].dup)), pairs[0]);
      assert LiveBatchesExist(VoidInvoice(s, pairs[0]));
      VoidInvoicesKeepLiveBatches(VoidInvoice(s, pairs[0]), pairs[1..]);
    }
  }

  lemma SuccessfulHead<T>(pairs: seq<T>, outcome: nat -> BatchOutcome, b: nat, pair: T)
    requires pairs != []
    ensures pair in Successful(pairs, outcome, b)
       <==> || (outcome(b).Succeeds? && pair in pairs[..BatchEnd(pairs)])
            || pair in Successful(pairs[BatchEnd(pairs)..], outcome, b + 1)
  {
  }

  /** What stands before n stands nowhere after it. */
  lemma OneSide<T>(xs: seq<T>, n: nat, i: nat)
    requires NoRepeats(xs) && n <= |xs| && i < |xs|
    ensures NoRepeats(xs[n..])
    ensures i < n ==> xs[i] in xs[..n] && xs[i] !in xs[n..]
    ensures i >= n ==> xs[n..][i - n] == xs[i] && xs[i] !in xs[..n]
  {
  }

  lemma InFirstBatch<T>(pairs: seq<T>, outcome: nat -> BatchOutcome, b: nat, i: nat)
    requires NoRepeats(pairs) && i < |pairs| && i < BatchEnd(pairs)
    ensures pairs[i] in Successful(pairs, outcome, b) <==> outcome(b).Succeeds?
  {
    OneSide(pairs, BatchEnd(pairs), i);
    SuccessfulHead(pairs, outcome, b, pairs[i]);
    SuccessfulAreListed(pairs[BatchEnd(pairs)..], outcome, b + 1);
  }

  lemma InLaterBatch<T>(pairs: seq<T>, outcome: nat -> BatchOutcome, b: nat, i: nat)
    requires NoRepeats(pairs) && BatchEnd(pairs) <= i < |pairs|
    ensures pairs[i] in Successful(pairs, outcome, b)
       <==> pairs[BatchEnd(pairs)..][i - BatchEnd(pairs)] in Successful(pairs[BatchEnd(pairs)..], outcome, b + 1)
  {
    OneSide(pairs, BatchEnd(pairs), i);
    SuccessfulHead(pairs, outcome, b, pairs[i]);
  }

  /** In numbers: the pair at place i goes through iff the batch of five hundred it belongs to does. */
  lemma {:induction false} SuccessfulAt<T>(pairs: seq<T>, outcome: nat -> BatchOutcome, b: nat, i: nat)
    requires NoRepeats(pairs) && i < |pairs|
    ensures pairs[i] in Successful(pairs, outcome, b) <==> outcome(b + i / 500).Succeeds?
    decreases |pairs|
  {
    if i < BatchEnd(pairs) {
      InFirstBatch(pairs, outcome, b, i);
    } else {
      InLaterBatch(pairs, outcome, b, i);
      SuccessfulAt(pairs[BatchEnd(pairs)..], outcome, b + 1, i - BatchEnd(pairs));
      assert BatchEnd(pairs) == 500 && (i - 500) / 500 == i / 500 - 1;
    }
  }

  // ---- What is left for a later run ----

  function VoidPaymentRows(payments: map<Id, Payment>, pairs: seq<DupPair>): map<Id, Payment>
    decreases |pairs|
  {
    if pairs == [] then payments else VoidPaymentRows(VoidPaymentRow(payments, pairs[0]), pairs[1..])
  }

  lemma {:induction false} VoidPaymentsRows(s: Store, pairs: seq<DupPair>)
    ensures VoidPayments(s, pairs).payments == VoidPaymentRows(s.payments, pairs)
    decreases |pairs|
  {
    if pairs == [] {
    } else {
      VoidPaymentsRows(VoidPayment(s, pairs[0]), pairs[1..]);
    }
  }

  function VoidInvoiceRows(invoices: map<Id, Invoice>, pairs: seq<DupPair>): map<Id, Invoice>
    decreases |pairs|
  {
    if pairs == [] then invoices else VoidInvoiceRows(VoidInvoiceRow(invoices, pairs[0]), pairs[1..])
  }

  lemma {:induction false} VoidInvoicesRows(s: Store, pairs: seq<DupPair>)
    ensures VoidInvoices(s, pairs).invoices == VoidInvoiceRows(s.invoices, pairs)
    decreases |pairs|
  {
    if pairs == [] {
    } else {
      VoidInvoicesRows(VoidInvoice(s, pairs[0]), pairs[1..]);
    }
  }

  /** One applied pair leaves both sides of the payment query. */
  lemma VoidPaymentSides(payments: map<Id, Payment>, pair: DupPair)
    requires IsPaymentPair(payments, pair) && Truthy(pair.dupErpnextId)
    ensures SplynxPayments(VoidPaymentRow(payments, pair))
         == SplynxPayments(payments) - {PaymentRow(pair.keeper, payments[pair.keeper])}
    ensures ErpnextPayments(VoidPaymentRow(payments, pair))
         == ErpnextPayments(payments) - {PaymentRow(pair.dup, payments[pair.dup])}
  {
    var t := VoidPaymentRow(payments, pair);
    forall id | id in payments && id != pair.keeper && id != pair.dup ensures t[id] == payments[id] {}
    forall r | r in SplynxPayments(payments) && r != PaymentRow(pair.keeper, payments[pair.keeper])
      ensures r in SplynxPayments(t)
    {
      var id :| id in payments && SplynxOnlyPayment(payments[id]) && r == PaymentRow(id, payments[id]);
      assert t[id] == payments[id];
    }
    forall r | r in ErpnextPayments(payments) && r != PaymentRow(pair.dup, payments[pair.dup])
      ensures r in ErpnextPayments(t)
    {
      var id :| id in payments && ErpnextOnlyPayment(payments[id]) && r == PaymentRow(id, payments[id]);
      assert t[id] == payments[id];
    }
  }

  lemma PaymentQueryAfterOne(payments: map<Id, Payment>, pair: DupPair, other: DupPair)
    requires IsPaymentPair(payments, pair) && Truthy(pair.dupErpnextId)
    ensures IsPaymentPair(VoidPaymentRow(payments, pair), other) <==> IsPaymentPair(payments, other) && other != pair
  {
    var t := VoidPaymentRow(payments, pair);
    VoidPaymentSides(payments, pair);
    PairsAfterRemoval(SplynxPayments(payments), ErpnextPayments(payments),
      PaymentRow(pair.keeper, payments[pair.keeper]), PaymentRow(pair.dup, payments[pair.dup]));
    if IsPaymentPair(payments, other) && other != pair {
      PaymentPairsInjective(payments, pair, other);
      PaymentPairsInjective(payments, other, pair);
    }
    assert t.Keys == payments.Keys;
    assert forall id :: id in payments && id != pair.keeper && id != pair.dup ==> t[id] == payments[id];
  }

  /**
   Resumability: after any of the pairs have been applied, in any order, the
   query returns exactly the others.
   */
  lemma {:induction false} PaymentQueryResumes(payments: map<Id, Payment>, applied: seq<DupPair>, pair: DupPair)
    requires NoRepeats(applied)
    requires forall p :: p in applied ==> IsPaymentPair(payments, p) && Truthy(p.dupErpnextId)
    ensures IsPaymentPair(VoidPaymentRows(payments, applied), pair)
       <==> IsPaymentPair(payments, pair) && pair !in applied
    decreases |applied|
  {
    if applied == [] {
    } else {
      var first := applied[0];
      assert first in applied;
      forall p | p in applied[1..] ensures IsPaymentPair(VoidPaymentRow(payments, first), p) {
        assert p in applied && p != first;
        PaymentQueryAfterOne(payments, first, p);
      }
      PaymentQueryAfterOne(payments, first, pair);
      PaymentQueryResumes(VoidPaymentRow(payments, first), applied[1..], pair);
      assert pair in applied <==> pair == first || pair in applied[1..];
    }
  }

  lemma VoidInvoiceSides(invoices: map<Id, Invoice>, pair: DupPair)
    requires IsInvoicePair(invoices, pair) && Truthy(pair.dupErpnextId)
    ensures SplynxInvoices(VoidInvoiceRow(invoices, pair))
         == SplynxInvoices(invoices) - {InvoiceRow(pair.keeper, invoices[pair.keeper])}
    ensures ErpnextInvoices(VoidInvoiceRow(invoices, pair))
         == ErpnextInvoices(invoices) - {InvoiceRow(pair.dup, invoices[pair.dup])}
  {
    var t := VoidInvoiceRow(invoices, pair);
    forall id | id in invoices && id != pair.keeper && id != pair.dup ensures t[id] == invoices[id] {}
    forall r | r in SplynxInvoices(invoices) && r != InvoiceRow(pair.keeper, invoices[pair.keeper])
      ensures r in SplynxInvoices(t)
    {
      var id :| id in invoices && SplynxOnlyInvoice(invoices[id]) && r == InvoiceRow(id, invoices[id]);
      assert t[id] == invoices[id];
    }
    forall r | r in ErpnextInvoices(invoices) && r != InvoiceRow(pair.dup, invoices[pair.dup])
      ensures r in ErpnextInvoices(t)
    {
      var id :| id in invoices && ErpnextOnlyInvoice(invoices[id]) && r == InvoiceRow(id, invoices[id]);
      assert t[id] == invoices[id];
    }
  }

  lemma InvoiceQueryAfterOne(invoices: map<Id, Invoice>, pair: DupPair, other: DupPair)
    requires IsInvoicePair(invoices, pair) && Truthy(pair.dupErpnextId)
    ensures IsInvoicePair(VoidInvoiceRow(invoices, pair), other) <==> IsInvoicePair(invoices, other) && other != pair
  {
    var t := VoidInvoiceRow(invoices, pair);
    VoidInvoiceSides(invoices, pair);
    PairsAfterRemoval(SplynxInvoices(invoices), ErpnextInvoices(invoices),
      InvoiceRow(pair.keeper, invoices[pair.keeper]), InvoiceRow(pair.dup, invoices[pair.dup]));
    if IsInvoicePair(invoices, other) && other != pair {
      InvoicePairsInjective(invoices, pair, other);
      InvoicePairsInjective(invoices, other, pair);
    }
    assert t.Keys == invoices.Keys;
    assert forall id :: id in invoices && id != pair.keeper && id != pair.dup ==> t[id] == invoices[id];
  }

  /** The same law for invoices: the date window does not disturb the ranks. */
  lemma {:induction false} InvoiceQueryResumes(invoices: map<Id, Invoice>, applied: seq<DupPair>, pair: DupPair)
    requires NoRepeats(applied)
    requires forall p :: p in applied ==> IsInvoicePair(invoices, p) && Truthy(p.dupErpnextId)
    ensures IsInvoicePair(VoidInvoiceRows(invoices, applied), pair)
       <==> IsInvoicePair(invoices, pair) && pair !in applied
    decreases |applied|
  {
    if applied == [] {
    } else {
      var first := applied[0];
      assert first in applied;
      forall p | p in applied[1..] ensures IsInvoicePair(VoidInvoiceRow(invoices, first), p) {
        assert p in applied && p != first;
        InvoiceQueryAfterOne(invoices, first, p);
      }
      InvoiceQueryAfterOne(invoices, first, pair);
      InvoiceQueryResumes(VoidInvoiceRow(invoices, first), applied[1..], pair);
      assert pair in applied <==> pair == first || pair in applied[1..];
    }
  }

  /** A run with failed batches leaves exactly their pairs for the next run. */
  lemma FailedBatchesAreRetried(s: Store, pairs: seq<DupPair>, outcome: nat -> BatchOutcome, pair: DupPair)
    requires IsPaymentPairListing(s.payments, pairs)
    requires forall p :: p in pairs ==> Truthy(p.dupErpnextId)
    ensures IsPaymentPair(VoidPayments(s, Successful(pairs, outcome, 0)).payments, pair)
       <==> pair in pairs && pair !in Successful(pairs, outcome, 0)
  {
    SuccessfulAreListed(pairs, outcome, 0);
    VoidPaymentsRows(s, Successful(pairs, outcome, 0));
    PaymentQueryResumes(s.payments, Successful(pairs, outcome, 0), pair);
  }

  lemma FailedInvoiceBatchesAreRetried(s: Store, pairs: seq<DupPair>, outcome: nat -> BatchOutcome, pair: DupPair)
    requires IsInvoicePairListing(s.invoices, pairs)
    requires forall p :: p in pairs ==> Truthy(p.dupErpnextId)
    ensures IsInvoicePair(VoidInvoices(s, Successful(pairs, outcome, 0)).invoices, pair)
       <==> pair in pairs && pair !in Successful(pairs, outcome, 0)
  {
    SuccessfulAreListed(pairs, outcome, 0);
    VoidInvoicesRows(s, Successful(pairs, outcome, 0));
    InvoiceQueryResumes(s.invoices, Successful(pairs, outcome, 0), pair);
  }
}
