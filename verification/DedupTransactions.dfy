/** The whole of scripts/dedup_ar_transactions.py: STEPS 1 to 6 and the integrity report of step 8. */
module DedupTransactions {
  import opened Basics
  import opened Sessions
  import opened ErpStore
  import opened GeneralLedger
  import opened CustomerFks
  import opened Ranking
  import opened DedupPairs
  import opened DedupVoid
  import opened DedupEffect
  import opened DedupRecalc

  // ---- STEPS[1]: merge duplicate customers ----

  /** ORG_ID: the one organisation the script works on. */
  const ORG: Id := 1

  predicate IsDupCustomer(customers: map<Id, Customer>, row: CustomerMatch) {
    && row.erp in customers && row.splynx in customers && row.erp != row.splynx
    && customers[row.erp].org == customers[row.splynx].org == ORG
    && customers[row.erp].name == customers[row.splynx].name
    && customers[row.splynx].splynxId.Some?
    && customers[row.erp].erpnextId.Some? && customers[row.erp].splynxId.None?
    && row.erpnextId == customers[row.erp].erpnextId
  }

  ghost predicate IsDupCustomerListing(customers: map<Id, Customer>, rows: seq<CustomerMatch>) {
    NoRepeats(rows) && forall row :: row in rows <==> IsDupCustomer(customers, row)
  }

  /** The pairs merged before the database refuses a statement, if it refuses one. */
  function Accepted(rows: seq<CustomerMatch>, refused: Option<nat>): seq<CustomerMatch> {
    if refused.Some? && refused.value < |rows| then rows[..refused.value] else rows
  }

  /**
   step6_merge_dup_customers: one join row after another, an ERPNext customer
   possibly more than once.  A refused statement is logged per pair but aborts the
   database transaction, so that every later pair is refused too.
   */
  method MergeDupCustomers(db: Session<Store>, rows: seq<CustomerMatch>, dryRun: bool, refused: Option<nat>)
    returns (merged: nat, errors: nat)
    modifies db`current
    ensures db.current == if dryRun then old(db.current) else MergeRows(old(db.current), Accepted(rows, refused))
    ensures merged == if dryRun then |rows| else |Accepted(rows, refused)|
    ensures merged + errors == |rows|
    ensures errors > 0 <==> !dryRun && refused.Some? && refused.value < |rows|
  {
    ghost var s := db.current;
    var accepted := Accepted(rows, refused);
    var stats := new MergeStats();
    merged, errors := 0, 0;
    for i := 0 to |rows|
      invariant fresh(stats) && merged + errors == i
      invariant dryRun ==> db.current == s && merged == i
      invariant !dryRun ==> merged == Min(i, |accepted|)
      invariant !dryRun ==> MergeRows(db.current, accepted[merged..]) == MergeRows(s, accepted)
    {
      if dryRun {
        merged := merged + 1;
      } else if i < |accepted| {
        assert accepted[i..][1..] == accepted[i + 1..];
        MergeOneRow(db, stats, rows[i]);
        merged := merged + 1;
      } else {
        errors := errors + 1;
      }
    }
  }

  /**
   The merge keeps all rows and foreign keys, and afterwards the prerequisite
   check of the later steps passes: no unmerged pair is left.
   */
  lemma MergeLeavesNoDupCustomers(s: Store, rows: seq<CustomerMatch>)
    requires FkIntact(s) && IsDupCustomerListing(s.customers, rows)
    ensures MergedFrom(s, MergeRows(s, rows))
    ensures forall row :: !IsDupCustomer(MergeRows(s, rows).customers, row)
  {
    forall i | 0 <= i < |rows| ensures IsDupCustomer(s.customers, rows[i]) { assert rows[i] in rows; }
    assert MergeableRows(s, rows);
    MergeRowsKeepIntegrity(s, rows);
    MergeRowsDelete(s, rows);
    var t := MergeRows(s, rows);
    forall c | c in t.customers
      ensures t.customers[c].splynxId == s.customers[c].splynxId
      ensures t.customers[c].splynxId.None? ==> t.customers[c].erpnextId == s.customers[c].erpnextId
    {
      MergeRowsIds(s, rows, c);
      OnlyWinnersAreOffered(rows, c);
      if IsWinner(rows, c) {
        var i :| 0 <= i < |rows| && rows[i].splynx == c;
      }
    }
    forall row | IsDupCustomer(s.customers, row) ensures row.erp !in t.customers {
      var i :| 0 <= i < |rows| && rows[i] == row;
      assert row.erp in Losers(rows);
    }
    forall row: CustomerMatch | row.erp in t.customers && row.splynx in t.customers ensures !IsDupCustomer(t.customers, row) {
      assert !IsDupCustomer(s.customers, row);
    }
  }

  /** Customer e of the script's organisation has an ERPNext id, no Splynx id, and a namesake there with one. */
  predicate MergedAway(customers: map<Id, Customer>, e: Id)
    requires e in customers
  {
    && customers[e].org == ORG && customers[e].erpnextId.Some? && customers[e].splynxId.None?
    && exists x :: x in customers && customers[x].org == ORG && customers[x].splynxId.Some?
                   && customers[x].name == customers[e].name
  }

  /** Exactly these customers disappear. */
  lemma ExactlyMergedAway(s: Store, rows: seq<CustomerMatch>, c: Id)
    requires FkIntact(s) && IsDupCustomerListing(s.customers, rows) && c in s.customers
    ensures c in MergeRows(s, rows).customers <==> !MergedAway(s.customers, c)
  {
    forall i | 0 <= i < |rows| ensures IsDupCustomer(s.customers, rows[i]) { assert rows[i] in rows; }
    assert MergeableRows(s, rows);
    MergeRowsDelete(s, rows);
    if MergedAway(s.customers, c) {
      var x :| x in s.customers && s.customers[x].org == ORG && s.customers[x].splynxId.Some?
               && s.customers[x].name == s.customers[c].name;
      var row := CustomerMatch(c, s.customers[c].erpnextId, x);
      assert IsDupCustomer(s.customers, row);
      var i :| 0 <= i < |rows| && rows[i] == row;
      assert row.erp in Losers(rows);
    }
    if c in Losers(rows) {
      var i :| 0 <= i < |rows| && rows[i].erp == c;
    }
  }

  /** A survivor without an ERPNext id can only take a non-empty one, of a namesake merged away. */
  lemma MergedIds(s: Store, rows: seq<CustomerMatch>, c: Id)
    requires FkIntact(s) && IsDupCustomerListing(s.customers, rows) && c in MergeRows(s, rows).customers
    ensures c in s.customers
    ensures var t := MergeRows(s, rows);
      && (s.customers[c].erpnextId.Some? ==> t.customers[c].erpnextId == s.customers[c].erpnextId)
      && (s.customers[c].erpnextId.None? && t.customers[c].erpnextId.Some? ==>
            && t.customers[c].erpnextId.value != ""
            && exists e :: e in s.customers && MergedAway(s.customers, e) && s.customers[e].name == s.customers[c].name
                           && s.customers[e].erpnextId == t.customers[c].erpnextId)
  {
    forall i | 0 <= i < |rows| ensures IsDupCustomer(s.customers, rows[i]) { assert rows[i] in rows; }
    assert MergeableRows(s, rows);
    MergeRowsIds(s, rows, c);
    OfferedIdMeans(rows, c);
    if s.customers[c].erpnextId.None? && OfferedId(rows, c).Some? {
      var i :| 0 <= i < |rows| && Offers(rows[i], c) && rows[i].erpnextId == OfferedId(rows, c);
      assert MergedAway(s.customers, rows[i].erp);
    }
  }

  /** It does take one if some namesake in the organisation merged away has a non-empty one. */
  lemma MergedIdTaken(s: Store, rows: seq<CustomerMatch>, c: Id, e: Id)
    requires FkIntact(s) && IsDupCustomerListing(s.customers, rows) && c in MergeRows(s, rows).customers
    requires c in s.customers && s.customers[c].splynxId.Some? && s.customers[c].org == ORG
    requires e in s.customers && MergedAway(s.customers, e) && s.customers[e].name == s.customers[c].name
    requires s.customers[e].erpnextId.value != ""
    ensures MergeRows(s, rows).customers[c].erpnextId.Some?
  {
    forall i | 0 <= i < |rows| ensures IsDupCustomer(s.customers, rows[i]) { assert rows[i] in rows; }
    var row := CustomerMatch(e, s.customers[e].erpnextId, c);
    assert IsDupCustomer(s.customers, row);
    var i :| 0 <= i < |rows| && rows[i] == row;
    assert Offers(rows[i], c);
    MergeRowsIds(s, rows, c);
    OfferedIdMeans(rows, c);
  }

  // ---- Step 8: the integrity report ----

  function OrphansByPayment(s: Store): set<Id> {
    set a | a in s.allocations
            && !(s.allocations[a].payment in s.payments
                 && s.payments[s.allocations[a].payment].status != PaymentStatus.Void)
  }

  function OrphansByInvoice(s: Store): set<Id> {
    set a | a in s.allocations
            && !(s.allocations[a].invoice in s.invoices
                 && s.invoices[s.allocations[a].invoice].status != InvoiceStatus.Void)
  }

  function LinesOnVoidJournals(s: Store): set<Id> {
    set l | l in s.lines && s.lines[l].journal in s.journals
            && s.journals[s.lines[l].journal].status == JournalStatus.Void
  }

  /** A live Splynx payment a and a live ERPNext payment b of one customer, amount and date. */
  predicate IsRemainingDuplicate(payments: map<Id, Payment>, a: Id, b: Id) {
    && a in payments && b in payments && a != b
    && SplynxOnlyPayment(payments[a]) && ErpnextOnlyPayment(payments[b])
    && payments[a].customer == payments[b].customer
    && payments[a].amount == payments[b].amount
    && payments[a].date == payments[b].date
  }

  function RemainingDuplicates(payments: map<Id, Payment>): set<(Id, Id)> {
    set a, b | a in payments && b in payments && IsRemainingDuplicate(payments, a, b) :: (a, b)
  }

  datatype Report = Report(
    orphansByPayment: nat, orphansByInvoice: nat, linesOnVoid: nat,
    amountMismatches: nat, trialBalance: int, remainingDuplicates: nat)

  function VerifyIntegrity(s: Store): Report {
    Report(|OrphansByPayment(s)|, |OrphansByInvoice(s)|, |LinesOnVoidJournals(s)|,
           |Mismatches(s)|, TrialBalance(s.lines), |RemainingDuplicates(s.payments)|)
  }

  /** An allocation has a live payment and a live invoice. */
  predicate HasPayment(s: Store, a: Allocation) {
    a.payment in s.payments && s.payments[a.payment].status != PaymentStatus.Void
  }

  predicate HasInvoice(s: Store, a: Allocation) {
    a.invoice in s.invoices && s.invoices[a.invoice].status != InvoiceStatus.Void
  }

  /** A Splynx-only and an ERPNext-only payment, both live, of one customer, amount and date. */
  predicate LooksDouble(p: Payment, q: Payment) {
    && p.splynxId.Some? && p.erpnextId.None? && q.erpnextId.Some? && q.splynxId.None?
    && p.status != PaymentStatus.Void && q.status != PaymentStatus.Void
    && p.customer == q.customer && p.amount == q.amount && p.date == q.date
  }

  /** What each zero of the report says about the rows. */
  lemma ReportMeans(s: Store)
    ensures VerifyIntegrity(s).orphansByPayment == 0 <==> forall a :: a in s.allocations ==> HasPayment(s, s.allocations[a])
    ensures VerifyIntegrity(s).orphansByInvoice == 0 <==> forall a :: a in s.allocations ==> HasInvoice(s, s.allocations[a])
    ensures VerifyIntegrity(s).linesOnVoid == 0
       <==> forall l :: l in s.lines && s.lines[l].journal in s.journals ==>
              s.journals[s.lines[l].journal].status != JournalStatus.Void
    ensures VerifyIntegrity(s).amountMismatches == 0
       <==> forall i :: i in s.invoices && s.invoices[i].status != InvoiceStatus.Void ==> s.invoices[i].paid == PaidSum(s, i)
    ensures VerifyIntegrity(s).trialBalance == TrialBalance(s.lines)
    ensures VerifyIntegrity(s).remainingDuplicates == 0
       <==> forall p, q :: p in s.payments && q in s.payments ==> !LooksDouble(s.payments[p], s.payments[q])
  {
    OrphansMean(s);
    VoidLinesMean(s);
    MismatchIff(s);
    assert VerifyIntegrity(s).amountMismatches == 0 <==> Mismatches(s) == {};
    DuplicatesMean(s.payments);
  }

  lemma OrphansMean(s: Store)
    ensures |OrphansByPayment(s)| == 0 <==> forall a :: a in s.allocations ==> HasPayment(s, s.allocations[a])
    ensures |OrphansByInvoice(s)| == 0 <==> forall a :: a in s.allocations ==> HasInvoice(s, s.allocations[a])
  {
    forall a | a in s.allocations
      ensures !HasPayment(s, s.allocations[a]) <==> a in OrphansByPayment(s)
      ensures !HasInvoice(s, s.allocations[a]) <==> a in OrphansByInvoice(s)
    {
    }
  }

  lemma VoidLinesMean(s: Store)
    ensures |LinesOnVoidJournals(s)| == 0
       <==> forall l :: l in s.lines && s.lines[l].journal in s.journals ==>
              s.journals[s.lines[l].journal].status != JournalStatus.Void
  {
    forall l | l in s.lines && s.lines[l].journal in s.journals
      ensures s.journals[s.lines[l].journal].status == JournalStatus.Void <==> l in LinesOnVoidJournals(s)
    {
    }
  }

  lemma DuplicatesMean(payments: map<Id, Payment>)
    ensures |RemainingDuplicates(payments)| == 0
       <==> forall p, q :: p in payments && q in payments ==> !LooksDouble(payments[p], payments[q])
  {
    forall p, q | p in payments && q in payments
      ensures LooksDouble(payments[p], payments[q]) <==> (p, q) in RemainingDuplicates(payments)
    {
    }
  }

  // ---- The pipeline ----

  /** STEPS 3, 5 and 6, under any pattern of failed batches. */
  function Voided(
    s: Store, payments: seq<DupPair>, paymentOutcome: nat -> BatchOutcome,
    invoices: seq<DupPair>, invoiceOutcome: nat -> BatchOutcome): Store
  {
    var paymentsVoided := VoidPayments(s, Successful(payments, paymentOutcome, 0));
    var invoicesVoided := VoidInvoices(paymentsVoided, Successful(invoices, invoiceOutcome, 0));
    Recalculated(invoicesVoided)
  }

  /** STEPS 1 to 6; 2 and 4 only report. */
  function Pipeline(
    s: Store, customers: seq<CustomerMatch>,
    payments: seq<DupPair>, paymentOutcome: nat -> BatchOutcome,
    invoices: seq<DupPair>, invoiceOutcome: nat -> BatchOutcome): Store
  {
    Voided(MergeRows(s, customers), payments, paymentOutcome, invoices, invoiceOutcome)
  }

  /** Each list is an answer to its query at the moment its step runs. */
  ghost predicate Answers(
    s: Store, customers: seq<CustomerMatch>,
    payments: seq<DupPair>, paymentOutcome: nat -> BatchOutcome, invoices: seq<DupPair>)
  {
    var merged := MergeRows(s, customers);
    var paymentsVoided := VoidPayments(merged, Successful(payments, paymentOutcome, 0));
    && IsDupCustomerListing(s.customers, customers)
    && IsPaymentPairListing(merged.payments, payments)
    && IsInvoicePairListing(paymentsVoided.invoices, invoices)
  }

  datatype RunStep = MergeStep | PaymentStep | InvoiceStep | RecalculationStep

  /**
   How main's try block ends.  A step that raises leaves some partial work in the
   session.  Step 7 commits before it rebuilds the balances; whatever raises later,
   the rebuild, the integrity report or the last commit, finds everything stored.
   */
  datatype RunOutcome = Completes | StepRaises(step: RunStep, partial: Store) | CommitFails | RaisesLater

  /** The handler of main, when the given step is the one that raises. */
  method RollsBackAt(db: Session<Store>, outcome: RunOutcome, step: RunStep) returns (rolledBack: bool)
    modifies db
    ensures rolledBack <==> outcome.StepRaises? && outcome.step == step
    ensures rolledBack ==> db.current == db.durable == old(db.durable)
    ensures !rolledBack ==> db.current == old(db.current) && db.durable == old(db.durable)
  {
    rolledBack := outcome.StepRaises? && outcome.step == step;
    if rolledBack {
      db.Write(outcome.partial);
      db.Rollback();
    }
  }

  /**
   The run in execute mode; each query is answered at the moment its step runs.
   It is stored iff the commit of step 7 was reached, even if main then reports a
   rollback.  After a refused merge the next step's query is the statement that raises.
   */
  method RunSteps(
    db: Session<Store>, customers: seq<CustomerMatch>,
    payments: seq<DupPair>, paymentOutcome: nat -> BatchOutcome,
    invoices: seq<DupPair>, invoiceOutcome: nat -> BatchOutcome,
    refused: Option<nat>, outcome: RunOutcome) returns (ok: bool)
    requires Answers(db.current, customers, payments, paymentOutcome, invoices)
    modifies db
    ensures ok <==> !(refused.Some? && refused.value < |customers|) && outcome.Completes?
    ensures db.current == db.durable
         == if (refused.Some? && refused.value < |customers|) || outcome.StepRaises? || outcome.CommitFails?
            then old(db.durable)
            else Pipeline(old(db.current), customers, payments, paymentOutcome, invoices, invoiceOutcome)
  {
    var stopped := RollsBackAt(db, outcome, MergeStep);
    if stopped {
      return false;
    }
    var _, errors := MergeDupCustomers(db, customers, false, refused);
    if errors > 0 {
      db.Rollback();
      return false;
    }
    ok := RunVoidingSteps(db, payments, paymentOutcome, invoices, invoiceOutcome, outcome);
  }

  /** STEPS 3, 5 and 6, and step 7 as far as its commit. */
  method RunVoidingSteps(
    db: Session<Store>,
    payments: seq<DupPair>, paymentOutcome: nat -> BatchOutcome,
    invoices: seq<DupPair>, invoiceOutcome: nat -> BatchOutcome, outcome: RunOutcome) returns (ok: bool)
    requires !(outcome.StepRaises? && outcome.step == MergeStep)
    modifies db
    ensures ok <==> outcome.Completes?
    ensures db.current == db.durable
         == if outcome.Completes? || outcome.RaisesLater?
            then Voided(old(db.current), payments, paymentOutcome, invoices, invoiceOutcome)
            else old(db.durable)
  {
    var stopped := RollsBackAt(db, outcome, PaymentStep);
    if stopped {
      return false;
    }
    VoidDupPayments(db, payments, paymentOutcome, false);
    stopped := RollsBackAt(db, outcome, InvoiceStep);
    if stopped {
      return false;
    }
    VoidDupInvoices(db, invoices, invoiceOutcome, false);
    stopped := RollsBackAt(db, outcome, RecalculationStep);
    if stopped {
      return false;
    }
    var _ := RecalculateAmountPaid(db, false);
    ok := CommitAndRebuild(db, outcome);
  }

  /** The commit of step 7, and main's handler if it or anything after it raises. */
  method CommitAndRebuild(db: Session<Store>, outcome: RunOutcome) returns (ok: bool)
    modifies db
    ensures ok <==> !outcome.CommitFails? && !outcome.RaisesLater?
    ensures db.current == db.durable == if outcome.CommitFails? then old(db.durable) else old(db.current)
  {
    if outcome.CommitFails? {
      db.Rollback();
      return false;
    }
    db.Commit();
    if outcome.RaisesLater? {
      db.Rollback();
    }
    ok := !outcome.RaisesLater?;
  }

  /** What the repair asks of the data it starts from. */
  ghost predicate CleanStart(s: Store) {
    && FkIntact(s) && OrphanFree(s) && GlSound(s)
    && forall p :: p in s.payments && s.payments[p].erpnextId.Some? ==> s.payments[p].erpnextId.value != ""
  }

  lemma MergedStaysSound(s: Store, t: Store)
    requires FkIntact(s) && OrphanFree(s) && GlSound(s) && MergedFrom(s, t)
    ensures OrphanFree(t) && GlSound(t)
  {
    SameLedgerSound(s, t);
    assert InvoicesKept(s, t) && PaymentsKept(s, t);
  }

  lemma RecalculatedFrame(s: Store)
    ensures Recalculated(s) == s.(invoices := Recalculated(s).invoices)
  {
  }

  lemma RecalculatedLive(s: Store, i: Id)
    requires i in s.invoices && s.invoices[i].status != InvoiceStatus.Void
    ensures i in Recalculated(s).invoices && Recalculated(s).invoices[i].status != InvoiceStatus.Void
  {
    if Mismatches(s) != {} {
      SettledRow(s, i);
      SettleFrame(WithPaidSum(s, i));
    }
  }

  lemma RecalculatedStaysSound(s: Store)
    requires OrphanFree(s) && GlSound(s)
    ensures OrphanFree(Recalculated(s)) && GlSound(Recalculated(s))
    ensures Recalculated(s).payments == s.payments
  {
    RecalculatedFrame(s);
    SameLedgerSound(s, Recalculated(s));
    var invoices := Recalculated(s).invoices;
    forall i | i in s.invoices && s.invoices[i].status != InvoiceStatus.Void
      ensures i in invoices && invoices[i].status != InvoiceStatus.Void
    {
      RecalculatedLive(s, i);
    }
    InvoicesStayOrphanFree(s, invoices);
  }

  lemma InvoicesStayOrphanFree(s: Store, invoices: map<Id, Invoice>)
    requires OrphanFree(s)
    requires forall i :: i in s.invoices && s.invoices[i].status != InvoiceStatus.Void ==>
      i in invoices && invoices[i].status != InvoiceStatus.Void
    ensures OrphanFree(s.(invoices := invoices))
  {
  }

  /** A duplicate remains iff the pairing query still returns a row. */
  lemma DuplicatesIffPairs(payments: map<Id, Payment>)
    ensures RemainingDuplicates(payments) != {} <==> exists pair :: IsPaymentPair(payments, pair)
  {
    var xs, ys := SplynxPayments(payments), ErpnextPayments(payments);
    if RemainingDuplicates(payments) != {} {
      var d :| d in RemainingDuplicates(payments);
      var x, y := PaymentRow(d.0, payments[d.0]), PaymentRow(d.1, payments[d.1]);
      assert x in xs && y in ys;
      SharedGroupIsPaired(xs, ys, x, y);
      var p :| p in PairsOf(xs, ys, x.group);
      var a :| a in payments && SplynxOnlyPayment(payments[a]) && p.0 == PaymentRow(a, payments[a]);
      var b :| b in payments && ErpnextOnlyPayment(payments[b]) && p.1 == PaymentRow(b, payments[b]);
      var pair := DupPair(a, b, payments[b].journal, payments[b].batch, payments[b].erpnextId);
      assert IsPaymentPair(payments, pair);
    }
    if exists pair :: IsPaymentPair(payments, pair) {
      var pair :| IsPaymentPair(payments, pair);
      assert IsRemainingDuplicate(payments, pair.keeper, pair.dup);
      assert (pair.keeper, pair.dup) in RemainingDuplicates(payments);
    }
  }

  /**
   Whatever batches fail, five of the six checks of step 8 come out clean: no
   orphaned allocation either way, no ledger line on a VOID journal, no wrong
   amount_paid, and a balanced ledger.
   */
  lemma FiveChecksAlwaysClean(
    s: Store, customers: seq<CustomerMatch>,
    payments: seq<DupPair>, paymentOutcome: nat -> BatchOutcome,
    invoices: seq<DupPair>, invoiceOutcome: nat -> BatchOutcome)
    requires CleanStart(s) && Answers(s, customers, payments, paymentOutcome, invoices)
    ensures var r := VerifyIntegrity(Pipeline(s, customers, payments, paymentOutcome, invoices, invoiceOutcome));
      && r.orphansByPayment == 0 && r.orphansByInvoice == 0 && r.linesOnVoid == 0
      && r.amountMismatches == 0 && r.trialBalance == 0
    ensures Pipeline(s, customers, payments, paymentOutcome, invoices, invoiceOutcome).payments
         == VoidPayments(MergeRows(s, customers), Successful(payments, paymentOutcome, 0)).payments
  {
    var merged := MergeRows(s, customers);
    MergeLeavesNoDupCustomers(s, customers);
    MergedStaysSound(s, merged);
    var s3 := VoidPayments(merged, Successful(payments, paymentOutcome, 0));
    VoidPaymentsKeepSound(merged, Successful(payments, paymentOutcome, 0));
    var s5 := VoidInvoices(s3, Successful(invoices, invoiceOutcome, 0));
    VoidInvoicesKeepSound(s3, Successful(invoices, invoiceOutcome, 0));
    RecalculatedStaysSound(s5);
    NoMismatchLeft(s5);
    BalancedTotal(Recalculated(s5).lines);
    CleanChecks(Recalculated(s5));
  }

  lemma CleanChecks(s: Store)
    requires OrphanFree(s) && GlSound(s)
    ensures OrphansByPayment(s) == {} && OrphansByInvoice(s) == {} && LinesOnVoidJournals(s) == {}
  {
  }

  /**
   End to end: from a clean start, all six checks are clean after the run iff
   every batch of payment pairs went through.
   */
  lemma RunIsCleanIff(
    s: Store, customers: seq<CustomerMatch>,
    payments: seq<DupPair>, paymentOutcome: nat -> BatchOutcome,
    invoices: seq<DupPair>, invoiceOutcome: nat -> BatchOutcome)
    requires CleanStart(s) && Answers(s, customers, payments, paymentOutcome, invoices)
    ensures VerifyIntegrity(Pipeline(s, customers, payments, paymentOutcome, invoices, invoiceOutcome))
              == Report(0, 0, 0, 0, 0, 0)
       <==> Successful(payments, paymentOutcome, 0) == payments
  {
    FiveChecksAlwaysClean(s, customers, payments, paymentOutcome, invoices, invoiceOutcome);
    ListedPairsHaveIds(s, customers, payments);
    NoDuplicatesIff(MergeRows(s, customers), payments, paymentOutcome);
  }

  lemma ListedPairsHaveIds(s: Store, customers: seq<CustomerMatch>, payments: seq<DupPair>)
    requires CleanStart(s) && IsDupCustomerListing(s.customers, customers)
    requires IsPaymentPairListing(MergeRows(s, customers).payments, payments)
    ensures forall p :: p in payments ==> Truthy(p.dupErpnextId)
  {
    var merged := MergeRows(s, customers);
    MergeLeavesNoDupCustomers(s, customers);
    assert PaymentsKept(s, merged);
    forall p | p in payments ensures Truthy(p.dupErpnextId) {
      assert IsPaymentPair(merged.payments, p);
    }
  }

  lemma NoDuplicatesIff(s: Store, payments: seq<DupPair>, outcome: nat -> BatchOutcome)
    requires IsPaymentPairListing(s.payments, payments) && forall p :: p in payments ==> Truthy(p.dupErpnextId)
    ensures RemainingDuplicates(VoidPayments(s, Successful(payments, outcome, 0)).payments) == {}
       <==> Successful(payments, outcome, 0) == payments
  {
    var applied := Successful(payments, outcome, 0);
    var after := VoidPayments(s, applied).payments;
    forall pair ensures IsPaymentPair(after, pair) <==> pair in payments && pair !in applied {
      FailedBatchesAreRetried(s, payments, outcome, pair);
    }
    DuplicatesIffPairs(after);
    AppliedAllIff(payments, outcome);
  }

  lemma AppliedAllIff(pairs: seq<DupPair>, outcome: nat -> BatchOutcome)
    requires NoRepeats(pairs)
    ensures Successful(pairs, outcome, 0) == pairs <==> forall p :: p in pairs ==> p in Successful(pairs, outcome, 0)
  {
    var applied := Successful(pairs, outcome, 0);
    SuccessfulAreListed(pairs, outcome, 0);
    if forall p :: p in pairs ==> p in applied {
      NoRepeatsSize(pairs, applied);
    }
  }

  lemma {:induction false} NoRepeatsSize<T>(xs: seq<T>, ys: seq<T>)
    requires NoRepeats(xs) && forall x :: x in xs ==> x in ys
    ensures |xs| <= |ys|
    decreases |xs|
  {
    if xs == [] {
    } else {
      assert xs[0] in ys;
      var k :| 0 <= k < |ys| && ys[k] == xs[0];
      var rest := ys[..k] + ys[k + 1..];
      forall x | x in xs[1..] ensures x in rest {
        assert x in xs && x != xs[0];
        var j :| 0 <= j < |ys| && ys[j] == x;
        assert if j < k then rest[j] == x else rest[j - 1] == x;
      }
      NoRepeatsSize(xs[1..], rest);
    }
  }

  // ---- Running it again ----

  /** The columns the invoice pairing reads. */
  ghost predicate SameForPairing(i: Invoice, j: Invoice) {
    && j == i.(paid := j.paid, status := j.status)
    && (j.status == InvoiceStatus.Void <==> i.status == InvoiceStatus.Void)
  }

  lemma SettleKeepsPairing(i: Invoice)
    ensures SameForPairing(i, Settle(i))
  {
    SettleFrame(i);
    var status := Settle(i).status;
    assert Settle(i) == i.(status := status);
  }

  lemma SettledInvoice(s: Store, id: Id)
    requires id in s.invoices
    ensures id in Recalculated(s).invoices && SameForPairing(s.invoices[id], Recalculated(s).invoices[id])
  {
    if Mismatches(s) != {} {
      SettledRow(s, id);
      SettleKeepsPairing(WithPaidSum(s, id));
    }
  }

  lemma SettledSides(s: Store, id: Id)
    requires id in s.invoices
    ensures id in Recalculated(s).invoices
    ensures var i, j := s.invoices[id], Recalculated(s).invoices[id];
      && (SplynxOnlyInvoice(j) <==> SplynxOnlyInvoice(i)) && (ErpnextOnlyInvoice(j) <==> ErpnextOnlyInvoice(i))
      && InvoiceRow(id, j) == InvoiceRow(id, i) && j.date == i.date
      && j.journal == i.journal && j.batch == i.batch && j.erpnextId == i.erpnextId
  {
    SettledInvoice(s, id);
  }

  lemma SettledRows(s: Store)
    ensures SplynxInvoices(Recalculated(s).invoices) == SplynxInvoices(s.invoices)
    ensures ErpnextInvoices(Recalculated(s).invoices) == ErpnextInvoices(s.invoices)
  {
    var t := Recalculated(s).invoices;
    assert t.Keys == s.invoices.Keys;
    forall id | id in s.invoices
      ensures (SplynxOnlyInvoice(t[id]) <==> SplynxOnlyInvoice(s.invoices[id]))
        && (ErpnextOnlyInvoice(t[id]) <==> ErpnextOnlyInvoice(s.invoices[id]))
        && InvoiceRow(id, t[id]) == InvoiceRow(id, s.invoices[id])
    {
      SettledSides(s, id);
    }
    assert forall r :: r in SplynxInvoices(t) <==> r in SplynxInvoices(s.invoices);
    assert forall r :: r in ErpnextInvoices(t) <==> r in ErpnextInvoices(s.invoices);
  }

  /** Recalculation does not disturb the invoice pairing. */
  lemma SettledPairs(s: Store, pair: DupPair)
    ensures IsInvoicePair(Recalculated(s).invoices, pair) <==> IsInvoicePair(s.invoices, pair)
  {
    SettledRows(s);
    assert Recalculated(s).invoices.Keys == s.invoices.Keys;
    if pair.keeper in s.invoices && pair.dup in s.invoices {
      SettledSides(s, pair.keeper);
      SettledSides(s, pair.dup);
    }
  }

  /** After a run in which every batch went through, a second run finds nothing to do and changes nothing. */
  lemma SecondRunChangesNothing(
    s: Store, customers: seq<CustomerMatch>,
    payments: seq<DupPair>, paymentOutcome: nat -> BatchOutcome,
    invoices: seq<DupPair>, invoiceOutcome: nat -> BatchOutcome,
    customers2: seq<CustomerMatch>,
    payments2: seq<DupPair>, paymentOutcome2: nat -> BatchOutcome,
    invoices2: seq<DupPair>, invoiceOutcome2: nat -> BatchOutcome)
    requires CleanStart(s) && Answers(s, customers, payments, paymentOutcome, invoices)
    requires Successful(payments, paymentOutcome, 0) == payments && Successful(invoices, invoiceOutcome, 0) == invoices
    requires forall p :: p in invoices ==> Truthy(p.dupErpnextId)
    requires Answers(Pipeline(s, customers, payments, paymentOutcome, invoices, invoiceOutcome),
                     customers2, payments2, paymentOutcome2, invoices2)
    ensures var t := Pipeline(s, customers, payments, paymentOutcome, invoices, invoiceOutcome);
      && customers2 == [] && payments2 == [] && invoices2 == []
      && Pipeline(t, customers2, payments2, paymentOutcome2, invoices2, invoiceOutcome2) == t
  {
    var merged := MergeRows(s, customers);
    var s3 := VoidPayments(merged, payments);
    var s5 := VoidInvoices(s3, invoices);
    var t := Recalculated(s5);
    assert t == Pipeline(s, customers, payments, paymentOutcome, invoices, invoiceOutcome);
    NoCustomersLeft(s, customers, payments, invoices, customers2);
    assert MergeRows(t, customers2) == t;
    NoPaymentsLeft(s, customers, payments, paymentOutcome, invoices, payments2);
    assert VoidPayments(t, Successful(payments2, paymentOutcome2, 0)) == t;
    NoInvoicesLeft(s3, invoices, invoiceOutcome, invoices2);
    assert VoidInvoices(t, Successful(invoices2, invoiceOutcome2, 0)) == t;
    RecalculateIdempotent(s5);
  }

  lemma NoCustomersLeft(s: Store, customers: seq<CustomerMatch>, payments: seq<DupPair>, invoices: seq<DupPair>, again: seq<CustomerMatch>)
    requires CleanStart(s) && IsDupCustomerListing(s.customers, customers)
    requires IsDupCustomerListing(Recalculated(VoidInvoices(VoidPayments(MergeRows(s, customers), payments), invoices)).customers, again)
    ensures again == []
  {
    var merged := MergeRows(s, customers);
    MergeLeavesNoDupCustomers(s, customers);
    MergedStaysSound(s, merged);
    VoidPaymentsKeepSound(merged, payments);
    VoidInvoicesKeepSound(VoidPayments(merged, payments), invoices);
    assert forall row :: row in again ==> IsDupCustomer(merged.customers, row);
    SomethingListed(again);
  }

  lemma NoPaymentsLeft(
    s: Store, customers: seq<CustomerMatch>, payments: seq<DupPair>, outcome: nat -> BatchOutcome,
    invoices: seq<DupPair>, again: seq<DupPair>)
    requires CleanStart(s) && IsDupCustomerListing(s.customers, customers)
    requires IsPaymentPairListing(MergeRows(s, customers).payments, payments) && Successful(payments, outcome, 0) == payments
    requires IsPaymentPairListing(Recalculated(VoidInvoices(VoidPayments(MergeRows(s, customers), payments), invoices)).payments, again)
    ensures again == []
  {
    var merged := MergeRows(s, customers);
    ListedPairsHaveIds(s, customers, payments);
    MergeLeavesNoDupCustomers(s, customers);
    MergedStaysSound(s, merged);
    VoidPaymentsKeepSound(merged, payments);
    VoidInvoicesKeepSound(VoidPayments(merged, payments), invoices);
    forall p ensures p !in again {
      FailedBatchesAreRetried(merged, payments, outcome, p);
    }
    SomethingListed(again);
  }

  lemma NoInvoicesLeft(s: Store, invoices: seq<DupPair>, outcome: nat -> BatchOutcome, again: seq<DupPair>)
    requires IsInvoicePairListing(s.invoices, invoices) && Successful(invoices, outcome, 0) == invoices
    requires forall p :: p in invoices ==> Truthy(p.dupErpnextId)
    requires IsInvoicePairListing(Recalculated(VoidInvoices(s, invoices)).invoices, again)
    ensures again == []
  {
    forall p ensures p !in again {
      FailedInvoiceBatchesAreRetried(s, invoices, outcome, p);
      SettledPairs(VoidInvoices(s, invoices), p);
    }
    SomethingListed(again);
  }

  // ---- Empty ERPNext ids ----

  ghost predicate IsDupOf(pairs: seq<DupPair>, id: Id) {
    exists i :: 0 <= i < |pairs| && pairs[i].dup == id
  }

  ghost predicate IsLinkedKeeperOf(pairs: seq<DupPair>, id: Id) {
    exists i :: 0 <= i < |pairs| && pairs[i].keeper == id && Truthy(pairs[i].dupErpnextId)
  }

  /** Which side of the pairing a payment is on after the whole list was applied. */
  lemma SidesAfter(payments: map<Id, Payment>, pairs: seq<DupPair>, id: Id)
    requires IsPaymentPairListing(payments, pairs) && id in payments
    ensures var t := VoidPaymentRows(payments, pairs);
      && id in t
      && (ErpnextOnlyPayment(t[id]) <==> ErpnextOnlyPayment(payments[id]) && !IsDupOf(pairs, id))
      && (SplynxOnlyPayment(t[id]) <==> SplynxOnlyPayment(payments[id]) && !IsLinkedKeeperOf(pairs, id))
      && t[id].customer == payments[id].customer && t[id].amount == payments[id].amount && t[id].date == payments[id].date
  {
    ListedPaymentsReady(payments, pairs);
    VoidPaymentRowsEffect(payments, pairs);
    forall i | 0 <= i < |pairs| ensures IsPaymentPair(payments, pairs[i]) { assert pairs[i] in pairs; }
    if i :| 0 <= i < |pairs| && pairs[i].dup == id {
      assert IsDupOf(pairs, id);
    } else if i :| 0 <= i < |pairs| && pairs[i].keeper == id {
      KeeperOnce(pairs, i, id);
    }
  }

  lemma KeeperOnce(pairs: seq<DupPair>, i: nat, id: Id)
    requires Disjoint(pairs) && i < |pairs| && pairs[i].keeper == id
    ensures IsLinkedKeeperOf(pairs, id) <==> Truthy(pairs[i].dupErpnextId)
    ensures !IsDupOf(pairs, id)
  {
  }

  /** ERPNext payment b has the key of the pair but no partner of its own. */
  predicate IsExtra(payments: map<Id, Payment>, pairs: seq<DupPair>, pair: DupPair, b: Id) {
    IsRemainingDuplicate(payments, pair.keeper, b) && forall i :: 0 <= i < |pairs| ==> pairs[i].dup != b
  }

  /**
   A pair whose duplicate has an empty ERPNext id leaves its keeper unlinked.
   Applying every pair then clears all duplicates iff no such pair has a key
   with more ERPNext than Splynx payments.
   */
  lemma EmptyIdsExactly(payments: map<Id, Payment>, pairs: seq<DupPair>)
    requires IsPaymentPairListing(payments, pairs)
    ensures RemainingDuplicates(VoidPaymentRows(payments, pairs)) == {}
       <==> forall i, b: Id :: 0 <= i < |pairs| && IsExtra(payments, pairs, pairs[i], b) ==> Truthy(pairs[i].dupErpnextId)
  {
    var t := VoidPaymentRows(payments, pairs);
    if i: int, b: Id :| 0 <= i < |pairs| && IsExtra(payments, pairs, pairs[i], b) && !Truthy(pairs[i].dupErpnextId) {
      ListedPaymentsReady(payments, pairs);
      KeeperOnce(pairs, i, pairs[i].keeper);
      SidesAfter(payments, pairs, pairs[i].keeper);
      SidesAfter(payments, pairs, b);
      assert IsRemainingDuplicate(t, pairs[i].keeper, b);
      assert (pairs[i].keeper, b) in RemainingDuplicates(t);
    }
    if d :| d in RemainingDuplicates(t) {
      ListedPaymentsReady(payments, pairs);
      VoidPaymentRowsEffect(payments, pairs);
      SidesAfter(payments, pairs, d.0);
      SidesAfter(payments, pairs, d.1);
      var i := KeeperOfLeftover(payments, pairs, d.0, d.1);
      assert IsExtra(payments, pairs, pairs[i], d.1);
    }
  }

  /** If an ERPNext payment has no partner, every Splynx payment of its key has one. */
  lemma KeeperOfLeftover(payments: map<Id, Payment>, pairs: seq<DupPair>, a: Id, b: Id) returns (i: nat)
    requires IsPaymentPairListing(payments, pairs)
    requires IsRemainingDuplicate(payments, a, b) && !IsDupOf(pairs, b)
    ensures i < |pairs| && pairs[i].keeper == a
  {
    var xs, ys := SplynxPayments(payments), ErpnextPayments(payments);
    var x, y := PaymentRow(a, payments[a]), PaymentRow(b, payments[b]);
    assert x in xs && y in ys;
    forall x' | (x', y) in RankPairs(xs, ys) ensures IsDupOf(pairs, b) {
      var a' :| a' in payments && SplynxOnlyPayment(payments[a']) && x' == PaymentRow(a', payments[a']);
      var pair := DupPair(a', b, payments[b].journal, payments[b].batch, payments[b].erpnextId);
      assert IsPaymentPair(payments, pair);
      assert pair in pairs;
    }
    PairedIff(xs, ys, y);
    RankBelowGroupSize(ys, y);
    RankBelowGroupSize(xs, x);
    PairedIff(ys, xs, x);
    var y' :| (y', x) in RankPairs(ys, xs);
    PairsSwap(ys, xs, y', x);
    var b' :| b' in payments && ErpnextOnlyPayment(payments[b']) && y' == PaymentRow(b', payments[b']);
    var pair := DupPair(a, b', payments[b'].journal, payments[b'].batch, payments[b'].erpnextId);
    assert IsPaymentPair(payments, pair);
    i :| 0 <= i < |pairs| && pairs[i] == pair;
  }

  /** One Splynx payment against two ERPNext payments of its key, the first with an empty id: a duplicate remains. */
  lemma EmptyIdLeavesDuplicate() returns (payments: map<Id, Payment>, pairs: seq<DupPair>)
    ensures IsPaymentPairListing(payments, pairs)
    ensures RemainingDuplicates(VoidPaymentRows(payments, pairs)) != {}
  {
    var a := Payment(7, 50, 1, 0, PaymentStatus.Cleared, Some("s1"), None, None, None);
    var b := Payment(7, 50, 1, 0, PaymentStatus.Cleared, None, Some(""), None, None);
    var c := Payment(7, 50, 1, 1, PaymentStatus.Cleared, None, Some("e2"), None, None);
    payments := map[0 := a, 1 := b, 2 := c];
    pairs := [DupPair(0, 1, None, None, Some(""))];
    var xs, ys := SplynxPayments(payments), ErpnextPayments(payments);
    var r0, r1, r2 := PaymentRow(0, a), PaymentRow(1, b), PaymentRow(2, c);
    assert payments[0] == a && payments[1] == b && payments[2] == c;
    assert xs == {r0} && ys == {r1, r2};
    assert Earlier(xs, r0) == {} && Earlier(ys, r1) == {};
    RankMonotone(ys, r1, r2);
    forall pair ensures IsPaymentPair(payments, pair) <==> pair in pairs {
      assert IsPaymentPair(payments, pairs[0]);
      if IsPaymentPair(payments, pair) {
        assert pair.keeper == 0;
        assert pair.dup == 1;
        assert pair == pairs[0];
      }
    }
    EmptyIdsExactly(payments, pairs);
    assert IsExtra(payments, pairs, pairs[0], 2);
  }
}
