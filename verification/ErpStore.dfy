/**
 The relational store shared by the two de-duplication scripts, as finite maps
 from primary key to row.  Customers carry their organisation; money is an integer number of the
 smallest stored unit; dates and creation times are integer ordinals.
 */
module ErpStore {
  import opened Basics

  datatype PaymentStatus = Pending | Approved | Cleared | Bounced | Reversed | Void

  datatype InvoiceStatus =
    | Draft | Submitted | Approved | Posted | PartiallyPaid | Paid | Overdue | Void | Disputed

  datatype JournalStatus = Draft | Submitted | Approved | Posted | Reversed | Void

  /**
   name is lower(trim(legal_name)), the only form the scripts compare; parent is
   parent_customer_id, a foreign key with ON DELETE SET NULL.
   */
  datatype Customer = Customer(
    org: Id, code: string, name: string, splynxId: Option<string>, erpnextId: Option<string>, created: int,
    parent: Option<Id>)

  datatype Payment = Payment(
    customer: Id, amount: int, date: int, created: int, status: PaymentStatus,
    splynxId: Option<string>, erpnextId: Option<string>, journal: Option<Id>, batch: Option<Id>)

  datatype Invoice = Invoice(
    customer: Id, total: int, paid: int, date: int, created: int, status: InvoiceStatus,
    splynxId: Option<string>, erpnextId: Option<string>, journal: Option<Id>, batch: Option<Id>)

  datatype Allocation = Allocation(payment: Id, invoice: Id, amount: int)

  datatype Journal = Journal(status: JournalStatus, batch: Option<Id>)

  datatype LedgerLine = LedgerLine(journal: Id, debit: int, credit: int)

  datatype Snapshot = Snapshot(period: Id, bucket: string, customer: Id)

  datatype EntityType = CustomerEntity | InvoiceEntity | PaymentEntity | CreditNoteEntity

  datatype SyncRow = SyncRow(entity: EntityType, localId: Id)

  /** The foreign-key tables in which only customer_id matters here. */
  datatype RefTable = Quote | SalesOrder | Contract | Payee | Project | Ticket

  datatype Store = Store(
    customers: map<Id, Customer>,
    payments: map<Id, Payment>,
    invoices: map<Id, Invoice>,
    lineTaxes: map<Id, Id>,              // invoice_line_tax row -> invoice of its line
    allocations: map<Id, Allocation>,
    journals: map<Id, Journal>,
    lines: map<Id, LedgerLine>,
    batches: set<Id>,
    refs: map<(RefTable, Id), Option<Id>>,
    snapshots: map<Id, Snapshot>,
    syncs: map<Id, SyncRow>)
}

/** gl.journal_entry, gl.posted_ledger_line and gl.posting_batch. */
module GeneralLedger {
  import opened Basics
  import opened Sessions
  import opened Sums
  import opened ErpStore

  function LinesOf(lines: map<Id, LedgerLine>, j: Id): set<Id> {
    set l | l in lines && lines[l].journal == j
  }

  function Without(lines: map<Id, LedgerLine>, j: Id): map<Id, LedgerLine> {
    map l | l in lines && lines[l].journal != j :: lines[l]
  }

  function NetAmount(lines: map<Id, LedgerLine>): nat -> int {
    l => if l in lines then lines[l].debit - lines[l].credit else 0
  }

  function JournalNet(lines: map<Id, LedgerLine>, j: Id): int {
    Sum(LinesOf(lines, j), NetAmount(lines))
  }

  /** SUM(debit_amount) - SUM(credit_amount) over the whole ledger. */
  function TrialBalance(lines: map<Id, LedgerLine>): int {
    Sum(lines.Keys, NetAmount(lines))
  }

  /** Journals other than je that still hold posting batch pb open. */
  function OtherLiveJournals(s: Store, je: Id, pb: Id): set<Id> {
    set j | j in s.journals && s.journals[j].batch == Some(pb)
            && s.journals[j].status != JournalStatus.Void && j != je
  }

  function VoidJournal(journals: map<Id, Journal>, je: Id): map<Id, Journal> {
    if je in journals then journals[je := journals[je].(status := JournalStatus.Void)] else journals
  }

  /** What voiding one journal leaves of the ledger. */
  function VoidGl(s: Store, je: Id, pb: Option<Id>): Store {
    s.(lines := Without(s.lines, je),
       batches := if pb.Some? && OtherLiveJournals(s, je, pb.value) == {} then s.batches - {pb.value} else s.batches,
       journals := VoidJournal(s.journals, je))
  }

  datatype GlStats = GlStats(linesDeleted: nat, batchesDeleted: nat, journalsVoided: nat)

  /** Statement by statement, with the row counts the script reports. */
  method VoidGlForJournal(db: Session<Store>, je: Id, pb: Option<Id>) returns (stats: GlStats)
    modifies db`current
    ensures db.current == VoidGl(old(db.current), je, pb)
    ensures stats == GlStats(|LinesOf(old(db.current.lines), je)|,
                             |old(db.current.batches)| - |db.current.batches|,
                             if je in old(db.current.journals) then 1 else 0)
  {
    var s := db.current;
    var deleted := |LinesOf(s.lines, je)|;
    db.Write(s.(lines := Without(s.lines, je)));
    var dropped := 0;
    if pb.Some? {
      var remaining := |OtherLiveJournals(db.current, je, pb.value)|;
      if remaining == 0 {
        dropped := if pb.value in db.current.batches then 1 else 0;
        db.Write(db.current.(batches := db.current.batches - {pb.value}));
      }
    }
    db.Write(db.current.(journals := VoidJournal(db.current.journals, je)));
    assert OtherLiveJournals(s.(lines := db.current.lines), je, if pb.Some? then pb.value else 0)
        == OtherLiveJournals(s, je, if pb.Some? then pb.value else 0);
    stats := GlStats(deleted, dropped, if je in s.journals then 1 else 0);
  }

  ghost predicate JournalsBalance(s: Store) {
    forall j: Id :: JournalNet(s.lines, j) == 0
  }

  ghost predicate NoLinesOnVoidJournals(s: Store) {
    forall l :: l in s.lines && s.lines[l].journal in s.journals
                ==> s.journals[s.lines[l].journal].status != JournalStatus.Void
  }

  ghost predicate GlSound(s: Store) {
    JournalsBalance(s) && NoLinesOnVoidJournals(s)
  }

  /** Every live journal's posting batch is there. */
  ghost predicate LiveBatchesExist(s: Store) {
    forall j :: j in s.journals && s.journals[j].status != JournalStatus.Void && s.journals[j].batch.Some?
                ==> s.journals[j].batch.value in s.batches
  }

  lemma RemainingNet(lines: map<Id, LedgerLine>, rest: map<Id, LedgerLine>, gone: Id, j: Id)
    requires rest == Without(lines, gone)
    ensures JournalNet(rest, j) == if j == gone then 0 else JournalNet(lines, j)
  {
    if j == gone {
      assert LinesOf(rest, j) == {};
    } else {
      assert LinesOf(rest, j) == LinesOf(lines, j);
      SumAgree(LinesOf(lines, j), NetAmount(lines), NetAmount(rest));
    }
  }

  lemma TotalSplits(lines: map<Id, LedgerLine>, j: Id)
    ensures TrialBalance(lines) == JournalNet(lines, j) + TrialBalance(Without(lines, j))
  {
    var own, rest := LinesOf(lines, j), Without(lines, j);
    assert lines.Keys == own + rest.Keys;
    SumUnion(own, rest.Keys, NetAmount(lines));
    SumAgree(rest.Keys, NetAmount(lines), NetAmount(rest));
  }

  /** An empty ledger is balanced. */
  lemma NothingPosted(j: Id)
    ensures TrialBalance(map[]) == 0 && JournalNet(map[], j) == 0
  {
    assert LinesOf(map[], j) == {};
  }

  /** One more ledger line moves the trial balance, and the balance of its own journal only, by debit minus credit. */
  lemma OneMoreLine(lines: map<Id, LedgerLine>, l: Id, x: LedgerLine, j: Id)
    requires l !in lines
    ensures TrialBalance(lines[l := x]) == TrialBalance(lines) + x.debit - x.credit
    ensures JournalNet(lines[l := x], j) == JournalNet(lines, j) + if x.journal == j then x.debit - x.credit else 0
  {
    var more := lines[l := x];
    assert more.Keys - {l} == lines.Keys;
    SumRemove(more.Keys, NetAmount(more), l);
    SumAgree(lines.Keys, NetAmount(lines), NetAmount(more));
    var own := LinesOf(lines, j);
    SumAgree(own, NetAmount(lines), NetAmount(more));
    if x.journal == j {
      assert LinesOf(more, j) - {l} == own;
      SumRemove(LinesOf(more, j), NetAmount(more), l);
    } else {
      assert LinesOf(more, j) == own;
    }
  }

  /** Balanced journals make a balanced ledger. */
  lemma {:induction false} BalancedTotal(lines: map<Id, LedgerLine>)
    requires forall j: Id :: JournalNet(lines, j) == 0
    ensures TrialBalance(lines) == 0
    decreases lines.Keys
  {
    if lines.Keys != {} {
      var l :| l in lines.Keys;
      var j := lines[l].journal;
      var rest := Without(lines, j);
      assert l in lines.Keys && l !in rest.Keys && rest.Keys <= lines.Keys;
      forall i: Id ensures JournalNet(rest, i) == 0 {
        RemainingNet(lines, rest, j, i);
      }
      BalancedTotal(rest);
      TotalSplits(lines, j);
    }
  }

  /**
   Voiding any journal under any posting-batch id keeps the ledger sound, even
   when the document's batch id is not the journal's own, and touches no line of
   any other journal.
   */
  lemma VoidGlKeepsSound(s: Store, je: Id, pb: Option<Id>)
    requires GlSound(s)
    ensures GlSound(VoidGl(s, je, pb))
    ensures TrialBalance(VoidGl(s, je, pb).lines) == TrialBalance(s.lines) == 0
    ensures forall l :: l in s.lines && l !in VoidGl(s, je, pb).lines <==> l in LinesOf(s.lines, je)
  {
    var t := VoidGl(s, je, pb);
    forall j: Id ensures JournalNet(t.lines, j) == 0 {
      RemainingNet(s.lines, t.lines, je, j);
    }
    BalancedTotal(s.lines);
    BalancedTotal(t.lines);
  }

  /** And no journal left live loses its posting batch. */
  lemma VoidGlKeepsLiveBatches(s: Store, je: Id, pb: Option<Id>)
    requires LiveBatchesExist(s)
    ensures LiveBatchesExist(VoidGl(s, je, pb))
  {
    var t := VoidGl(s, je, pb);
    forall j | j in t.journals && t.journals[j].status != JournalStatus.Void && t.journals[j].batch.Some?
      ensures t.journals[j].batch.value in t.batches
    {
      assert j != je;
      if pb == t.journals[j].batch {
        assert j in OtherLiveJournals(s, je, pb.value);
      }
    }
  }

  ghost predicate NoIdleBatches(s: Store) {
    forall b :: b in s.batches ==> Holds(s, b)
  }

  ghost predicate Holds(s: Store, b: Id) {
    exists j :: j in s.journals && s.journals[j].status != JournalStatus.Void && s.journals[j].batch == Some(b)
  }

  /**
   When the document names its journal's own batch, a batch disappears exactly
   when its last live journal is voided.
   */
  lemma BatchGoesWithLastJournal(s: Store, je: Id, pb: Option<Id>)
    requires NoIdleBatches(s)
    requires je in s.journals && s.journals[je].batch == pb
    ensures NoIdleBatches(VoidGl(s, je, pb))
    ensures forall b :: b in s.batches ==> (b in VoidGl(s, je, pb).batches <==> Holds(VoidGl(s, je, pb), b))
  {
    var t := VoidGl(s, je, pb);
    forall b | b in s.batches
      ensures b in t.batches <==> Holds(t, b)
    {
      var j :| j in s.journals && s.journals[j].status != JournalStatus.Void && s.journals[j].batch == Some(b);
      if pb == Some(b) {
        if OtherLiveJournals(s, je, b) != {} {
          var k :| k in OtherLiveJournals(s, je, b);
          assert k in t.journals && t.journals[k] == s.journals[k];
        }
        assert b in t.batches <==> OtherLiveJournals(s, je, b) != {};
        if Holds(t, b) {
          var k :| k in t.journals && t.journals[k].status != JournalStatus.Void && t.journals[k].batch == Some(b);
          assert k in OtherLiveJournals(s, je, b);
        }
      } else {
        assert j != je;
        assert t.journals[j] == s.journals[j];
      }
    }
  }
}
