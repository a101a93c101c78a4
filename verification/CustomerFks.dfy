/**
 Moving every row of one customer to another and deleting the first: the
 operation both de-duplication scripts are built on.
 */
module CustomerFks {
  import opened Basics
  import opened Sessions
  import opened ErpStore

  datatype FkTable = InvoiceTable | PaymentTable | SnapshotTable | Ref(table: RefTable)

  const FK_TABLES: seq<FkTable> := [
    InvoiceTable, PaymentTable, Ref(Quote), Ref(SalesOrder), Ref(Contract),
    SnapshotTable, Ref(Payee), Ref(Project), Ref(Ticket)]

  function InvoiceRows(m: map<Id, Invoice>, c: Id): set<Id> {
    set i | i in m && m[i].customer == c
  }

  function PaymentRows(m: map<Id, Payment>, c: Id): set<Id> {
    set p | p in m && m[p].customer == c
  }

  function SnapshotRows(m: map<Id, Snapshot>, c: Id): set<Id> {
    set k | k in m && m[k].customer == c
  }

  function RefRows(m: map<(RefTable, Id), Option<Id>>, r: RefTable, c: Id): set<(RefTable, Id)> {
    set k | k in m && k.0 == r && m[k] == Some(c)
  }

  function SyncRows(m: map<Id, SyncRow>, c: Id): set<Id> {
    set k | k in m && m[k] == SyncRow(CustomerEntity, c)
  }

  /** The number of rows of one table that refer to a customer. */
  function RowCount(s: Store, t: FkTable, c: Id): nat {
    match t
    case InvoiceTable => |InvoiceRows(s.invoices, c)|
    case PaymentTable => |PaymentRows(s.payments, c)|
    case SnapshotTable => |SnapshotRows(s.snapshots, c)|
    case Ref(r) => |RefRows(s.refs, r, c)|
  }

  function MoveInvoices(m: map<Id, Invoice>, winner: Id, loser: Id): map<Id, Invoice> {
    map i | i in m :: if m[i].customer == loser then m[i].(customer := winner) else m[i]
  }

  function MovePayments(m: map<Id, Payment>, winner: Id, loser: Id): map<Id, Payment> {
    map p | p in m :: if m[p].customer == loser then m[p].(customer := winner) else m[p]
  }

  function MoveRefs(m: map<(RefTable, Id), Option<Id>>, tables: set<FkTable>, winner: Id, loser: Id)
    : map<(RefTable, Id), Option<Id>>
  {
    map k | k in m :: if Ref(k.0) in tables && m[k] == Some(loser) then Some(winner) else m[k]
  }

  function MoveSyncs(m: map<Id, SyncRow>, winner: Id, loser: Id): map<Id, SyncRow> {
    map k | k in m :: if m[k] == SyncRow(CustomerEntity, loser) then SyncRow(CustomerEntity, winner) else m[k]
  }

  predicate WinnerHasBucket(m: map<Id, Snapshot>, row: Snapshot, winner: Id) {
    exists k :: k in m && m[k] == row.(customer := winner)
  }

  /** _merge_aging_snapshots: drop the loser's clashing rows, then move the others. */
  function MergeSnapshots(m: map<Id, Snapshot>, winner: Id, loser: Id): map<Id, Snapshot> {
    map k | k in m && !(m[k].customer == loser && WinnerHasBucket(m, m[k], winner))
      :: if m[k].customer == loser then m[k].(customer := winner) else m[k]
  }

  /** One pass of the loop: move the loser's rows of table t. */
  function ReassignTable(s: Store, winner: Id, loser: Id, t: FkTable): Store {
    match t
    case InvoiceTable => s.(invoices := MoveInvoices(s.invoices, winner, loser))
    case PaymentTable => s.(payments := MovePayments(s.payments, winner, loser))
    case SnapshotTable => s.(snapshots := MergeSnapshots(s.snapshots, winner, loser))
    case Ref(_) => s.(refs := MoveRefs(s.refs, {t}, winner, loser))
  }

  /** Every row of the loser moved to the winner. */
  function ReassignFks(s: Store, winner: Id, loser: Id): Store {
    s.(invoices := MoveInvoices(s.invoices, winner, loser),
       payments := MovePayments(s.payments, winner, loser),
       snapshots := MergeSnapshots(s.snapshots, winner, loser),
       refs := MoveRefs(s.refs, (set t | t in FK_TABLES), winner, loser),
       syncs := MoveSyncs(s.syncs, winner, loser))
  }

  /** What ON DELETE SET NULL leaves of a parent when the given customers are deleted. */
  function ParentLeft(parent: Option<Id>, gone: set<Id>): Option<Id> {
    if parent.Some? && parent.value in gone then None else parent
  }

  function DropCustomers(customers: map<Id, Customer>, gone: set<Id>): map<Id, Customer> {
    map k | k in customers && k !in gone :: customers[k].(parent := ParentLeft(customers[k].parent, gone))
  }

  /** DELETE FROM ar.customer: the database sets the children's parent to NULL. */
  function DropCustomer(customers: map<Id, Customer>, c: Id): map<Id, Customer> {
    DropCustomers(customers, {c})
  }

  lemma DropTwice(customers: map<Id, Customer>, a: set<Id>, b: set<Id>)
    ensures DropCustomers(DropCustomers(customers, a), b) == DropCustomers(customers, a + b)
  {
  }

  /** Reassign every row of loser, then delete the loser. */
  function Merge(s: Store, winner: Id, loser: Id): Store {
    var t := ReassignFks(s, winner, loser);
    t.(customers := DropCustomer(t.customers, loser))
  }

  /** The tables of done moved, the others as they were. */
  ghost function Progress(s: Store, winner: Id, loser: Id, done: set<FkTable>): Store {
    s.(invoices := if InvoiceTable in done then MoveInvoices(s.invoices, winner, loser) else s.invoices,
       payments := if PaymentTable in done then MovePayments(s.payments, winner, loser) else s.payments,
       snapshots := if SnapshotTable in done then MergeSnapshots(s.snapshots, winner, loser) else s.snapshots,
       refs := MoveRefs(s.refs, done, winner, loser))
  }

  lemma ProgressStep(s: Store, winner: Id, loser: Id, done: set<FkTable>, t: FkTable)
    requires t !in done
    ensures ReassignTable(Progress(s, winner, loser, done), winner, loser, t)
         == Progress(s, winner, loser, done + {t})
    ensures RowCount(Progress(s, winner, loser, done), t, loser) == RowCount(s, t, loser)
  {
    var now, next := Progress(s, winner, loser, done), Progress(s, winner, loser, done + {t});
    if t.Ref? {
      assert ReassignTable(now, winner, loser, t).refs == next.refs;
      assert RefRows(now.refs, t.table, loser) == RefRows(s.refs, t.table, loser);
    } else {
      assert next.refs == now.refs;
    }
  }

  lemma NothingToMove(s: Store, winner: Id, loser: Id, t: FkTable)
    requires RowCount(s, t, loser) == 0
    ensures ReassignTable(s, winner, loser, t) == s
  {
    match t
    case InvoiceTable =>
      assert forall i :: i in s.invoices ==> i !in InvoiceRows(s.invoices, loser);
      assert MoveInvoices(s.invoices, winner, loser) == s.invoices;
    case PaymentTable =>
      assert forall p :: p in s.payments ==> p !in PaymentRows(s.payments, loser);
      assert MovePayments(s.payments, winner, loser) == s.payments;
    case SnapshotTable =>
      assert forall k :: k in s.snapshots ==> k !in SnapshotRows(s.snapshots, loser);
      assert MergeSnapshots(s.snapshots, winner, loser) == s.snapshots;
    case Ref(r) =>
      assert forall k :: k in s.refs ==> k !in RefRows(s.refs, r, loser);
      assert MoveRefs(s.refs, {t}, winner, loser) == s.refs;
  }

  function Tally(m: map<FkTable, nat>, t: FkTable): nat {
    if t in m then m[t] else 0
  }

  class MergeStats {
    var fkUpdates: map<FkTable, nat>
    var syncUpdates: nat
    var customersDeleted: nat

    constructor ()
      ensures fkUpdates == map[] && syncUpdates == 0 && customersDeleted == 0
    {
      fkUpdates, syncUpdates, customersDeleted := map[], 0, 0;
    }
  }

  /** The tallies of done have grown by the rows that refer to c. */
  ghost predicate Tallied(before: map<FkTable, nat>, after: map<FkTable, nat>, s: Store, c: Id, done: set<FkTable>) {
    forall t :: Tally(after, t) == Tally(before, t) + (if t in done then RowCount(s, t, c) else 0)
  }

  lemma TalliedStep(
    before: map<FkTable, nat>, between: map<FkTable, nat>, after: map<FkTable, nat>,
    s: Store, now: Store, c: Id, done: set<FkTable>, t: FkTable)
    requires Tallied(before, between, s, c, done) && Tallied(between, after, now, c, {t})
    requires t !in done && RowCount(now, t, c) == RowCount(s, t, c)
    ensures Tallied(before, after, s, c, done + {t})
  {
  }

  ghost function TablesUpTo(i: nat): set<FkTable>
    requires i <= |FK_TABLES|
  {
    set t | t in FK_TABLES[..i]
  }

  lemma NextTable(i: nat)
    requires i < |FK_TABLES|
    ensures FK_TABLES[i] !in TablesUpTo(i)
    ensures TablesUpTo(i + 1) == TablesUpTo(i) + {FK_TABLES[i]}
  {
    assert forall j :: 0 <= j < i ==> FK_TABLES[j] != FK_TABLES[i];
    assert FK_TABLES[..i + 1] == FK_TABLES[..i] + [FK_TABLES[i]];
  }

  method ReassignOneTable(db: Session<Store>, stats: MergeStats, winner: Id, loser: Id, t: FkTable, dryRun: bool)
    modifies db`current, stats`fkUpdates
    ensures db.current == if dryRun then old(db.current) else ReassignTable(old(db.current), winner, loser, t)
    ensures Tallied(old(stats.fkUpdates), stats.fkUpdates, old(db.current), loser, {t})
  {
    var count := RowCount(db.current, t, loser);
    if count > 0 {
      if !dryRun {
        db.Write(ReassignTable(db.current, winner, loser, t));
      }
      stats.fkUpdates := stats.fkUpdates[t := Tally(stats.fkUpdates, t) + count];
    } else {
      NothingToMove(db.current, winner, loser, t);
    }
  }

  method ReassignFkTables(db: Session<Store>, stats: MergeStats, winner: Id, loser: Id, dryRun: bool)
    modifies db`current, stats`fkUpdates
    ensures db.current == if dryRun then old(db.current)
                          else Progress(old(db.current), winner, loser, TablesUpTo(|FK_TABLES|))
    ensures Tallied(old(stats.fkUpdates), stats.fkUpdates, old(db.current), loser, TablesUpTo(|FK_TABLES|))
  {
    ghost var s := db.current;
    assert Progress(s, winner, loser, {}).refs == s.refs;
    for i := 0 to |FK_TABLES|
      invariant db.current == if dryRun then s else Progress(s, winner, loser, TablesUpTo(i))
      invariant Tallied(old(stats.fkUpdates), stats.fkUpdates, s, loser, TablesUpTo(i))
    {
      NextTable(i);
      ProgressStep(s, winner, loser, TablesUpTo(i), FK_TABLES[i]);
      ghost var now, tallies := db.current, stats.fkUpdates;
      ReassignOneTable(db, stats, winner, loser, FK_TABLES[i], dryRun);
      TalliedStep(old(stats.fkUpdates), tallies, stats.fkUpdates, s, now, loser, TablesUpTo(i), FK_TABLES[i]);
    }
  }

  /** _reassign_fks: the whole loop over FK_TABLES, then external_sync. */
  method ReassignCustomerFks(db: Session<Store>, stats: MergeStats, winner: Id, loser: Id, dryRun: bool)
    modifies db`current, stats`fkUpdates, stats`syncUpdates
    ensures db.current == if dryRun then old(db.current) else ReassignFks(old(db.current), winner, loser)
    ensures Tallied(old(stats.fkUpdates), stats.fkUpdates, old(db.current), loser, TablesUpTo(|FK_TABLES|))
    ensures stats.syncUpdates == old(stats.syncUpdates) + |SyncRows(old(db.current.syncs), loser)|
  {
    ghost var s := db.current;
    ReassignFkTables(db, stats, winner, loser, dryRun);
    AllTablesMoved(s, winner, loser);
    var count := |SyncRows(db.current.syncs, loser)|;
    if count > 0 {
      if !dryRun {
        db.Write(db.current.(syncs := MoveSyncs(db.current.syncs, winner, loser)));
      }
      stats.syncUpdates := stats.syncUpdates + count;
    } else {
      assert forall k :: k in s.syncs ==> k !in SyncRows(s.syncs, loser);
      assert MoveSyncs(s.syncs, winner, loser) == s.syncs;
    }
  }

  lemma AllTablesMoved(s: Store, winner: Id, loser: Id)
    ensures Progress(s, winner, loser, TablesUpTo(|FK_TABLES|)).(syncs := MoveSyncs(s.syncs, winner, loser))
         == ReassignFks(s, winner, loser)
  {
    assert FK_TABLES[..|FK_TABLES|] == FK_TABLES;
    assert FK_TABLES[0] == InvoiceTable && FK_TABLES[1] == PaymentTable && FK_TABLES[5] == SnapshotTable;
    assert TablesUpTo(|FK_TABLES|) == set t | t in FK_TABLES;
  }

  // ---- What any number of merges keeps ----

  /** Every foreign key of the nine tables names a customer that exists. */
  ghost predicate FkIntact(s: Store) {
    && (forall i :: i in s.invoices ==> s.invoices[i].customer in s.customers)
    && (forall p :: p in s.payments ==> s.payments[p].customer in s.customers)
    && (forall k :: k in s.snapshots ==> s.snapshots[k].customer in s.customers)
    && (forall k :: k in s.refs && s.refs[k].Some? ==> s.refs[k].value in s.customers)
  }

  /** uq_ar_aging: (period, customer, bucket) is unique. */
  ghost predicate UniqueSnapshots(s: Store) {
    forall j, k :: j in s.snapshots && k in s.snapshots && s.snapshots[j] == s.snapshots[k] ==> j == k
  }

  ghost predicate HasSnapshot(s: Store, name: string, period: Id, bucket: string)
    requires FkIntact(s)
  {
    exists k :: k in s.snapshots && s.customers[s.snapshots[k].customer].name == name
                && s.snapshots[k].period == period && s.snapshots[k].bucket == bucket
  }

  ghost predicate CustomersKept(s: Store, t: Store) {
    forall c :: c in t.customers ==>
      && c in s.customers
      && t.customers[c].org == s.customers[c].org
      && t.customers[c].name == s.customers[c].name
      && t.customers[c].code == s.customers[c].code
      && t.customers[c].created == s.customers[c].created
  }

  ghost predicate InvoicesKept(s: Store, t: Store)
    requires FkIntact(s) && FkIntact(t)
  {
    && t.invoices.Keys == s.invoices.Keys
    && forall i :: i in t.invoices ==>
         && t.customers[t.invoices[i].customer].name == s.customers[s.invoices[i].customer].name
         && t.invoices[i] == s.invoices[i].(customer := t.invoices[i].customer)
  }

  ghost predicate PaymentsKept(s: Store, t: Store)
    requires FkIntact(s) && FkIntact(t)
  {
    && t.payments.Keys == s.payments.Keys
    && forall p :: p in t.payments ==>
         && t.customers[t.payments[p].customer].name == s.customers[s.payments[p].customer].name
         && t.payments[p] == s.payments[p].(customer := t.payments[p].customer)
  }

  ghost predicate RefsKept(s: Store, t: Store)
    requires FkIntact(s) && FkIntact(t)
  {
    && t.refs.Keys == s.refs.Keys
    && (forall k :: k in t.refs ==> (t.refs[k].None? <==> s.refs[k].None?))
    && (forall k :: k in t.refs && t.refs[k].Some? ==>
          t.customers[t.refs[k].value].name == s.customers[s.refs[k].value].name)
  }

  /** Aging rows may be dropped, but no (name, period, bucket) is lost and none is doubled. */
  ghost predicate SnapshotsKept(s: Store, t: Store)
    requires FkIntact(s) && FkIntact(t)
  {
    && t.snapshots.Keys <= s.snapshots.Keys
    && (forall k :: k in t.snapshots ==>
          && t.snapshots[k] == s.snapshots[k].(customer := t.snapshots[k].customer)
          && t.customers[t.snapshots[k].customer].name == s.customers[s.snapshots[k].customer].name)
    && (forall n, p, b :: HasSnapshot(t, n, p, b) <==> HasSnapshot(s, n, p, b))
    && (UniqueSnapshots(s) ==> UniqueSnapshots(t))
  }

  ghost predicate SyncsKept(s: Store, t: Store) {
    && t.syncs.Keys == s.syncs.Keys
    && (forall k :: k in t.syncs ==> t.syncs[k].entity == s.syncs[k].entity)
    && (forall k :: k in t.syncs && s.syncs[k].entity != CustomerEntity ==> t.syncs[k] == s.syncs[k])
    && (forall k :: k in t.syncs && s.syncs[k].entity == CustomerEntity && s.syncs[k].localId in s.customers ==>
          && t.syncs[k].localId in t.customers
          && t.customers[t.syncs[k].localId].name == s.customers[s.syncs[k].localId].name)
  }

  ghost predicate LedgerKept(s: Store, t: Store) {
    && t.lineTaxes == s.lineTaxes && t.allocations == s.allocations && t.journals == s.journals
    && t.lines == s.lines && t.batches == s.batches
  }

  /** t holds s's rows, each still belonging to a customer of the same name. */
  ghost predicate MergedFrom(s: Store, t: Store)
    requires FkIntact(s)
  {
    && FkIntact(t)
    && CustomersKept(s, t)
    && InvoicesKept(s, t)
    && PaymentsKept(s, t)
    && RefsKept(s, t)
    && SnapshotsKept(s, t)
    && SyncsKept(s, t)
    && LedgerKept(s, t)
  }

  lemma MergedFromTransitive(s: Store, t: Store, u: Store)
    requires FkIntact(s) && MergedFrom(s, t) && MergedFrom(t, u)
    ensures MergedFrom(s, u)
  {
    DocumentsKeptTransitive(s, t, u);
    RefsKeptTransitive(s, t, u);
    SnapshotsKeptTransitive(s, t, u);
    SyncsKeptTransitive(s, t, u);
  }

  lemma DocumentsKeptTransitive(s: Store, t: Store, u: Store)
    requires FkIntact(s) && FkIntact(t) && FkIntact(u)
    requires InvoicesKept(s, t) && InvoicesKept(t, u) && PaymentsKept(s, t) && PaymentsKept(t, u)
    ensures InvoicesKept(s, u) && PaymentsKept(s, u)
  {
  }

  lemma RefsKeptTransitive(s: Store, t: Store, u: Store)
    requires FkIntact(s) && FkIntact(t) && FkIntact(u) && RefsKept(s, t) && RefsKept(t, u)
    ensures RefsKept(s, u)
  {
  }

  lemma SnapshotsKeptTransitive(s: Store, t: Store, u: Store)
    requires FkIntact(s) && FkIntact(t) && FkIntact(u) && SnapshotsKept(s, t) && SnapshotsKept(t, u)
    ensures SnapshotsKept(s, u)
  {
  }

  lemma SyncsKeptTransitive(s: Store, t: Store, u: Store)
    requires SyncsKept(s, t) && SyncsKept(t, u)
    ensures SyncsKept(s, u)
  {
  }

  lemma AllRefTablesListed(r: RefTable)
    ensures Ref(r) in FK_TABLES
  {
    match r
    case Quote => assert FK_TABLES[2] == Ref(r);
    case SalesOrder => assert FK_TABLES[3] == Ref(r);
    case Contract => assert FK_TABLES[4] == Ref(r);
    case Payee => assert FK_TABLES[6] == Ref(r);
    case Project => assert FK_TABLES[7] == Ref(r);
    case Ticket => assert FK_TABLES[8] == Ref(r);
  }

  lemma MergeKeepsForeignKeys(s: Store, winner: Id, loser: Id)
    requires FkIntact(s) && winner in s.customers && winner != loser
    ensures FkIntact(Merge(s, winner, loser))
  {
    forall k | k in s.refs ensures Ref(k.0) in FK_TABLES { AllRefTablesListed(k.0); }
  }

  lemma MergedSnapshots(s: Store, winner: Id, loser: Id)
    requires FkIntact(s) && winner in s.customers && winner != loser
    requires loser in s.customers ==> s.customers[loser].name == s.customers[winner].name
    requires FkIntact(Merge(s, winner, loser))
    ensures SnapshotsKept(s, Merge(s, winner, loser))
  {
    var t := Merge(s, winner, loser);
    MergedSnapshotRows(s, winner, loser);
    forall n, p, b ensures HasSnapshot(t, n, p, b) <==> HasSnapshot(s, n, p, b) {
      MergedSnapshotKeys(s, winner, loser, n, p, b);
    }
  }

  lemma MergedSnapshotRows(s: Store, winner: Id, loser: Id)
    requires FkIntact(s) && winner in s.customers && winner != loser
    requires loser in s.customers ==> s.customers[loser].name == s.customers[winner].name
    ensures var t := Merge(s, winner, loser);
      && t.snapshots.Keys <= s.snapshots.Keys
      && (forall k :: k in t.snapshots ==>
            && t.snapshots[k] == s.snapshots[k].(customer := t.snapshots[k].customer)
            && t.snapshots[k].customer in t.customers
            && t.customers[t.snapshots[k].customer].name == s.customers[s.snapshots[k].customer].name)
      && (UniqueSnapshots(s) ==> UniqueSnapshots(t))
  {
    var t := Merge(s, winner, loser);
    assert t.snapshots == MergeSnapshots(s.snapshots, winner, loser);
    assert t.customers == DropCustomer(s.customers, loser);
  }

  lemma MergedSnapshotKeys(s: Store, winner: Id, loser: Id, n: string, p: Id, b: string)
    requires FkIntact(s) && winner in s.customers && winner != loser
    requires loser in s.customers ==> s.customers[loser].name == s.customers[winner].name
    requires FkIntact(Merge(s, winner, loser))
    ensures HasSnapshot(Merge(s, winner, loser), n, p, b) <==> HasSnapshot(s, n, p, b)
  {
    var t := Merge(s, winner, loser);
    MergedSnapshotRows(s, winner, loser);
    if HasSnapshot(s, n, p, b) {
      var k :| k in s.snapshots && s.customers[s.snapshots[k].customer].name == n
               && s.snapshots[k].period == p && s.snapshots[k].bucket == b;
      if k !in t.snapshots {
        var j :| j in s.snapshots && s.snapshots[j] == s.snapshots[k].(customer := winner);
        assert j in t.snapshots;
      }
    }
    if HasSnapshot(t, n, p, b) {
      var k :| k in t.snapshots && t.customers[t.snapshots[k].customer].name == n
               && t.snapshots[k].period == p && t.snapshots[k].bucket == b;
      assert k in s.snapshots;
    }
  }

  lemma MergedInvoices(s: Store, winner: Id, loser: Id)
    requires FkIntact(s) && winner in s.customers && winner != loser
    requires loser in s.customers ==> s.customers[loser].name == s.customers[winner].name
    requires FkIntact(Merge(s, winner, loser))
    ensures InvoicesKept(s, Merge(s, winner, loser))
  {
  }

  lemma MergedPayments(s: Store, winner: Id, loser: Id)
    requires FkIntact(s) && winner in s.customers && winner != loser
    requires loser in s.customers ==> s.customers[loser].name == s.customers[winner].name
    requires FkIntact(Merge(s, winner, loser))
    ensures PaymentsKept(s, Merge(s, winner, loser))
  {
  }

  lemma MergedReferences(s: Store, winner: Id, loser: Id)
    requires FkIntact(s) && winner in s.customers && winner != loser
    requires loser in s.customers ==> s.customers[loser].name == s.customers[winner].name
    requires FkIntact(Merge(s, winner, loser))
    ensures RefsKept(s, Merge(s, winner, loser)) && SyncsKept(s, Merge(s, winner, loser))
  {
  }

  /** Every parent is a customer. */
  ghost predicate ParentsIntact(s: Store) {
    forall c :: c in s.customers && s.customers[c].parent.Some? ==> s.customers[c].parent.value in s.customers
  }

  /**
   Merging two customers of one name keeps every foreign key valid, every row
   with a customer of the name it had, the aging keys unique, and the aging keys
   of every name unchanged.  Of the remaining customers exactly the loser's children
   lose their parent, which no foreign-key table moves.
   */
  lemma MergeKeepsIntegrity(s: Store, winner: Id, loser: Id)
    requires FkIntact(s) && winner in s.customers && winner != loser
    requires loser in s.customers ==> s.customers[loser].name == s.customers[winner].name
    ensures MergedFrom(s, Merge(s, winner, loser))
    ensures loser !in Merge(s, winner, loser).customers
    ensures ParentsIntact(s) ==> ParentsIntact(Merge(s, winner, loser))
    ensures forall c :: c in Merge(s, winner, loser).customers ==>
      (Merge(s, winner, loser).customers[c].parent == s.customers[c].parent <==> s.customers[c].parent != Some(loser))
  {
    MergeKeepsForeignKeys(s, winner, loser);
    MergedSnapshots(s, winner, loser);
    MergedInvoices(s, winner, loser);
    MergedPayments(s, winner, loser);
    MergedReferences(s, winner, loser);
  }

  /** The winner's (period, bucket) keys become the union of both customers' keys. */
  lemma WinnerKeysAreUnion(s: Store, winner: Id, loser: Id)
    requires winner != loser
    ensures BucketsOf(Merge(s, winner, loser), winner) == BucketsOf(s, winner) + BucketsOf(s, loser)
  {
    var t := Merge(s, winner, loser);
    forall b | b in BucketsOf(s, loser) ensures b in BucketsOf(t, winner) {
      var k :| k in s.snapshots && s.snapshots[k].customer == loser && b == (s.snapshots[k].period, s.snapshots[k].bucket);
      if k !in t.snapshots {
        var j :| j in s.snapshots && s.snapshots[j] == s.snapshots[k].(customer := winner);
        assert j in t.snapshots;
      } else {
        assert t.snapshots[k].customer == winner;
      }
    }
    forall b | b in BucketsOf(s, winner) ensures b in BucketsOf(t, winner) {
      var k :| k in s.snapshots && s.snapshots[k].customer == winner && b == (s.snapshots[k].period, s.snapshots[k].bucket);
      assert k in t.snapshots;
    }
  }

  ghost function BucketsOf(s: Store, c: Id): set<(Id, string)> {
    set k | k in s.snapshots && s.snapshots[k].customer == c :: (s.snapshots[k].period, s.snapshots[k].bucket)
  }

  // ---- A list of merges ----

  /** One row of a name join: an ERPNext customer and a Splynx customer it matches. */
  datatype CustomerMatch = CustomerMatch(erp: Id, erpnextId: Option<string>, splynx: Id)

  /** Copy the ERPNext id onto a winner that has none. */
  function LinkCustomer(customers: map<Id, Customer>, row: CustomerMatch): map<Id, Customer> {
    if row.erpnextId.Some? && row.erpnextId.value != "" && row.splynx in customers
       && customers[row.splynx].erpnextId.None?
    then customers[row.splynx := customers[row.splynx].(erpnextId := row.erpnextId)]
    else customers
  }

  function LinkAndMerge(s: Store, row: CustomerMatch): Store {
    Merge(s.(customers := LinkCustomer(s.customers, row)), row.splynx, row.erp)
  }

  /** The body both merge loops share: copy the ERPNext id, move the foreign keys, delete the loser. */
  method MergeOneRow(db: Session<Store>, stats: MergeStats, row: CustomerMatch)
    modifies db`current, stats
    ensures db.current == LinkAndMerge(old(db.current), row)
    ensures stats.customersDeleted == old(stats.customersDeleted) + 1
  {
    db.Write(db.current.(customers := LinkCustomer(db.current.customers, row)));
    ReassignCustomerFks(db, stats, row.splynx, row.erp, false);
    db.Write(db.current.(customers := DropCustomer(db.current.customers, row.erp)));
    stats.customersDeleted := stats.customersDeleted + 1;
  }

  function MergeRows(s: Store, rows: seq<CustomerMatch>): Store
    decreases |rows|
  {
    if rows == [] then s else MergeRows(LinkAndMerge(s, rows[0]), rows[1..])
  }

  /** Each row joins two customers of one name, and no winner is ever a loser. */
  ghost predicate MergeableRows(s: Store, rows: seq<CustomerMatch>) {
    && (forall i :: 0 <= i < |rows| ==> rows[i].splynx in s.customers)
    && (forall i :: 0 <= i < |rows| && rows[i].erp in s.customers ==>
          s.customers[rows[i].erp].name == s.customers[rows[i].splynx].name)
    && (forall i, j :: 0 <= i < |rows| && 0 <= j < |rows| ==> rows[i].erp != rows[j].splynx)
  }

  ghost predicate IsWinner(rows: seq<CustomerMatch>, c: Id) {
    exists i :: 0 <= i < |rows| && rows[i].splynx == c
  }

  ghost function Losers(rows: seq<CustomerMatch>): set<Id> {
    set i | 0 <= i < |rows| :: rows[i].erp
  }

  /** Rewriting ids or other details of customers, but not their names, keeps integrity. */
  lemma SameNamesKeepIntegrity(s: Store, customers: map<Id, Customer>)
    requires FkIntact(s) && customers.Keys == s.customers.Keys
    requires forall c :: c in customers ==>
      && customers[c].org == s.customers[c].org
      && customers[c].name == s.customers[c].name
      && customers[c].code == s.customers[c].code
      && customers[c].created == s.customers[c].created
    ensures MergedFrom(s, s.(customers := customers))
  {
    SameNamesSnapshots(s, customers);
  }

  lemma SameNamesSnapshots(s: Store, customers: map<Id, Customer>)
    requires FkIntact(s) && customers.Keys == s.customers.Keys
    requires forall c :: c in customers ==> customers[c].name == s.customers[c].name
    ensures FkIntact(s.(customers := customers)) && SnapshotsKept(s, s.(customers := customers))
  {
    var t := s.(customers := customers);
    forall n, p, b ensures HasSnapshot(t, n, p, b) <==> HasSnapshot(s, n, p, b) {
      if HasSnapshot(s, n, p, b) {
        var k :| k in s.snapshots && s.customers[s.snapshots[k].customer].name == n
                 && s.snapshots[k].period == p && s.snapshots[k].bucket == b;
        assert k in t.snapshots;
      }
      if HasSnapshot(t, n, p, b) {
        var k :| k in t.snapshots && t.customers[t.snapshots[k].customer].name == n
                 && t.snapshots[k].period == p && t.snapshots[k].bucket == b;
        assert k in s.snapshots;
      }
    }
  }

  lemma LinkAndMergeKeeps(s: Store, row: CustomerMatch)
    requires FkIntact(s) && row.splynx in s.customers && row.erp != row.splynx
    requires row.erp in s.customers ==> s.customers[row.erp].name == s.customers[row.splynx].name
    ensures MergedFrom(s, LinkAndMerge(s, row))
  {
    var linked := s.(customers := LinkCustomer(s.customers, row));
    SameNamesKeepIntegrity(s, linked.customers);
    MergeKeepsIntegrity(linked, row.splynx, row.erp);
    MergedFromTransitive(s, linked, LinkAndMerge(s, row));
  }

  /** Any list of such merges keeps the integrity of every table. */
  lemma {:induction false} MergeRowsKeepIntegrity(s: Store, rows: seq<CustomerMatch>)
    requires FkIntact(s) && MergeableRows(s, rows)
    ensures MergedFrom(s, MergeRows(s, rows))
    decreases |rows|
  {
    if rows == [] {
    } else {
      LinkAndMergeKeeps(s, rows[0]);
      var s1 := LinkAndMerge(s, rows[0]);
      StillMergeable(s, rows);
      MergeRowsKeepIntegrity(s1, rows[1..]);
      MergedFromTransitive(s, s1, MergeRows(s1, rows[1..]));
    }
  }

  lemma StillMergeable(s: Store, rows: seq<CustomerMatch>)
    requires rows != [] && MergeableRows(s, rows)
    ensures MergeableRows(LinkAndMerge(s, rows[0]), rows[1..])
  {
    var t := LinkAndMerge(s, rows[0]);
    assert t.customers == DropCustomer(LinkCustomer(s.customers, rows[0]), rows[0].erp);
    forall i | 0 <= i < |rows[1..]| ensures rows[1..][i] == rows[i + 1] {}
  }

  /** It deletes exactly the losers. */
  lemma {:induction false} MergeRowsDelete(s: Store, rows: seq<CustomerMatch>)
    requires MergeableRows(s, rows)
    ensures MergeRows(s, rows).customers.Keys == s.customers.Keys - Losers(rows)
    decreases |rows|
  {
    if rows == [] {
      assert Losers(rows) == {};
    } else {
      assert LinkAndMerge(s, rows[0]).customers == DropCustomer(LinkCustomer(s.customers, rows[0]), rows[0].erp);
      StillMergeable(s, rows);
      MergeRowsDelete(LinkAndMerge(s, rows[0]), rows[1..]);
      LosersSplit(rows);
    }
  }

  /** The first non-empty ERPNext id offered to winner c. */
  function OfferedId(rows: seq<CustomerMatch>, c: Id): Option<string>
    decreases |rows|
  {
    if rows == [] then None
    else if rows[0].splynx == c && rows[0].erpnextId.Some? && rows[0].erpnextId.value != "" then rows[0].erpnextId
    else OfferedId(rows[1..], c)
  }

  /**
   Of each surviving customer it changes the ERPNext id and the parent at most: an id
   held before stays, and one without takes the first non-empty id of the customers
   merged into it; a parent is lost iff it was merged away.
   */
  lemma {:induction false} MergeRowsIds(s: Store, rows: seq<CustomerMatch>, c: Id)
    requires c in MergeRows(s, rows).customers
    ensures c in s.customers
    ensures MergeRows(s, rows).customers[c]
         == s.customers[c].(erpnextId := if s.customers[c].erpnextId.Some? then s.customers[c].erpnextId else OfferedId(rows, c),
                            parent := ParentLeft(s.customers[c].parent, Losers(rows)))
    decreases |rows|
  {
    if rows == [] {
    } else {
      var t := LinkAndMerge(s, rows[0]);
      MergeRowsIds(t, rows[1..], c);
      LosersSplit(rows);
      assert t.customers == DropCustomer(LinkCustomer(s.customers, rows[0]), rows[0].erp);
    }
  }

  predicate Offers(row: CustomerMatch, c: Id) {
    row.splynx == c && row.erpnextId.Some? && row.erpnextId.value != ""
  }

  /** It is the id of the first row that offers c one. */
  lemma {:induction false} OfferedIdMeans(rows: seq<CustomerMatch>, c: Id)
    ensures OfferedId(rows, c).None? ==> forall i :: 0 <= i < |rows| ==> !Offers(rows[i], c)
    ensures OfferedId(rows, c).Some? ==>
      exists i :: 0 <= i < |rows| && Offers(rows[i], c) && rows[i].erpnextId == OfferedId(rows, c)
                  && forall j :: 0 <= j < i ==> !Offers(rows[j], c)
    decreases |rows|
  {
    if rows == [] {
    } else if !Offers(rows[0], c) {
      OfferedIdMeans(rows[1..], c);
      if OfferedId(rows, c).Some? {
        var i :| 0 <= i < |rows[1..]| && Offers(rows[1..][i], c) && rows[1..][i].erpnextId == OfferedId(rows, c)
                 && forall j :: 0 <= j < i ==> !Offers(rows[1..][j], c);
        forall j | 0 <= j < i + 1 ensures !Offers(rows[j], c) {
          if j > 0 { assert rows[1..][j - 1] == rows[j]; }
        }
        assert rows[i + 1] == rows[1..][i];
      } else {
        forall i | 0 <= i < |rows| ensures !Offers(rows[i], c) {
          if i > 0 { assert rows[1..][i - 1] == rows[i]; }
        }
      }
    }
  }

  lemma {:induction false} OnlyWinnersAreOffered(rows: seq<CustomerMatch>, c: Id)
    ensures OfferedId(rows, c).Some? ==> IsWinner(rows, c)
    decreases |rows|
  {
    if rows == [] {
    } else {
      OnlyWinnersAreOffered(rows[1..], c);
      if IsWinner(rows[1..], c) {
        var i :| 0 <= i < |rows[1..]| && rows[1..][i].splynx == c;
        assert rows[i + 1].splynx == c;
      } else if rows[0].splynx == c {
        assert IsWinner(rows, c);
      }
    }
  }

  lemma LosersSplit(rows: seq<CustomerMatch>)
    requires rows != []
    ensures Losers(rows) == {rows[0].erp} + Losers(rows[1..])
  {
    forall c | c in Losers(rows) ensures c in {rows[0].erp} + Losers(rows[1..]) {
      var i :| 0 <= i < |rows| && rows[i].erp == c;
      if i > 0 { assert rows[1..][i - 1].erp == c; }
    }
    forall c | c in Losers(rows[1..]) ensures c in Losers(rows) {
      var i :| 0 <= i < |rows[1..]| && rows[1..][i].erp == c;
      assert rows[i + 1].erp == c;
    }
  }

  /** A table's row count is the number of its rows naming the customer. */
  lemma RowCountIs(s: Store, loser: Id, rows: set<Id>)
    ensures (forall i :: i in rows <==> i in s.invoices && s.invoices[i].customer == loser) ==>
      RowCount(s, InvoiceTable, loser) == |rows|
    ensures (forall p :: p in rows <==> p in s.payments && s.payments[p].customer == loser) ==>
      RowCount(s, PaymentTable, loser) == |rows|
    ensures (forall k :: k in rows <==> k in s.snapshots && s.snapshots[k].customer == loser) ==>
      RowCount(s, SnapshotTable, loser) == |rows|
  {
    if forall i :: i in rows <==> i in s.invoices && s.invoices[i].customer == loser {
      assert rows == InvoiceRows(s.invoices, loser);
    }
    if forall p :: p in rows <==> p in s.payments && s.payments[p].customer == loser {
      assert rows == PaymentRows(s.payments, loser);
    }
    if forall k :: k in rows <==> k in s.snapshots && s.snapshots[k].customer == loser {
      assert rows == SnapshotRows(s.snapshots, loser);
    }
  }

  lemma InvoiceRowsMove(m: map<Id, Invoice>, winner: Id, loser: Id)
    requires winner != loser
    ensures |InvoiceRows(MoveInvoices(m, winner, loser), winner)| == |InvoiceRows(m, winner)| + |InvoiceRows(m, loser)|
    ensures InvoiceRows(MoveInvoices(m, winner, loser), loser) == {}
  {
    assert InvoiceRows(MoveInvoices(m, winner, loser), winner) == InvoiceRows(m, winner) + InvoiceRows(m, loser);
  }

  lemma PaymentRowsMove(m: map<Id, Payment>, winner: Id, loser: Id)
    requires winner != loser
    ensures |PaymentRows(MovePayments(m, winner, loser), winner)| == |PaymentRows(m, winner)| + |PaymentRows(m, loser)|
    ensures PaymentRows(MovePayments(m, winner, loser), loser) == {}
  {
    assert PaymentRows(MovePayments(m, winner, loser), winner) == PaymentRows(m, winner) + PaymentRows(m, loser);
  }

  lemma RefRowsMove(m: map<(RefTable, Id), Option<Id>>, tables: set<FkTable>, r: RefTable, winner: Id, loser: Id)
    requires winner != loser && Ref(r) in tables
    ensures |RefRows(MoveRefs(m, tables, winner, loser), r, winner)| == |RefRows(m, r, winner)| + |RefRows(m, r, loser)|
    ensures RefRows(MoveRefs(m, tables, winner, loser), r, loser) == {}
  {
    assert RefRows(MoveRefs(m, tables, winner, loser), r, winner) == RefRows(m, r, winner) + RefRows(m, r, loser);
  }

  /** Merging adds up the row counts of the two, aging rows aside, and leaves the loser none. */
  lemma RowCountsAddUp(s: Store, t: FkTable, winner: Id, loser: Id)
    requires winner != loser && t != SnapshotTable
    ensures RowCount(Merge(s, winner, loser), t, winner) == RowCount(s, t, winner) + RowCount(s, t, loser)
    ensures RowCount(Merge(s, winner, loser), t, loser) == 0
  {
    match t
    case InvoiceTable => InvoiceRowsMove(s.invoices, winner, loser);
    case PaymentTable => PaymentRowsMove(s.payments, winner, loser);
    case Ref(r) =>
      AllRefTablesListed(r);
      RefRowsMove(s.refs, (set u | u in FK_TABLES), r, winner, loser);
  }
}
