/** A whole run of scripts/dedup_customers.py: steps 2, 3, 5 and 6, one commit or a rollback. */
module CustomerRun {
  import opened Basics
  import opened Sessions
  import opened ErpStore
  import opened CustomerFks
  import opened DedupCustomers
  import opened CustomerMerges

  // ---- Step 6: the integrity report ----

  function InvoiceOrphans(s: Store): set<Id> {
    set i | i in s.invoices && s.invoices[i].customer !in s.customers
  }

  function PaymentOrphans(s: Store): set<Id> {
    set p | p in s.payments && s.payments[p].customer !in s.customers
  }

  function SnapshotOrphans(s: Store): set<Id> {
    set k | k in s.snapshots && s.snapshots[k].customer !in s.customers
  }

  function RefOrphans(s: Store): set<(RefTable, Id)> {
    set k | k in s.refs && s.refs[k].Some? && s.refs[k].value !in s.customers
  }

  datatype OrphanReport = OrphanReport(invoices: nat, payments: nat, snapshots: nat, refs: nat)

  /** step6_verify_integrity: references without a customer, NULLs left aside. */
  function VerifyFks(s: Store): OrphanReport {
    OrphanReport(|InvoiceOrphans(s)|, |PaymentOrphans(s)|, |SnapshotOrphans(s)|, |RefOrphans(s)|)
  }

  lemma CleanIffIntact(s: Store)
    ensures VerifyFks(s) == OrphanReport(0, 0, 0, 0) <==> FkIntact(s)
  {
    assert FkIntact(s) <==>
      InvoiceOrphans(s) == {} && PaymentOrphans(s) == {} && SnapshotOrphans(s) == {} && RefOrphans(s) == {} by
    {
      assert forall i :: i in s.invoices && s.invoices[i].customer !in s.customers ==> i in InvoiceOrphans(s);
      assert forall p :: p in s.payments && s.payments[p].customer !in s.customers ==> p in PaymentOrphans(s);
      assert forall k :: k in s.snapshots && s.snapshots[k].customer !in s.customers ==> k in SnapshotOrphans(s);
      assert forall k :: k in s.refs && s.refs[k].Some? && s.refs[k].value !in s.customers ==> k in RefOrphans(s);
    }
  }

  // ---- The run ----

  /** The store after steps 2 and 3. */
  function Merged(s: Store, names: seq<string>, query: (Store, string) -> seq<Id>, rows: seq<CustomerMatch>): Store {
    MergeRows(MergeGroups(s, names, query), FirstMatches(rows))
  }

  ghost function Finished(s: Store, names: seq<string>, query: (Store, string) -> seq<Id>, rows: seq<CustomerMatch>, list: seq<Id>): Store {
    Renumbered(Merged(s, names, query, rows), list, PositionCode, |list|)
  }

  /** Each list is an answer to its query at the moment its step runs. */
  ghost predicate RunAnswers(s: Store, names: seq<string>, query: (Store, string) -> seq<Id>, rows: seq<CustomerMatch>, list: seq<Id>) {
    && AnswersMembers(query) && IsGroupListing(s, names)
    && IsMatchListing(MergeGroups(s, names, query), rows)
    && IsCreationListing(Merged(s, names, query, rows), list)
  }

  /** How main's try block ends, violations of uq_customer_code aside. */
  datatype RunEnd = Completes | Raises(partial: Store) | CommitFails

  /** Steps 2, 3, 5 and 6 in execute mode. */
  method RunCustomerSteps(
    db: Session<Store>, names: seq<string>, query: (Store, string) -> seq<Id>, rows: seq<CustomerMatch>,
    list: seq<Id>, end: RunEnd) returns (ok: bool)
    requires RunAnswers(db.current, names, query, rows, list)
    modifies db
    ensures ok <==> end.Completes? && NoLaterHolder(Merged(old(db.current), names, query, rows), list, PositionCode)
    ensures db.current == db.durable
         == if ok then Finished(old(db.current), names, query, rows, list) else old(db.durable)
  {
    if end.Raises? {
      db.Write(end.partial);
      db.Rollback();
      return false;
    }
    var _ := MergeSplynxInternal(db, names, query);
    var _ := MergeErpnextSplynx(db, rows);
    ok := RenumberCustomers(db, list);
    if !ok {
      return;
    }
    var _ := VerifyFks(db.current);
    if end.CommitFails? {
      db.Rollback();
      return false;
    }
    db.Commit();
  }

  // ---- What a stored run has done ----

  /** Namesakes in s: d a SPLYNX customer, c another one or an un-numbered ERPNext one. */
  predicate Namesakes(s: Store, c: Id, d: Id) {
    && c in s.customers && d in s.customers && c != d
    && s.customers[c].name == s.customers[d].name && IsSplynxCode(s.customers[d].code)
    && (IsSplynxCode(s.customers[c].code) || IsUnnumberedErpnext(s.customers[c].code))
  }

  /** Of no such namesakes both are left. */
  ghost predicate NamesSettled(s: Store, t: Store) {
    forall c, d :: Namesakes(s, c, d) ==> c !in t.customers || d !in t.customers
  }

  /** Customers keep everything but codes, and codes count the customers in creation order. */
  ghost predicate NumberedFrom(m: Store, t: Store, list: seq<Id>) {
    && t == m.(customers := t.customers) && t.customers.Keys == m.customers.Keys
    && IsCreationListing(m, list)
    && forall i :: 0 <= i < |list| ==> t.customers[list[i]] == m.customers[list[i]].(code := PositionCode(i))
  }

  /**
   End to end: after a stored run the integrity report is clean, every row is with a
   customer of the name it had, every name is settled, and the codes are CUST-00001
   onwards in creation order, no two alike.
   */
  lemma FinishedRunIsClean(s: Store, names: seq<string>, query: (Store, string) -> seq<Id>, rows: seq<CustomerMatch>, list: seq<Id>)
    requires FkIntact(s) && RunAnswers(s, names, query, rows, list)
    ensures var m, t := Merged(s, names, query, rows), Finished(s, names, query, rows, list);
      && MergedFrom(s, m) && NumberedFrom(m, t, list)
      && VerifyFks(t) == OrphanReport(0, 0, 0, 0)
      && NamesSettled(s, t)
      && (forall c, d :: c in t.customers && d in t.customers && t.customers[c].code == t.customers[d].code ==> c == d)
  {
    var m, t := Merged(s, names, query, rows), Finished(s, names, query, rows, list);
    Steps2And3(s, names, query, rows);
    RenumberedRows(m, list, PositionCode, |list|);
    RenumberedCodesDistinct(m, list);
    assert FkIntact(t);
    CleanIffIntact(t);
    SettledByMerging(s, m, t);
  }

  lemma SettledByMerging(s: Store, m: Store, t: Store)
    requires CustomersKept(s, m) && t.customers.Keys == m.customers.Keys
    requires (forall n :: OneMember(m, n)) && NoNamesakes(m.customers)
    ensures NamesSettled(s, t)
  {
    forall c, d | c in m.customers && d in m.customers && m.customers[c].name == m.customers[d].name
                  && IsSplynxCode(m.customers[d].code) && IsSplynxCode(m.customers[c].code)
      ensures c == d
    {
      assert OneMember(m, m.customers[c].name);
      assert c in Members(m, m.customers[c].name) && d in Members(m, m.customers[c].name);
    }
  }

  // ---- Running it again ----

  ghost predicate CreatedBefore(s: Store, a: Id, b: Id) {
    && a in s.customers && b in s.customers
    && (s.customers[a].created < s.customers[b].created
        || (s.customers[a].created == s.customers[b].created && a < b))
  }

  ghost predicate InCreationOrder(s: Store, xs: seq<Id>) {
    && (forall i :: 0 <= i < |xs| ==> xs[i] in s.customers)
    && forall i, j :: 0 <= i < j < |xs| ==> CreatedBefore(s, xs[i], xs[j])
  }

  /** There is one way to list a set of customers in creation order. */
  lemma {:induction false} CreationOrderUnique(s: Store, xs: seq<Id>, ys: seq<Id>)
    requires InCreationOrder(s, xs) && InCreationOrder(s, ys) && forall c :: c in xs <==> c in ys
    ensures xs == ys
    decreases |xs|
  {
    if xs == [] {
      SomethingListed(ys);
    } else {
      assert xs[0] in ys;
      assert ys[0] in xs;
      var j :| 0 <= j < |ys| && ys[j] == xs[0];
      var i :| 0 <= i < |xs| && xs[i] == ys[0];
      assert i == 0 || j == 0;
      assert xs[0] == ys[0];
      forall c ensures c in xs[1..] <==> c in ys[1..] {
        TailHasOthers(s, xs, c);
        TailHasOthers(s, ys, c);
      }
      CreationOrderUnique(s, xs[1..], ys[1..]);
    }
  }

  lemma TailHasOthers(s: Store, xs: seq<Id>, c: Id)
    requires xs != [] && InCreationOrder(s, xs)
    ensures c in xs[1..] <==> c in xs && c != xs[0]
  {
    forall i | 0 < i < |xs| ensures xs[i] != xs[0] {
      assert CreatedBefore(s, xs[0], xs[i]);
    }
    assert xs == [xs[0]] + xs[1..];
  }

  lemma ListingsAgree(s: Store, xs: seq<Id>, ys: seq<Id>)
    requires IsCreationListing(s, xs) && IsCreationListing(s, ys)
    ensures xs == ys
  {
    CreationOrderUnique(s, xs, ys);
  }

  /** Every customer is numbered by its place in creation order. */
  ghost predicate AllNumbered(t: Store, list: seq<Id>) {
    IsCreationListing(t, list) && forall i :: 0 <= i < |list| ==> t.customers[list[i]].code == PositionCode(i)
  }

  lemma NumberedIsNoSplynx(t: Store, list: seq<Id>, c: Id)
    requires AllNumbered(t, list) && c in t.customers
    ensures !IsSplynxCode(t.customers[c].code)
  {
    assert c in list;
    var i :| 0 <= i < |list| && list[i] == c;
    assert t.customers[c].code[0] == 'C';
  }

  /** Renumbering a numbered store hands everyone the code he has. */
  lemma {:induction false} RenumberedAgain(t: Store, list: seq<Id>, n: nat)
    requires AllNumbered(t, list) && n <= |list|
    ensures Renumbered(t, list, PositionCode, n) == t
  {
    if n > 0 {
      RenumberedAgain(t, list, n - 1);
      assert list[n - 1] in t.customers && t.customers[list[n - 1]].code == PositionCode(n - 1);
      NextRenumbered(t, list, PositionCode, n - 1);
      SameCode(t, list[n - 1], PositionCode(n - 1));
    }
  }

  lemma SameCode(t: Store, c: Id, code: string)
    requires c in t.customers && t.customers[c].code == code
    ensures WithCode(t, c, code) == t
  {
  }

  lemma NobodyBlocks(t: Store, list: seq<Id>)
    requires AllNumbered(t, list)
    ensures NoLaterHolder(t, list, PositionCode)
  {
    PositionCodeInjective();
    forall n: nat | n < |list| ensures NoneBlocksAfter(t.customers, list, n, PositionCode(n)) {
      forall j | n < j < |list| ensures !Blocks(t.customers, list[n], list[j], PositionCode(n)) {
        assert t.customers[list[j]].code == PositionCode(j);
      }
    }
  }

  /** A second run of the stored result finds nothing to merge, succeeds, and changes nothing. */
  lemma SecondCustomerRun(
    s: Store, names: seq<string>, query: (Store, string) -> seq<Id>, rows: seq<CustomerMatch>, list: seq<Id>,
    names2: seq<string>, rows2: seq<CustomerMatch>, list2: seq<Id>)
    requires FkIntact(s) && RunAnswers(s, names, query, rows, list)
    requires RunAnswers(Finished(s, names, query, rows, list), names2, query, rows2, list2)
    ensures var t := Finished(s, names, query, rows, list);
      && names2 == [] && rows2 == []
      && NoLaterHolder(Merged(t, names2, query, rows2), list2, PositionCode)
      && Finished(t, names2, query, rows2, list2) == t
  {
    FinishedIsNumbered(s, names, query, rows, list);
    NumberedRunChangesNothing(Finished(s, names, query, rows, list), list, names2, query, rows2, list2);
  }

  lemma FinishedIsNumbered(s: Store, names: seq<string>, query: (Store, string) -> seq<Id>, rows: seq<CustomerMatch>, list: seq<Id>)
    requires RunAnswers(s, names, query, rows, list)
    ensures AllNumbered(Finished(s, names, query, rows, list), list)
  {
    RenumberedIsNumbered(Merged(s, names, query, rows), list);
  }

  lemma RenumberedIsNumbered(m: Store, list: seq<Id>)
    requires IsCreationListing(m, list)
    ensures AllNumbered(Renumbered(m, list, PositionCode, |list|), list)
  {
    var t := Renumbered(m, list, PositionCode, |list|);
    RenumberedRows(m, list, PositionCode, |list|);
    forall c | c in t.customers ensures t.customers[c].created == m.customers[c].created {
      assert c in list;
      var i :| 0 <= i < |list| && list[i] == c;
    }
    SameCreation(m, t, list);
  }

  lemma SameCreation(m: Store, t: Store, list: seq<Id>)
    requires IsCreationListing(m, list) && t.customers.Keys == m.customers.Keys
    requires forall c :: c in t.customers ==> t.customers[c].created == m.customers[c].created
    ensures IsCreationListing(t, list)
  {
  }

  lemma NumberedRunChangesNothing(
    t: Store, list: seq<Id>, names: seq<string>, query: (Store, string) -> seq<Id>, rows: seq<CustomerMatch>, again: seq<Id>)
    requires AllNumbered(t, list) && RunAnswers(t, names, query, rows, again)
    ensures names == [] && rows == []
    ensures NoLaterHolder(Merged(t, names, query, rows), again, PositionCode)
    ensures Finished(t, names, query, rows, again) == t
  {
    NothingToMerge(t, list, names, query, rows);
    ListingsAgree(t, list, again);
    NobodyBlocks(t, list);
    RenumberedAgain(t, list, |list|);
  }

  lemma NothingToMerge(t: Store, list: seq<Id>, names: seq<string>, query: (Store, string) -> seq<Id>, rows: seq<CustomerMatch>)
    requires AllNumbered(t, list) && IsGroupListing(t, names) && IsMatchListing(MergeGroups(t, names, query), rows)
    ensures names == [] && rows == [] && Merged(t, names, query, rows) == t
  {
    forall n ensures Members(t, n) == {} {
      forall c | c in t.customers ensures !IsSplynxCode(t.customers[c].code) {
        NumberedIsNoSplynx(t, list, c);
      }
    }
    SomethingListed(names);
    forall row ensures !IsMatch(t, row) {
      if row.splynx in t.customers {
        NumberedIsNoSplynx(t, list, row.splynx);
      }
    }
    SomethingListed(rows);
  }
}
