/**
 Organisations under scripts/dedup_customers.py, whose steps 2 and 3 select
 customers by name alone: when does a merge leave a row with a customer of
 another organisation?
 */
module CustomerOrgs {
  import opened Basics
  import opened ErpStore
  import opened CustomerFks
  import opened DedupCustomers
  import opened CustomerMerges

  /** organization_id of the rows that refer to customers, a column no merge writes. */
  datatype Orgs = Orgs(
    invoice: Id -> Id, payment: Id -> Id, snapshot: Id -> Id, ref: ((RefTable, Id)) -> Id, sync: Id -> Id)

  /** Customer c exists and is of the given organisation. */
  predicate OfOrg(s: Store, c: Id, org: Id) {
    c in s.customers && s.customers[c].org == org
  }

  /** Every row is with a customer of its own organisation. */
  ghost predicate AtHome(s: Store, orgs: Orgs) {
    && (forall i :: i in s.invoices ==> OfOrg(s, s.invoices[i].customer, orgs.invoice(i)))
    && (forall p :: p in s.payments ==> OfOrg(s, s.payments[p].customer, orgs.payment(p)))
    && (forall k :: k in s.snapshots ==> OfOrg(s, s.snapshots[k].customer, orgs.snapshot(k)))
    && (forall k :: k in s.refs && s.refs[k].Some? ==> OfOrg(s, s.refs[k].value, orgs.ref(k)))
    && (forall k :: k in s.syncs && s.syncs[k].entity == CustomerEntity ==> OfOrg(s, s.syncs[k].localId, orgs.sync(k)))
  }

  // ---- Where the rows of a customer end up ----

  /** t has s's rows, those of customer c now with customer dest(c); aging rows may be gone. */
  ghost predicate MovedBy(s: Store, t: Store, dest: Id -> Id) {
    && t.invoices.Keys == s.invoices.Keys && t.payments.Keys == s.payments.Keys
    && t.refs.Keys == s.refs.Keys && t.syncs.Keys == s.syncs.Keys && t.snapshots.Keys <= s.snapshots.Keys
    && (forall i :: i in t.invoices ==> t.invoices[i].customer == dest(s.invoices[i].customer))
    && (forall p :: p in t.payments ==> t.payments[p].customer == dest(s.payments[p].customer))
    && (forall k :: k in t.snapshots ==> t.snapshots[k].customer == dest(s.snapshots[k].customer))
    && (forall k :: k in t.refs ==> t.refs[k] == match s.refs[k] case None => None case Some(c) => Some(dest(c)))
    && (forall k :: k in t.syncs ==> t.syncs[k].entity == s.syncs[k].entity)
    && (forall k :: k in t.syncs && t.syncs[k].entity == CustomerEntity ==> t.syncs[k].localId == dest(s.syncs[k].localId))
  }

  ghost predicate HasInvoice(s: Store, t: Store, c: Id) {
    exists i :: i in t.invoices && i in s.invoices && s.invoices[i].customer == c
  }

  ghost predicate HasPayment(s: Store, t: Store, c: Id) {
    exists p :: p in t.payments && p in s.payments && s.payments[p].customer == c
  }

  ghost predicate HasSnapshotRow(s: Store, t: Store, c: Id) {
    exists k :: k in t.snapshots && k in s.snapshots && s.snapshots[k].customer == c
  }

  ghost predicate HasRef(s: Store, t: Store, c: Id) {
    exists k :: k in t.refs && k in s.refs && s.refs[k] == Some(c)
  }

  ghost predicate HasSync(s: Store, t: Store, c: Id) {
    exists k :: k in t.syncs && k in s.syncs && s.syncs[k] == SyncRow(CustomerEntity, c)
  }

  /** Some row of t was with customer c in s. */
  ghost predicate HasRows(s: Store, t: Store, c: Id) {
    HasInvoice(s, t, c) || HasPayment(s, t, c) || HasSnapshotRow(s, t, c) || HasRef(s, t, c) || HasSync(s, t, c)
  }

  /** Customer c's rows go to a customer of c's organisation. */
  ghost predicate StaysInOrg(s: Store, t: Store, dest: Id -> Id, c: Id) {
    c in s.customers && OfOrg(t, dest(c), s.customers[c].org)
  }

  /**
   Rows at home stay at home exactly when every customer that has rows gives them
   to a customer of its own organisation.
   */
  lemma AtHomeIff(s: Store, t: Store, orgs: Orgs, dest: Id -> Id)
    requires AtHome(s, orgs) && MovedBy(s, t, dest)
    ensures AtHome(t, orgs) <==> forall c :: HasRows(s, t, c) ==> StaysInOrg(s, t, dest, c)
  {
    if AtHome(t, orgs) {
      forall c | HasRows(s, t, c) ensures StaysInOrg(s, t, dest, c) {
        HomeRowsStay(s, t, orgs, dest, c);
      }
    }
    if forall c :: HasRows(s, t, c) ==> StaysInOrg(s, t, dest, c) {
      StayingRowsAreHome(s, t, orgs, dest);
    }
  }

  lemma HomeInvoiceStays(s: Store, t: Store, orgs: Orgs, dest: Id -> Id, c: Id)
    requires AtHome(s, orgs) && MovedBy(s, t, dest) && AtHome(t, orgs) && HasInvoice(s, t, c)
    ensures StaysInOrg(s, t, dest, c)
  {
    var i :| i in t.invoices && i in s.invoices && s.invoices[i].customer == c;
    assert OfOrg(s, c, orgs.invoice(i)) && OfOrg(t, dest(c), orgs.invoice(i));
  }

  lemma HomePaymentStays(s: Store, t: Store, orgs: Orgs, dest: Id -> Id, c: Id)
    requires AtHome(s, orgs) && MovedBy(s, t, dest) && AtHome(t, orgs) && HasPayment(s, t, c)
    ensures StaysInOrg(s, t, dest, c)
  {
    var p :| p in t.payments && p in s.payments && s.payments[p].customer == c;
    assert OfOrg(s, c, orgs.payment(p)) && OfOrg(t, dest(c), orgs.payment(p));
  }

  lemma HomeSnapshotStays(s: Store, t: Store, orgs: Orgs, dest: Id -> Id, c: Id)
    requires AtHome(s, orgs) && MovedBy(s, t, dest) && AtHome(t, orgs) && HasSnapshotRow(s, t, c)
    ensures StaysInOrg(s, t, dest, c)
  {
    var k :| k in t.snapshots && k in s.snapshots && s.snapshots[k].customer == c;
    assert OfOrg(s, c, orgs.snapshot(k)) && OfOrg(t, dest(c), orgs.snapshot(k));
  }

  lemma HomeRefStays(s: Store, t: Store, orgs: Orgs, dest: Id -> Id, c: Id)
    requires AtHome(s, orgs) && MovedBy(s, t, dest) && AtHome(t, orgs) && HasRef(s, t, c)
    ensures StaysInOrg(s, t, dest, c)
  {
    var k :| k in t.refs && k in s.refs && s.refs[k] == Some(c);
    assert OfOrg(s, c, orgs.ref(k)) && OfOrg(t, dest(c), orgs.ref(k));
  }

  lemma HomeSyncStays(s: Store, t: Store, orgs: Orgs, dest: Id -> Id, c: Id)
    requires AtHome(s, orgs) && MovedBy(s, t, dest) && AtHome(t, orgs) && HasSync(s, t, c)
    ensures StaysInOrg(s, t, dest, c)
  {
    var k :| k in t.syncs && k in s.syncs && s.syncs[k] == SyncRow(CustomerEntity, c);
    assert OfOrg(s, c, orgs.sync(k)) && OfOrg(t, dest(c), orgs.sync(k));
  }

  lemma HomeRowsStay(s: Store, t: Store, orgs: Orgs, dest: Id -> Id, c: Id)
    requires AtHome(s, orgs) && MovedBy(s, t, dest) && AtHome(t, orgs) && HasRows(s, t, c)
    ensures StaysInOrg(s, t, dest, c)
  {
    if HasInvoice(s, t, c) {
      HomeInvoiceStays(s, t, orgs, dest, c);
    } else if HasPayment(s, t, c) {
      HomePaymentStays(s, t, orgs, dest, c);
    } else if HasSnapshotRow(s, t, c) {
      HomeSnapshotStays(s, t, orgs, dest, c);
    } else if HasRef(s, t, c) {
      HomeRefStays(s, t, orgs, dest, c);
    } else {
      HomeSyncStays(s, t, orgs, dest, c);
    }
  }

  lemma StayingRowsAreHome(s: Store, t: Store, orgs: Orgs, dest: Id -> Id)
    requires AtHome(s, orgs) && MovedBy(s, t, dest)
    requires forall c :: HasRows(s, t, c) ==> StaysInOrg(s, t, dest, c)
    ensures AtHome(t, orgs)
  {
    forall i | i in t.invoices ensures OfOrg(t, t.invoices[i].customer, orgs.invoice(i)) {
      assert OfOrg(s, s.invoices[i].customer, orgs.invoice(i));
      assert HasInvoice(s, t, s.invoices[i].customer) && HasRows(s, t, s.invoices[i].customer);
    }
    forall p | p in t.payments ensures OfOrg(t, t.payments[p].customer, orgs.payment(p)) {
      assert OfOrg(s, s.payments[p].customer, orgs.payment(p));
      assert HasPayment(s, t, s.payments[p].customer) && HasRows(s, t, s.payments[p].customer);
    }
    forall k | k in t.snapshots ensures OfOrg(t, t.snapshots[k].customer, orgs.snapshot(k)) {
      assert OfOrg(s, s.snapshots[k].customer, orgs.snapshot(k));
      assert HasSnapshotRow(s, t, s.snapshots[k].customer) && HasRows(s, t, s.snapshots[k].customer);
    }
    forall k | k in t.refs && t.refs[k].Some? ensures OfOrg(t, t.refs[k].value, orgs.ref(k)) {
      assert OfOrg(s, s.refs[k].value, orgs.ref(k));
      assert HasRef(s, t, s.refs[k].value) && HasRows(s, t, s.refs[k].value);
    }
    forall k | k in t.syncs && t.syncs[k].entity == CustomerEntity ensures OfOrg(t, t.syncs[k].localId, orgs.sync(k)) {
      assert OfOrg(s, s.syncs[k].localId, orgs.sync(k));
      assert s.syncs[k] == SyncRow(CustomerEntity, s.syncs[k].localId);
      assert HasSync(s, t, s.syncs[k].localId) && HasRows(s, t, s.syncs[k].localId);
    }
  }

  // ---- A list of merges ----

  function MergeDest(winner: Id, loser: Id): Id -> Id {
    (c: Id) => if c == loser then winner else c
  }

  lemma MergeMoves(s: Store, winner: Id, loser: Id)
    ensures MovedBy(s, Merge(s, winner, loser), MergeDest(winner, loser))
  {
    var t := Merge(s, winner, loser);
    forall k | k in t.refs
      ensures t.refs[k] == match s.refs[k] case None => None case Some(c) => Some(MergeDest(winner, loser)(c))
    {
      AllRefTablesListed(k.0);
    }
  }

  lemma NothingMoves(s: Store, f: Id -> Id)
    requires forall c :: f(c) == c
    ensures MovedBy(s, s, f)
  {
  }

  lemma MovesCompose(s: Store, t: Store, u: Store, f: Id -> Id, g: Id -> Id, both: Id -> Id)
    requires MovedBy(s, t, f) && MovedBy(t, u, g) && forall c :: both(c) == g(f(c))
    ensures MovedBy(s, u, both)
  {
    forall k | k in u.refs ensures u.refs[k] == match s.refs[k] case None => None case Some(c) => Some(both(c)) {
      assert t.refs[k] == match s.refs[k] case None => None case Some(c) => Some(f(c));
    }
  }

  /** Where a list of merges takes the rows of customer c. */
  function DestOf(ms: seq<MergeOf>, c: Id): Id
    decreases |ms|
  {
    if ms == [] then c else DestOf(ms[1..], MergeDest(ms[0].winner, ms[0].loser)(c))
  }

  function MergesDest(ms: seq<MergeOf>): Id -> Id {
    (c: Id) => DestOf(ms, c)
  }

  lemma {:induction false} MergeAllMoves(s: Store, ms: seq<MergeOf>)
    ensures MovedBy(s, MergeAll(s, ms), MergesDest(ms))
    decreases |ms|
  {
    if ms == [] {
      NothingMoves(s, MergesDest(ms));
    } else {
      var t := Merge(s, ms[0].winner, ms[0].loser);
      MergeMoves(s, ms[0].winner, ms[0].loser);
      MergeAllMoves(t, ms[1..]);
      MovesCompose(s, t, MergeAll(t, ms[1..]), MergeDest(ms[0].winner, ms[0].loser), MergesDest(ms[1..]), MergesDest(ms));
    }
  }

  lemma OneWayRest(ms: seq<MergeOf>)
    requires ms != [] && OneWay(ms)
    ensures OneWay(ms[1..]) && forall i :: 0 <= i < |ms[1..]| ==> ms[1..][i] == ms[i + 1]
  {
  }

  /** Who never loses keeps the rows. */
  lemma {:induction false} SurvivorsKeepRows(ms: seq<MergeOf>, c: Id)
    requires forall i :: 0 <= i < |ms| ==> ms[i].loser != c
    ensures DestOf(ms, c) == c
    decreases |ms|
  {
    if ms == [] {
    } else {
      SurvivorsKeepRows(ms[1..], c);
    }
  }

  /** A loser's rows end up with its own winner. */
  lemma {:induction false} LosersGiveToWinners(ms: seq<MergeOf>, k: nat)
    requires OneWay(ms) && k < |ms|
    ensures DestOf(ms, ms[k].loser) == ms[k].winner
    decreases |ms|
  {
    OneWayRest(ms);
    if k == 0 {
      SurvivorsKeepRows(ms[1..], ms[0].winner);
    } else {
      LosersGiveToWinners(ms[1..], k - 1);
    }
  }

  // ---- What a loser hands over ----

  /** No row but aging rows refers to the customer. */
  ghost predicate Bare(s: Store, c: Id) {
    && InvoiceRows(s.invoices, c) == {} && PaymentRows(s.payments, c) == {}
    && (forall r :: RefRows(s.refs, r, c) == {})
    && SyncRows(s.syncs, c) == {}
  }

  /** The winner of merge k, or a customer merged into it before, has the aging key. */
  ghost predicate KeyHeld(s: Store, ms: seq<MergeOf>, k: nat, key: (Id, string))
    requires k < |ms|
  {
    || key in BucketsOf(s, ms[k].winner)
    || exists j :: 0 <= j < k && ms[j].winner == ms[k].winner && key in BucketsOf(s, ms[j].loser)
  }

  ghost predicate KeysHeld(s: Store, ms: seq<MergeOf>, k: nat)
    requires k < |ms|
  {
    forall key :: key in BucketsOf(s, ms[k].loser) ==> KeyHeld(s, ms, k, key)
  }

  lemma BareIff(s: Store, t: Store, dest: Id -> Id, c: Id)
    requires MovedBy(s, t, dest)
    ensures HasInvoice(s, t, c) || HasPayment(s, t, c) || HasRef(s, t, c) || HasSync(s, t, c) <==> !Bare(s, c)
  {
    assert HasInvoice(s, t, c) <==> InvoiceRows(s.invoices, c) != {} by {
      assert forall i :: i in s.invoices && s.invoices[i].customer == c ==> i in InvoiceRows(s.invoices, c);
    }
    assert HasPayment(s, t, c) <==> PaymentRows(s.payments, c) != {} by {
      assert forall p :: p in s.payments && s.payments[p].customer == c ==> p in PaymentRows(s.payments, c);
    }
    assert HasSync(s, t, c) <==> SyncRows(s.syncs, c) != {} by {
      assert forall k :: k in s.syncs && s.syncs[k] == SyncRow(CustomerEntity, c) ==> k in SyncRows(s.syncs, c);
    }
    assert HasRef(s, t, c) <==> exists r :: RefRows(s.refs, r, c) != {} by {
      assert forall k :: k in s.refs && s.refs[k] == Some(c) ==> k in RefRows(s.refs, k.0, c);
    }
  }

  lemma {:induction false} SurvivorsKeepSnapshots(s: Store, ms: seq<MergeOf>, x: Id)
    requires x in s.snapshots && forall i :: 0 <= i < |ms| ==> ms[i].loser != s.snapshots[x].customer
    ensures x in MergeAll(s, ms).snapshots
    decreases |ms|
  {
    if ms == [] {
    } else {
      SurvivorsKeepSnapshots(Merge(s, ms[0].winner, ms[0].loser), ms[1..], x);
    }
  }

  lemma OthersKeepKeys(s: Store, winner: Id, loser: Id, c: Id)
    requires c != winner && c != loser
    ensures BucketsOf(Merge(s, winner, loser), c) == BucketsOf(s, c)
  {
    var t := Merge(s, winner, loser);
    forall k | k in s.snapshots && s.snapshots[k].customer == c ensures k in t.snapshots && t.snapshots[k] == s.snapshots[k] {}
    forall k | k in t.snapshots && t.snapshots[k].customer == c ensures k in s.snapshots && t.snapshots[k] == s.snapshots[k] {}
  }

  /** The first loser's aging rows that its winner lacks stay to the end. */
  lemma FirstKeysHandedOver(s: Store, ms: seq<MergeOf>)
    requires ms != [] && OneWay(ms)
    ensures HasSnapshotRow(s, MergeAll(s, ms), ms[0].loser) <==> !KeysHeld(s, ms, 0)
  {
    var w, l := ms[0].winner, ms[0].loser;
    var t := Merge(s, w, l);
    OneWayRest(ms);
    MergeAllMoves(t, ms[1..]);
    if !KeysHeld(s, ms, 0) {
      var key :| key in BucketsOf(s, l) && !KeyHeld(s, ms, 0, key);
      var x :| x in s.snapshots && s.snapshots[x].customer == l && key == (s.snapshots[x].period, s.snapshots[x].bucket);
      assert x in t.snapshots && t.snapshots[x].customer == w;
      SurvivorsKeepSnapshots(t, ms[1..], x);
    }
    if HasSnapshotRow(s, MergeAll(s, ms), l) {
      var x :| x in MergeAll(s, ms).snapshots && x in s.snapshots && s.snapshots[x].customer == l;
      assert x in t.snapshots;
      var key := (s.snapshots[x].period, s.snapshots[x].bucket);
      WinnerHasBucketIff(s, x, w);
      assert key in BucketsOf(s, l) && !KeyHeld(s, ms, 0, key);
    }
  }

  lemma WinnerHasBucketIff(s: Store, x: Id, winner: Id)
    requires x in s.snapshots
    ensures WinnerHasBucket(s.snapshots, s.snapshots[x], winner)
       <==> (s.snapshots[x].period, s.snapshots[x].bucket) in BucketsOf(s, winner)
  {
    var key := (s.snapshots[x].period, s.snapshots[x].bucket);
    if key in BucketsOf(s, winner) {
      var y :| y in s.snapshots && s.snapshots[y].customer == winner && key == (s.snapshots[y].period, s.snapshots[y].bucket);
      assert s.snapshots[y] == s.snapshots[x].(customer := winner);
    }
  }

  /** After the first merge the keys held for a later one are those held before it. */
  lemma KeysHeldAfterFirst(s: Store, ms: seq<MergeOf>, k: nat)
    requires OneWay(ms) && 0 < k < |ms|
    ensures KeysHeld(Merge(s, ms[0].winner, ms[0].loser), ms[1..], k - 1) <==> KeysHeld(s, ms, k)
  {
    var w, l, rest := ms[0].winner, ms[0].loser, ms[1..];
    var t := Merge(s, w, l);
    OneWayRest(ms);
    forall i | 0 < i < |ms| ensures BucketsOf(t, ms[i].loser) == BucketsOf(s, ms[i].loser) {
      OthersKeepKeys(s, w, l, ms[i].loser);
    }
    WinnerKeysAreUnion(s, w, l);
    if ms[k].winner != w {
      OthersKeepKeys(s, w, l, ms[k].winner);
    }
    forall key ensures KeyHeld(t, rest, k - 1, key) <==> KeyHeld(s, ms, k, key) {
      KeyHeldAfterFirst(s, ms, k, key);
    }
  }

  lemma KeyHeldAfterFirst(s: Store, ms: seq<MergeOf>, k: nat, key: (Id, string))
    requires OneWay(ms) && 0 < k < |ms|
    requires var t := Merge(s, ms[0].winner, ms[0].loser);
      && (forall i :: 0 < i < |ms| ==> BucketsOf(t, ms[i].loser) == BucketsOf(s, ms[i].loser))
      && BucketsOf(t, ms[0].winner) == BucketsOf(s, ms[0].winner) + BucketsOf(s, ms[0].loser)
      && (ms[k].winner != ms[0].winner ==> BucketsOf(t, ms[k].winner) == BucketsOf(s, ms[k].winner))
    ensures KeyHeld(Merge(s, ms[0].winner, ms[0].loser), ms[1..], k - 1, key) <==> KeyHeld(s, ms, k, key)
  {
    var t, rest := Merge(s, ms[0].winner, ms[0].loser), ms[1..];
    OneWayRest(ms);
    if j :| 0 <= j < k && ms[j].winner == ms[k].winner && key in BucketsOf(s, ms[j].loser) {
      if j > 0 { assert rest[j - 1] == ms[j] && key in BucketsOf(t, rest[j - 1].loser); }
      assert KeyHeld(t, rest, k - 1, key);
    }
    if j :| 0 <= j < k - 1 && rest[j].winner == rest[k - 1].winner && key in BucketsOf(t, rest[j].loser) {
      assert rest[j] == ms[j + 1] && key in BucketsOf(s, ms[j + 1].loser);
      assert KeyHeld(s, ms, k, key);
    }
  }

  lemma {:induction false} KeysHandedOver(s: Store, ms: seq<MergeOf>, k: nat)
    requires OneWay(ms) && k < |ms|
    ensures HasSnapshotRow(s, MergeAll(s, ms), ms[k].loser) <==> !KeysHeld(s, ms, k)
    decreases |ms|
  {
    if k == 0 {
      FirstKeysHandedOver(s, ms);
    } else {
      var t, u, c := Merge(s, ms[0].winner, ms[0].loser), MergeAll(s, ms), ms[k].loser;
      OneWayRest(ms);
      KeysHandedOver(t, ms[1..], k - 1);
      KeysHeldAfterFirst(s, ms, k);
      MergeAllMoves(t, ms[1..]);
      SameSnapshotOwner(s, ms[0].winner, ms[0].loser, u, c);
    }
  }

  lemma SameSnapshotOwner(s: Store, winner: Id, loser: Id, u: Store, c: Id)
    requires c != winner && c != loser && u.snapshots.Keys <= Merge(s, winner, loser).snapshots.Keys
    ensures HasSnapshotRow(s, u, c) <==> HasSnapshotRow(Merge(s, winner, loser), u, c)
  {
    var t := Merge(s, winner, loser);
    assert forall x :: x in u.snapshots ==> x in t.snapshots && x in s.snapshots;
    assert forall x :: x in t.snapshots ==> (t.snapshots[x].customer == c <==> s.snapshots[x].customer == c);
  }

  // ---- Exactly when merges keep every row at home ----

  /**
   Merge k, read off the store before the first one: it joins two customers of one
   organisation, or its loser has no rows but aging rows whose keys are all held by the
   winner or by customers merged into it before.
   */
  ghost predicate StaysHome(s: Store, ms: seq<MergeOf>, k: nat)
    requires k < |ms|
  {
    (Bare(s, ms[k].loser) && KeysHeld(s, ms, k)) || SameOrg(s, ms[k])
  }

  /** Every merge of the list keeps its loser's rows at home. */
  ghost predicate AllStayHome(s: Store, ms: seq<MergeOf>) {
    forall k: nat :: k < |ms| ==> StaysHome(s, ms, k)
  }

  predicate SameOrg(s: Store, m: MergeOf) {
    m.winner in s.customers && m.loser in s.customers && s.customers[m.winner].org == s.customers[m.loser].org
  }

  /** Any list of merges in which no winner ever loses. */
  lemma MergesStayHomeIff(s: Store, orgs: Orgs, ms: seq<MergeOf>)
    requires AtHome(s, orgs) && OneWay(ms) && AllExist(s, ms)
    ensures AtHome(MergeAll(s, ms), orgs) <==> AllStayHome(s, ms)
  {
    var t, dest := MergeAll(s, ms), MergesDest(ms);
    MergeAllMoves(s, ms);
    AtHomeIff(s, t, orgs, dest);
    forall k: nat | k < |ms|
      ensures (HasRows(s, t, ms[k].loser) ==> StaysInOrg(s, t, dest, ms[k].loser)) <==> StaysHome(s, ms, k)
    {
      LoserStaysIff(s, ms, k);
    }
    forall c | HasRows(s, t, c) && forall k :: 0 <= k < |ms| ==> ms[k].loser != c ensures StaysInOrg(s, t, dest, c) {
      RowsHaveCustomers(s, t, orgs, c);
      SurvivorStays(s, ms, c);
    }
  }

  lemma LoserStaysIff(s: Store, ms: seq<MergeOf>, k: nat)
    requires OneWay(ms) && AllExist(s, ms) && k < |ms|
    ensures var t, c := MergeAll(s, ms), ms[k].loser;
      (HasRows(s, t, c) ==> StaysInOrg(s, t, MergesDest(ms), c)) <==> StaysHome(s, ms, k)
  {
    LoserHandsOverIff(s, ms, k);
    LoserStaysInOrgIff(s, ms, k);
  }

  lemma LoserHandsOverIff(s: Store, ms: seq<MergeOf>, k: nat)
    requires OneWay(ms) && k < |ms|
    ensures HasRows(s, MergeAll(s, ms), ms[k].loser) <==> !(Bare(s, ms[k].loser) && KeysHeld(s, ms, k))
  {
    MergeAllMoves(s, ms);
    BareIff(s, MergeAll(s, ms), MergesDest(ms), ms[k].loser);
    KeysHandedOver(s, ms, k);
  }

  lemma LoserStaysInOrgIff(s: Store, ms: seq<MergeOf>, k: nat)
    requires OneWay(ms) && AllExist(s, ms) && k < |ms|
    ensures StaysInOrg(s, MergeAll(s, ms), MergesDest(ms), ms[k].loser) <==> SameOrg(s, ms[k])
  {
    LosersGiveToWinners(ms, k);
    MergeAllCustomers(s, ms);
    assert ms[k].winner !in LosersOf(ms);
  }

  lemma SurvivorStays(s: Store, ms: seq<MergeOf>, c: Id)
    requires c in s.customers && forall k :: 0 <= k < |ms| ==> ms[k].loser != c
    ensures StaysInOrg(s, MergeAll(s, ms), MergesDest(ms), c)
  {
    SurvivorsKeepRows(ms, c);
    MergeAllCustomers(s, ms);
  }

  lemma RowsHaveCustomers(s: Store, t: Store, orgs: Orgs, c: Id)
    requires AtHome(s, orgs) && HasRows(s, t, c)
    ensures c in s.customers
  {
  }

  /** One merge: the two customers share an organisation, or the loser has nothing the winner lacks. */
  lemma MergeStaysHomeIff(s: Store, orgs: Orgs, winner: Id, loser: Id)
    requires winner in s.customers && loser in s.customers && winner != loser && AtHome(s, orgs)
    ensures AtHome(Merge(s, winner, loser), orgs)
       <==> s.customers[winner].org == s.customers[loser].org
            || (Bare(s, loser) && BucketsOf(s, loser) <= BucketsOf(s, winner))
  {
    var ms := [MergeOf(winner, loser)];
    assert MergeAll(s, ms) == MergeAll(Merge(s, winner, loser), ms[1..]);
    MergesStayHomeIff(s, orgs, ms);
    assert KeysHeld(s, ms, 0) <==> BucketsOf(s, loser) <= BucketsOf(s, winner) by {
      assert forall key :: KeyHeld(s, ms, 0, key) <==> key in BucketsOf(s, winner);
    }
    assert AllStayHome(s, ms) <==> StaysHome(s, ms, 0);
  }

  lemma AlikeAtHome(s: Store, t: Store, orgs: Orgs)
    requires Alike(s, t)
    ensures AtHome(s, orgs) <==> AtHome(t, orgs)
  {
    assert forall c, org :: OfOrg(s, c, org) <==> OfOrg(t, c, org);
  }

  lemma AlikeStaysHomeIff(s: Store, t: Store, orgs: Orgs, ms: seq<MergeOf>)
    requires AtHome(s, orgs) && OneWay(ms) && AllExist(s, ms) && Alike(MergeAll(s, ms), t)
    ensures AtHome(t, orgs) <==> AllStayHome(s, ms)
  {
    MergesStayHomeIff(s, orgs, ms);
    AlikeAtHome(MergeAll(s, ms), t, orgs);
  }

  lemma Step2MergesExist(s: Store, names: seq<string>, query: (Store, string) -> seq<Id>)
    requires AnswersMembers(query) && NoRepeats(names)
    ensures AllExist(s, Step2Merges(s, names, query))
  {
    Step2OneWay(s, names, query);
    var ms := Step2Merges(s, names, query);
    forall k | 0 <= k < |ms| ensures ms[k].winner in s.customers && ms[k].loser in s.customers {
      assert InGroups(s, ms[k], names);
    }
  }

  /**
   Exactly when step 2 keeps every row inside its own organisation, whatever the
   queries answer: a condition on the store before the run for each merge.
   */
  lemma Step2StaysHomeIff(s: Store, orgs: Orgs, names: seq<string>, query: (Store, string) -> seq<Id>)
    requires AtHome(s, orgs) && AnswersMembers(query) && NoRepeats(names)
    ensures AtHome(MergeGroups(s, names, query), orgs) <==> AllStayHome(s, Step2Merges(s, names, query))
  {
    Step2OneWay(s, names, query);
    Step2MergesExist(s, names, query);
    MergeGroupsAlike(s, names, query);
    AlikeStaysHomeIff(s, MergeGroups(s, names, query), orgs, Step2Merges(s, names, query));
  }

  /** Exactly when steps 2 and 3 together do. */
  lemma Steps2And3StayHomeIff(s: Store, orgs: Orgs, names: seq<string>, query: (Store, string) -> seq<Id>, rows: seq<CustomerMatch>)
    requires AtHome(s, orgs) && AnswersMembers(query) && NoRepeats(names)
    requires IsMatchListing(MergeGroups(s, names, query), rows)
    ensures AtHome(MergeRows(MergeGroups(s, names, query), FirstMatches(rows)), orgs)
       <==> AllStayHome(s, RunMerges(s, names, query, rows))
  {
    RunOneWay(s, names, query, rows);
    RunAlike(s, names, query, rows);
    var t := MergeRows(MergeGroups(s, names, query), FirstMatches(rows));
    AlikeStaysHomeIff(s, t, orgs, RunMerges(s, names, query, rows));
  }

  // ---- A run that leaves an organisation ----

  /** However the database answers, step 2 merges the two and hands an invoice of one organisation to the other. */
  lemma MergeCanLeaveOrg(query: (Store, string) -> seq<Id>) returns (s: Store, orgs: Orgs)
    requires AnswersMembers(query)
    ensures FkIntact(s) && AtHome(s, orgs) && IsGroupListing(s, ["acme"])
    ensures !AtHome(MergeGroups(s, ["acme"], query), orgs)
  {
    s, orgs := TwoNamesakes(), TwoNamesakesOrgs();
    TwoNamesakesAtHome();
    OnlyAcme(s);
    TwoNamesakesLeave(s, orgs, query);
  }

  function TwoNamesakesOrgs(): Orgs {
    Orgs((i: Id) => if i == 2 then 6 else 5, (p: Id) => 5, (k: Id) => 5, (k: (RefTable, Id)) => 5, (k: Id) => 5)
  }

  lemma TwoNamesakesAtHome()
    ensures FkIntact(TwoNamesakes()) && AtHome(TwoNamesakes(), TwoNamesakesOrgs())
  {
  }

  lemma TwoNamesakesLeave(s: Store, orgs: Orgs, query: (Store, string) -> seq<Id>)
    requires s == TwoNamesakes() && AtHome(s, orgs) && AnswersMembers(query)
    ensures !AtHome(MergeGroups(s, ["acme"], query), orgs)
  {
    TwoNamesakesMerge(query);
    OneMergeLeaves(s);
    var names := ["acme"];
    var ms := Step2Merges(s, names, query);
    assert 0 < |ms| && !StaysHome(s, ms, 0);
    Step2StaysHomeIff(s, orgs, names, query);
  }

  lemma OneMergeLeaves(s: Store)
    requires s == TwoNamesakes()
    ensures !StaysHome(s, [MergeOf(0, 1)], 0)
  {
    assert 2 in InvoiceRows(s.invoices, 1);
  }

  /** Customers of one name are of one organisation. */
  ghost predicate NamesWithinOrgs(s: Store) {
    forall c, d :: c in s.customers && d in s.customers && s.customers[c].name == s.customers[d].name ==>
      s.customers[c].org == s.customers[d].org
  }

  lemma SameNameSameOrg(s: Store, t: Store, c: Id, d: Id)
    requires NamesWithinOrgs(s) && CustomersKept(s, t)
    requires c in s.customers && d in t.customers && t.customers[d].name == s.customers[c].name
    ensures OfOrg(t, d, s.customers[c].org)
  {
    assert d in s.customers && s.customers[d].name == s.customers[c].name;
  }

  /** When no name occurs in two organisations, merging namesakes keeps every row inside its own. */
  lemma NamesWithinOrgsSuffice(s: Store, t: Store, orgs: Orgs)
    requires FkIntact(s) && AtHome(s, orgs) && NamesWithinOrgs(s) && MergedFrom(s, t)
    ensures AtHome(t, orgs)
  {
    forall i | i in t.invoices ensures OfOrg(t, t.invoices[i].customer, orgs.invoice(i)) {
      assert OfOrg(s, s.invoices[i].customer, orgs.invoice(i));
      SameNameSameOrg(s, t, s.invoices[i].customer, t.invoices[i].customer);
    }
    forall p | p in t.payments ensures OfOrg(t, t.payments[p].customer, orgs.payment(p)) {
      assert OfOrg(s, s.payments[p].customer, orgs.payment(p));
      SameNameSameOrg(s, t, s.payments[p].customer, t.payments[p].customer);
    }
    forall k | k in t.snapshots ensures OfOrg(t, t.snapshots[k].customer, orgs.snapshot(k)) {
      assert OfOrg(s, s.snapshots[k].customer, orgs.snapshot(k));
      SameNameSameOrg(s, t, s.snapshots[k].customer, t.snapshots[k].customer);
    }
    forall k | k in t.refs && t.refs[k].Some? ensures OfOrg(t, t.refs[k].value, orgs.ref(k)) {
      assert OfOrg(s, s.refs[k].value, orgs.ref(k));
      SameNameSameOrg(s, t, s.refs[k].value, t.refs[k].value);
    }
    forall k | k in t.syncs && t.syncs[k].entity == CustomerEntity ensures OfOrg(t, t.syncs[k].localId, orgs.sync(k)) {
      assert OfOrg(s, s.syncs[k].localId, orgs.sync(k));
      SameNameSameOrg(s, t, s.syncs[k].localId, t.syncs[k].localId);
    }
  }
}
