/** scripts/dedup_customers.py: merge same-name customers, then renumber the survivors. */
module DedupCustomers {
  import opened Basics
  import opened Sessions
  import opened ErpStore
  import opened CustomerFks
  import opened CustomerCodes
  import opened JoinedIds

  const SPLYNX_PREFIX := "SPLYNX-"
  const CUST_PREFIX := "CUST-"

  predicate IsSplynxCode(code: string) {
    SPLYNX_PREFIX <= code
  }

  predicate IsUnnumberedErpnext(code: string) {
    !(SPLYNX_PREFIX <= code) && !(CUST_PREFIX <= code)
  }

  // ---- Step 2: one SPLYNX customer per name ----

  function Members(s: Store, name: string): set<Id> {
    set c | c in s.customers && s.customers[c].name == name && IsSplynxCode(s.customers[c].code)
  }

  function InvoiceCount(s: Store, c: Id): nat {
    |InvoiceRows(s.invoices, c)|
  }

  predicate TextLessEq(a: string, b: string) {
    a == "" || (b != "" && (a[0] < b[0] || (a[0] == b[0] && TextLessEq(a[1..], b[1..]))))
  }

  /** ORDER BY inv_count DESC, splynx_id ASC NULLS LAST */
  predicate ListedBefore(s: Store, a: Id, b: Id)
    requires a in s.customers && b in s.customers
  {
    InvoiceCount(s, a) > InvoiceCount(s, b)
    || (InvoiceCount(s, a) == InvoiceCount(s, b)
        && (s.customers[b].splynxId.None?
            || (s.customers[a].splynxId.Some? && TextLessEq(s.customers[a].splynxId.value, s.customers[b].splynxId.value))))
  }

  /** An answer the database may give for the members of one name group. */
  ghost predicate IsMemberListing(s: Store, name: string, ms: seq<Id>) {
    && NoRepeats(ms)
    && (forall c :: c in Members(s, name) ==> c in ms)
    && (forall i :: 0 <= i < |ms| ==> ms[i] in Members(s, name))
    && (forall i, j :: 0 <= i < j < |ms| ==> ListedBefore(s, ms[i], ms[j]))
  }

  /** A database answers every member query, breaking ties as it likes. */
  ghost predicate AnswersMembers(query: (Store, string) -> seq<Id>) {
    forall s, name :: IsMemberListing(s, name, query(s, name))
  }

  /** An answer to the GROUP BY .. HAVING count(*) > 1 query. */
  ghost predicate IsGroupListing(s: Store, names: seq<string>) {
    && NoRepeats(names)
    && (forall n :: n in names <==> |Members(s, n)| > 1)
    && (forall i, j :: 0 <= i < j < |names| ==> |Members(s, names[i])| >= |Members(s, names[j])|)
  }

  function MergeLosers(s: Store, winner: Id, losers: seq<Id>): Store
    decreases |losers|
  {
    if losers == [] then s else MergeLosers(Merge(s, winner, losers[0]), winner, losers[1..])
  }

  /** The non-empty splynx ids of the group, without repetition, in listing order. */
  function SplynxIds(customers: map<Id, Customer>, ms: seq<Id>): seq<string>
    decreases |ms|
  {
    if ms == [] then []
    else
      var rest := SplynxIds(customers, ms[..|ms| - 1]);
      var last := ms[|ms| - 1];
      if last in customers && customers[last].splynxId.Some?
         && customers[last].splynxId.value != "" && customers[last].splynxId.value !in rest
      then rest + [customers[last].splynxId.value] else rest
  }

  /** They are the group's non-empty ids, each once. */
  lemma {:induction false} SplynxIdsExactly(customers: map<Id, Customer>, ms: seq<Id>)
    ensures NoRepeats(SplynxIds(customers, ms))
    ensures forall id :: id in SplynxIds(customers, ms) <==>
      id != "" && exists c :: c in ms && c in customers && customers[c].splynxId == Some(id)
    decreases |ms|
  {
    if ms == [] {
    } else {
      var n := |ms| - 1;
      SplynxIdsExactly(customers, ms[..n]);
      assert ms == ms[..n] + [ms[n]];
      assert forall c :: c in ms <==> c in ms[..n] || c == ms[n];
    }
  }

  function SetSplynxId(s: Store, c: Id, ids: seq<string>): Store {
    if |ids| > 1 && c in s.customers
    then s.(customers := s.customers[c := s.customers[c].(splynxId := Some(Truncated(Joined(ids))))])
    else s
  }

  /** What one pass of the loop over groups does. */
  function MergeGroup(s: Store, ms: seq<Id>): Store {
    if |ms| < 2 then s
    else SetSplynxId(MergeLosers(s, ms[0], ms[1..]), ms[0], SplynxIds(s.customers, ms))
  }

  function MergeGroups(s: Store, names: seq<string>, query: (Store, string) -> seq<Id>): Store
    decreases |names|
  {
    if names == [] then s
    else MergeGroups(MergeGroup(s, query(s, names[0])), names[1..], query)
  }

  method MergeGroupMembers(db: Session<Store>, stats: MergeStats, ms: seq<Id>)
    requires |ms| >= 2
    modifies db`current, stats`fkUpdates, stats`syncUpdates, stats`customersDeleted
    ensures db.current == MergeGroup(old(db.current), ms)
    ensures stats.customersDeleted == old(stats.customersDeleted) + |ms| - 1
  {
    ghost var s := db.current;
    var ids := SplynxIds(db.current.customers, ms);
    for i := 1 to |ms|
      invariant MergeLosers(db.current, ms[0], ms[i..]) == MergeLosers(s, ms[0], ms[1..])
      invariant stats.customersDeleted == old(stats.customersDeleted) + i - 1
    {
      ReassignCustomerFks(db, stats, ms[0], ms[i], false);
      db.Write(db.current.(customers := DropCustomer(db.current.customers, ms[i])));
      stats.customersDeleted := stats.customersDeleted + 1;
      assert ms[i..][1..] == ms[i + 1..];
    }
    db.Write(SetSplynxId(db.current, ms[0], ids));
  }

  /** step2_merge_splynx_internal_dupes */
  method MergeSplynxInternal(db: Session<Store>, names: seq<string>, query: (Store, string) -> seq<Id>)
    returns (stats: MergeStats)
    requires AnswersMembers(query)
    requires IsGroupListing(db.current, names)
    modifies db`current
    ensures db.current == MergeGroups(old(db.current), names, query)
  {
    ghost var s := db.current;
    stats := new MergeStats();
    for i := 0 to |names|
      invariant fresh(stats)
      invariant MergeGroups(db.current, names[i..], query) == MergeGroups(s, names, query)
    {
      var ms := query(db.current, names[i]);
      assert names[i..][1..] == names[i + 1..];
      if |ms| >= 2 {
        MergeGroupMembers(db, stats, ms);
      }
    }
  }

  ghost predicate SameNameLosers(s: Store, winner: Id, losers: seq<Id>) {
    && winner in s.customers && winner !in losers && NoRepeats(losers)
    && forall i :: 0 <= i < |losers| ==>
         losers[i] in s.customers && s.customers[losers[i]].name == s.customers[winner].name
  }

  lemma {:induction false} MergeLosersCustomers(s: Store, winner: Id, losers: seq<Id>)
    ensures MergeLosers(s, winner, losers).customers == DropCustomers(s.customers, set c | c in losers)
    decreases |losers|
  {
    if losers == [] {
      assert DropCustomers(s.customers, {}) == s.customers;
    } else {
      MergeLosersCustomers(Merge(s, winner, losers[0]), winner, losers[1..]);
      DropTwice(s.customers, {losers[0]}, set c | c in losers[1..]);
      assert (set c | c in losers) == {losers[0]} + (set c | c in losers[1..]);
    }
  }

  lemma {:induction false} MergeLosersKeeps(s: Store, winner: Id, losers: seq<Id>)
    requires FkIntact(s) && SameNameLosers(s, winner, losers)
    ensures MergedFrom(s, MergeLosers(s, winner, losers))
    decreases |losers|
  {
    if losers == [] {
    } else {
      assert losers[0] in losers;
      MergeKeepsIntegrity(s, winner, losers[0]);
      var s1 := Merge(s, winner, losers[0]);
      RemainingLosers(s, winner, losers);
      MergeLosersKeeps(s1, winner, losers[1..]);
      MergedFromTransitive(s, s1, MergeLosers(s1, winner, losers[1..]));
    }
  }

  lemma RemainingLosers(s: Store, winner: Id, losers: seq<Id>)
    requires losers != [] && SameNameLosers(s, winner, losers)
    ensures SameNameLosers(Merge(s, winner, losers[0]), winner, losers[1..])
  {
    assert losers[0] in losers;
    assert Merge(s, winner, losers[0]).customers == DropCustomer(s.customers, losers[0]);
    forall i | 0 <= i < |losers[1..]| ensures losers[1..][i] == losers[i + 1] {}
  }

  /** The winner's Splynx id can be read for each of the group's ids. */
  ghost predicate IdsKept(stored: Option<string>, ids: seq<string>) {
    forall id :: id in ids ==> stored.Some? && id in Split(stored.value)
  }

  lemma MergedSplynxId(s: Store, ms: seq<Id>)
    requires NoRepeats(ms) && |ms| >= 2 && ms[0] in s.customers
    ensures ms[0] in MergeGroup(s, ms).customers
    ensures var ids := SplynxIds(s.customers, ms);
      MergeGroup(s, ms).customers[ms[0]].splynxId
      == if |ids| > 1 then Some(Truncated(Joined(ids))) else s.customers[ms[0]].splynxId
  {
    MergeLosersCustomers(s, ms[0], ms[1..]);
    forall i | 0 <= i < |ms[1..]| ensures ms[1..][i] != ms[0] {
      assert ms[1..][i] == ms[i + 1];
    }
  }

  /** With several ids the winner gets the whole join iff it has at most 100 characters. */
  lemma WholeJoinIff(s: Store, ms: seq<Id>)
    requires NoRepeats(ms) && |ms| >= 2 && ms[0] in s.customers && |SplynxIds(s.customers, ms)| > 1
    ensures ms[0] in MergeGroup(s, ms).customers
    ensures MergeGroup(s, ms).customers[ms[0]].splynxId == Some(Joined(SplynxIds(s.customers, ms)))
       <==> |Joined(SplynxIds(s.customers, ms))| <= 100
    ensures |Joined(SplynxIds(s.customers, ms))| > 100 ==>
      MergeGroup(s, ms).customers[ms[0]].splynxId == Some(Joined(SplynxIds(s.customers, ms))[..100])
  {
    MergedSplynxId(s, ms);
  }

  /**
   Exactly when a group merge loses no Splynx id.  Several ids: their join fits.  A
   single one: it is the winner's own, for it is not copied from a loser.
   */
  lemma IdsKeptIff(s: Store, ms: seq<Id>)
    requires NoRepeats(ms) && |ms| >= 2 && ms[0] in s.customers
    requires forall id :: id in SplynxIds(s.customers, ms) ==> CommaFree(id)
    ensures ms[0] in MergeGroup(s, ms).customers
    ensures var ids := SplynxIds(s.customers, ms);
      IdsKept(MergeGroup(s, ms).customers[ms[0]].splynxId, ids)
      <==> if |ids| > 1 then |Joined(ids)| <= SPLYNX_ID_MAX
           else ids == [] || s.customers[ms[0]].splynxId == Some(ids[0])
  {
    var ids := SplynxIds(s.customers, ms);
    MergedSplynxId(s, ms);
    SplynxIdsExactly(s.customers, ms);
    if |ids| > 1 {
      TruncatedReadableIff(ids);
      assert ids[0] in ids;
    } else if |ids| == 1 {
      OneIdKeptIff(s, ms, ids[0]);
    }
  }

  lemma OneIdKeptIff(s: Store, ms: seq<Id>, id: string)
    requires |ms| >= 2 && ms[0] in s.customers
    requires SplynxIds(s.customers, ms) == [id] && CommaFree(id)
    ensures IdsKept(s.customers[ms[0]].splynxId, [id]) <==> s.customers[ms[0]].splynxId == Some(id)
  {
    SplynxIdsExactly(s.customers, ms);
    var own := s.customers[ms[0]].splynxId;
    assert id in [id] && id != "";
    SplitFirst(id, "");
    if own.Some? && own.value != "" {
      assert ms[0] in ms && own.value in SplynxIds(s.customers, ms);
      assert own.value == id;
    }
  }

  /** A winner without an id does not take over the one id of its loser. */
  lemma LoneIdIsLost() returns (s: Store, ms: seq<Id>)
    ensures IsMemberListing(s, "acme", ms) && ms == [0, 1] && 0 in MergeGroup(s, ms).customers
    ensures s.customers[1].splynxId == Some("7") && MergeGroup(s, ms).customers[0].splynxId == None
  {
    var a := Customer(5, "SPLYNX-1", "acme", None, None, 1, None);
    var b := Customer(5, "SPLYNX-2", "acme", Some("7"), None, 2, None);
    var x := Invoice(0, 100, 0, 0, 0, InvoiceStatus.Posted, None, None, None, None);
    s := Store(map[0 := a, 1 := b], map[], map[0 := x], map[], map[], map[], map[], {}, map[], map[], map[]);
    ms := [0, 1];
    assert InvoiceRows(s.invoices, 0) == {0} && InvoiceRows(s.invoices, 1) == {};
    assert Members(s, "acme") == {0, 1};
    assert ms[..1] == [0] && ms[..2] == ms && ms[..1][..0] == [];
    assert SplynxIds(s.customers, []) == [];
    assert SplynxIds(s.customers, [0]) == [];
    assert SplynxIds(s.customers, ms) == ["7"];
    MergedSplynxId(s, ms);
  }

  ghost predicate OneMember(s: Store, name: string) {
    forall a, b :: a in Members(s, name) && b in Members(s, name) ==> a == b
  }

  /** The group collapses to its first member; every other group is untouched. */
  lemma MergeGroupMembersAfter(s: Store, name: string, ms: seq<Id>)
    requires IsMemberListing(s, name, ms)
    ensures OneMember(MergeGroup(s, ms), name)
    ensures forall other :: other != name ==> Members(MergeGroup(s, ms), other) == Members(s, other)
  {
    var t := MergeGroup(s, ms);
    MergeGroupCustomers(s, ms);
    forall a, b | a in Members(t, name) && b in Members(t, name) ensures a == b {
      assert a in Members(s, name) && b in Members(s, name);
      assert a in ms && b in ms;
    }
    forall other | other != name ensures Members(t, other) == Members(s, other) {
      forall c | c in Members(s, other) ensures c !in ms {}
    }
  }

  lemma TailElements(ms: seq<Id>, c: Id)
    requires ms != [] && NoRepeats(ms)
    ensures c in ms[1..] <==> c in ms && c != ms[0]
  {
    assert ms == [ms[0]] + ms[1..];
    forall i | 0 <= i < |ms[1..]| ensures ms[1..][i] != ms[0] {
      assert ms[1..][i] == ms[i + 1];
    }
  }

  lemma SetSplynxIdNames(s: Store, c: Id, ids: seq<string>)
    ensures SetSplynxId(s, c, ids).customers.Keys == s.customers.Keys
    ensures forall d :: d in s.customers ==>
      SetSplynxId(s, c, ids).customers[d] == s.customers[d].(splynxId := SetSplynxId(s, c, ids).customers[d].splynxId)
  {
  }

  /** Of the listed customers only the first is left, and no name or code changes. */
  lemma MergeGroupCustomers(s: Store, ms: seq<Id>)
    requires NoRepeats(ms)
    ensures var t := MergeGroup(s, ms);
      && (forall c :: c in t.customers <==> c in s.customers && (c !in ms || c == ms[0]))
      && (forall c :: c in t.customers ==> t.customers[c].name == s.customers[c].name && t.customers[c].code == s.customers[c].code)
  {
    if |ms| >= 2 {
      var gone := set c | c in ms[1..];
      MergeLosersCustomers(s, ms[0], ms[1..]);
      SetSplynxIdNames(MergeLosers(s, ms[0], ms[1..]), ms[0], SplynxIds(s.customers, ms));
      forall c ensures c in gone <==> c in ms && c != ms[0] {
        TailElements(ms, c);
      }
    } else if |ms| == 1 {
      assert forall c :: c in ms ==> c == ms[0];
    }
  }

  lemma ListedShareName(s: Store, name: string, ms: seq<Id>)
    requires IsMemberListing(s, name, ms) && |ms| >= 2
    ensures SameNameLosers(s, ms[0], ms[1..])
  {
    assert ms[0] in Members(s, name);
    forall i | 0 <= i < |ms[1..]| ensures ms[1..][i] in Members(s, name) {
      assert ms[1..][i] == ms[i + 1];
    }
  }

  lemma MergeGroupKeeps(s: Store, ms: seq<Id>)
    requires FkIntact(s) && (|ms| >= 2 ==> SameNameLosers(s, ms[0], ms[1..]))
    ensures MergedFrom(s, MergeGroup(s, ms))
  {
    if |ms| >= 2 {
      MergeLosersKeeps(s, ms[0], ms[1..]);
      var s1 := MergeLosers(s, ms[0], ms[1..]);
      SetSplynxIdKeeps(s1, ms[0], SplynxIds(s.customers, ms));
      MergedFromTransitive(s, s1, MergeGroup(s, ms));
    }
  }

  lemma SetOneIdKeeps(s: Store, c: Id, id: Option<string>)
    requires FkIntact(s) && c in s.customers
    ensures MergedFrom(s, s.(customers := s.customers[c := s.customers[c].(splynxId := id)]))
  {
    SameNamesKeepIntegrity(s, s.customers[c := s.customers[c].(splynxId := id)]);
  }

  lemma MergedFromReflexive(s: Store)
    requires FkIntact(s)
    ensures MergedFrom(s, s)
  {
  }

  lemma SetSplynxIdKeeps(s: Store, c: Id, ids: seq<string>)
    requires FkIntact(s)
    ensures MergedFrom(s, SetSplynxId(s, c, ids))
  {
    if |ids| > 1 && c in s.customers {
      SetOneIdKeeps(s, c, Some(Truncated(Joined(ids))));
    } else {
      MergedFromReflexive(s);
    }
  }

  lemma {:induction false} MergeGroupsKeeps(s: Store, names: seq<string>, query: (Store, string) -> seq<Id>)
    requires FkIntact(s) && AnswersMembers(query)
    requires forall n :: n !in names ==> OneMember(s, n)
    ensures MergedFrom(s, MergeGroups(s, names, query))
    ensures forall n :: OneMember(MergeGroups(s, names, query), n)
    decreases |names|
  {
    if names == [] {
    } else {
      var ms := query(s, names[0]);
      assert IsMemberListing(s, names[0], ms);
      if |ms| >= 2 {
        ListedShareName(s, names[0], ms);
      }
      MergeGroupKeeps(s, ms);
      MergeGroupMembersAfter(s, names[0], ms);
      var s1 := MergeGroup(s, ms);
      forall n | n !in names[1..] ensures OneMember(s1, n) {
        if n != names[0] {
          assert n !in names;
          assert OneMember(s, n);
        }
      }
      MergeGroupsKeeps(s1, names[1..], query);
      MergedFromTransitive(s, s1, MergeGroups(s1, names[1..], query));
    }
  }

  lemma SmallSetIsOne<T>(xs: set<T>, a: T, b: T)
    requires |xs| <= 1 && a in xs && b in xs
    ensures a == b
  {
    assert |{a, b}| <= |xs| by {
      assert xs == {a, b} + (xs - {a, b});
      assert |xs| == |{a, b}| + |xs - {a, b}|;
    }
  }

  /**
   Step 2, however the database orders groups and breaks ties: integrity is kept
   and no two SPLYNX customers are left with one name.
   */
  lemma Step2LeavesOnePerName(s: Store, names: seq<string>, query: (Store, string) -> seq<Id>)
    requires FkIntact(s) && AnswersMembers(query) && IsGroupListing(s, names)
    ensures MergedFrom(s, MergeGroups(s, names, query))
    ensures forall n :: OneMember(MergeGroups(s, names, query), n)
  {
    forall n | n !in names ensures OneMember(s, n) {
      forall a, b | a in Members(s, n) && b in Members(s, n) ensures a == b {
        SmallSetIsOne(Members(s, n), a, b);
      }
    }
    MergeGroupsKeeps(s, names, query);
  }

  // ---- Step 3: ERPNext customers into their SPLYNX namesakes ----

  ghost predicate IsMatch(s: Store, row: CustomerMatch) {
    && row.erp in s.customers && row.splynx in s.customers
    && s.customers[row.erp].name == s.customers[row.splynx].name
    && IsSplynxCode(s.customers[row.splynx].code)
    && IsUnnumberedErpnext(s.customers[row.erp].code)
    && row.erpnextId == s.customers[row.erp].erpnextId
  }

  /** An answer to the name join, in any order. */
  ghost predicate IsMatchListing(s: Store, rows: seq<CustomerMatch>) {
    NoRepeats(rows) && forall row :: row in rows <==> IsMatch(s, row)
  }

  /** The first row of each ERPNext customer, in order of first appearance. */
  function FirstMatches(rows: seq<CustomerMatch>): seq<CustomerMatch>
    decreases |rows|
  {
    if rows == [] then []
    else
      var init, last := FirstMatches(rows[..|rows| - 1]), rows[|rows| - 1];
      if exists i :: 0 <= i < |init| && init[i].erp == last.erp then init else init + [last]
  }

  /** The dictionary of the loop, as its keys in insertion order and each key's first row. */
  method GroupByErpnext(rows: seq<CustomerMatch>) returns (keys: seq<Id>, first: map<Id, CustomerMatch>)
    ensures forall k :: k in keys <==> k in first
    ensures |keys| == |FirstMatches(rows)|
    ensures forall i :: 0 <= i < |keys| ==> keys[i] in first && first[keys[i]] == FirstMatches(rows)[i]
  {
    keys, first := [], map[];
    for n := 0 to |rows|
      invariant forall k :: k in keys <==> k in first
      invariant |keys| == |FirstMatches(rows[..n])|
      invariant forall i :: 0 <= i < |keys| ==>
        keys[i] in first && first[keys[i]] == FirstMatches(rows[..n])[i] && first[keys[i]].erp == keys[i]
    {
      assert rows[..n + 1][..n] == rows[..n];
      ghost var init := FirstMatches(rows[..n]);
      if rows[n].erp in first {
        assert exists i :: 0 <= i < |init| && init[i].erp == rows[n].erp by {
          var i :| 0 <= i < |keys| && keys[i] == rows[n].erp;
          assert init[i].erp == rows[n].erp;
        }
      } else {
        forall i | 0 <= i < |init| ensures init[i].erp != rows[n].erp {
          assert keys[i] in first;
        }
        keys := keys + [rows[n].erp];
        first := first[rows[n].erp := rows[n]];
      }
    }
    assert rows[..|rows|] == rows;
  }

  /** step3_merge_erpnext_splynx_dupes */
  method MergeErpnextSplynx(db: Session<Store>, rows: seq<CustomerMatch>) returns (stats: MergeStats)
    requires IsMatchListing(db.current, rows)
    modifies db`current
    ensures db.current == MergeRows(old(db.current), FirstMatches(rows))
    ensures fresh(stats) && stats.customersDeleted == |FirstMatches(rows)|
  {
    ghost var s := db.current;
    stats := new MergeStats();
    var keys, first := GroupByErpnext(rows);
    ghost var firsts := FirstMatches(rows);
    for i := 0 to |keys|
      invariant fresh(stats) && stats.customersDeleted == i
      invariant MergeRows(db.current, firsts[i..]) == MergeRows(s, firsts)
    {
      assert firsts[i..][1..] == firsts[i + 1..];
      MergeOneRow(db, stats, first[keys[i]]);
    }
  }

  lemma {:induction false} FirstMatchesErp(rows: seq<CustomerMatch>)
    ensures forall row :: row in FirstMatches(rows) ==> row in rows
    ensures forall row :: row in rows ==> row.erp in Losers(FirstMatches(rows))
    decreases |rows|
  {
    if rows == [] {
    } else {
      var n := |rows| - 1;
      var init, firsts := FirstMatches(rows[..n]), FirstMatches(rows);
      FirstMatchesErp(rows[..n]);
      assert rows == rows[..n] + [rows[n]];
      assert forall i :: 0 <= i < |init| ==> init[i] == firsts[i];
      forall row | row in rows ensures row.erp in Losers(firsts) {
        if row in rows[..n] {
          var i :| 0 <= i < |init| && init[i].erp == row.erp;
          assert firsts[i].erp == row.erp;
        } else if |firsts| == |init| {
          var i :| 0 <= i < |init| && init[i].erp == row.erp;
          assert firsts[i].erp == row.erp;
        } else {
          assert firsts[|init|].erp == row.erp;
        }
      }
    }
  }

  /**
   Step 3, for any row order: integrity is kept and no un-numbered ERPNext
   customer shares the name of a SPLYNX customer any more.
   */
  lemma Step3LeavesNoNamesakes(s: Store, rows: seq<CustomerMatch>)
    requires FkIntact(s) && IsMatchListing(s, rows)
    ensures MergedFrom(s, MergeRows(s, FirstMatches(rows)))
    ensures forall n :: Members(MergeRows(s, FirstMatches(rows)), n) == Members(s, n)
    ensures NoNamesakes(MergeRows(s, FirstMatches(rows)).customers)
  {
    FirstMatchesMergeable(s, rows);
    var t := MergeRows(s, FirstMatches(rows));
    MergeRowsKeepIntegrity(s, FirstMatches(rows));
    MergeRowsDelete(s, FirstMatches(rows));
    Step3Survivors(s, t, Losers(FirstMatches(rows)));
  }

  lemma FirstMatchesMergeable(s: Store, rows: seq<CustomerMatch>)
    requires IsMatchListing(s, rows)
    ensures MergeableRows(s, FirstMatches(rows))
    ensures forall c :: c in Losers(FirstMatches(rows)) <==> exists x :: HasNamesake(s, c, x)
  {
    var firsts := FirstMatches(rows);
    FirstMatchesErp(rows);
    forall i | 0 <= i < |firsts| ensures IsMatch(s, firsts[i]) && HasNamesake(s, firsts[i].erp, firsts[i].splynx) {
      assert firsts[i] in rows;
    }
    forall e, x | HasNamesake(s, e, x) ensures e in Losers(firsts) {
      var row := CustomerMatch(e, s.customers[e].erpnextId, x);
      assert IsMatch(s, row);
      assert row in rows;
    }
  }

  ghost predicate HasNamesake(s: Store, e: Id, x: Id) {
    && e in s.customers && x in s.customers
    && IsUnnumberedErpnext(s.customers[e].code) && IsSplynxCode(s.customers[x].code)
    && s.customers[e].name == s.customers[x].name
  }

  lemma Step3Survivors(s: Store, t: Store, gone: set<Id>)
    requires CustomersKept(s, t) && t.customers.Keys == s.customers.Keys - gone
    requires forall c :: c in gone <==> exists x :: HasNamesake(s, c, x)
    ensures forall n :: Members(t, n) == Members(s, n)
    ensures NoNamesakes(t.customers)
  {
    forall e, x | HasNamesake(s, e, x) ensures e !in t.customers {
      assert e in gone;
    }
    forall c | c in s.customers && IsSplynxCode(s.customers[c].code) ensures c !in gone {}
    forall e, x | e in t.customers && x in t.customers && IsUnnumberedErpnext(t.customers[e].code)
                  && IsSplynxCode(t.customers[x].code)
      ensures t.customers[e].name != t.customers[x].name
    {
      assert !HasNamesake(s, e, x);
    }
  }

  ghost predicate NoNamesakes(customers: map<Id, Customer>) {
    forall e, x ::
      e in customers && x in customers && IsUnnumberedErpnext(customers[e].code) && IsSplynxCode(customers[x].code)
      ==> customers[e].name != customers[x].name
  }

  /**
   Steps 2 and 3 in sequence: every row keeps a live customer of its own name,
   each name has at most one SPLYNX customer, and none of them has an
   un-numbered ERPNext namesake.
   */
  lemma Steps2And3(s: Store, names: seq<string>, query: (Store, string) -> seq<Id>, rows: seq<CustomerMatch>)
    requires FkIntact(s) && AnswersMembers(query) && IsGroupListing(s, names)
    requires IsMatchListing(MergeGroups(s, names, query), rows)
    ensures MergedFrom(s, MergeRows(MergeGroups(s, names, query), FirstMatches(rows)))
    ensures forall n :: OneMember(MergeRows(MergeGroups(s, names, query), FirstMatches(rows)), n)
    ensures NoNamesakes(MergeRows(MergeGroups(s, names, query), FirstMatches(rows)).customers)
  {
    var s2 := MergeGroups(s, names, query);
    Step2LeavesOnePerName(s, names, query);
    Step3LeavesNoNamesakes(s2, rows);
    MergedFromTransitive(s, s2, MergeRows(s2, FirstMatches(rows)));
    forall n ensures OneMember(MergeRows(s2, FirstMatches(rows)), n) {
      assert OneMember(s2, n);
    }
  }

  // ---- Step 5: renumber ----

  /** ORDER BY created_at, customer_id over every customer. */
  ghost predicate IsCreationListing(s: Store, list: seq<Id>) {
    && NoRepeats(list)
    && (forall c :: c in s.customers ==> c in list)
    && (forall i :: 0 <= i < |list| ==> list[i] in s.customers)
    && (forall i, j :: 0 <= i < j < |list| ==>
          s.customers[list[i]].created < s.customers[list[j]].created
          || (s.customers[list[i]].created == s.customers[list[j]].created && list[i] < list[j]))
  }

  /** uq_customer_code, per organisation: the code is free for customer c. */
  predicate CodeFree(customers: map<Id, Customer>, c: Id, code: string)
    requires c in customers
  {
    forall d :: d in customers && customers[d].org == customers[c].org && customers[d].code == code ==> d == c
  }

  function WithCode(s: Store, c: Id, code: string): Store {
    if c in s.customers then s.(customers := s.customers[c := s.customers[c].(code := code)]) else s
  }

  /** The first n customers of the list renumbered; position i gets code(i). */
  ghost function Renumbered(s: Store, list: seq<Id>, code: nat -> string, n: nat): Store
    requires n <= |list|
  {
    if n == 0 then s
    else
      WithCode(Renumbered(s, list, code, n - 1), list[n - 1], code(n - 1))
  }

  /** Customer b is of a's organisation and holds the given code. */
  predicate Blocks(customers: map<Id, Customer>, a: Id, b: Id, code: string) {
    a in customers && b in customers && customers[b].org == customers[a].org && customers[b].code == code
  }

  /** No customer after position n blocks the code that position n is given. */
  ghost predicate NoneBlocksAfter(customers: map<Id, Customer>, list: seq<Id>, n: nat, code: string)
    requires n < |list|
  {
    forall j :: n < j < |list| ==> !Blocks(customers, list[n], list[j], code)
  }

  /** No customer still waiting its turn blocks a code being handed out. */
  ghost predicate NoLaterHolder(s: Store, list: seq<Id>, code: nat -> string) {
    forall n: nat :: n < |list| ==> NoneBlocksAfter(s.customers, list, n, code(n))
  }

  ghost predicate Injective(code: nat -> string) {
    forall i: nat, j: nat :: code(i) == code(j) ==> i == j
  }

  lemma WithCodeFrame(s: Store, t: Store, c: Id, code: string)
    requires t == s.(customers := t.customers) && t.customers.Keys == s.customers.Keys
    ensures WithCode(t, c, code) == s.(customers := WithCode(t, c, code).customers)
    ensures WithCode(t, c, code).customers.Keys == s.customers.Keys
  {
  }

  lemma {:induction false} RenumberedFrame(s: Store, list: seq<Id>, code: nat -> string, n: nat)
    requires n <= |list|
    ensures Renumbered(s, list, code, n) == s.(customers := Renumbered(s, list, code, n).customers)
    ensures Renumbered(s, list, code, n).customers.Keys == s.customers.Keys
  {
    if n > 0 {
      RenumberedFrame(s, list, code, n - 1);
      WithCodeFrame(s, Renumbered(s, list, code, n - 1), list[n - 1], code(n - 1));
    }
  }

  lemma {:induction false} RenumberedAt(s: Store, list: seq<Id>, code: nat -> string, n: nat, i: nat)
    requires n <= |list| && i < |list| && NoRepeats(list) && list[i] in s.customers
    ensures list[i] in Renumbered(s, list, code, n).customers
    ensures Renumbered(s, list, code, n).customers[list[i]]
         == if i < n then s.customers[list[i]].(code := code(i)) else s.customers[list[i]]
  {
    if n > 0 {
      RenumberedAt(s, list, code, n - 1, i);
    }
  }

  lemma RenumberedRows(s: Store, list: seq<Id>, code: nat -> string, n: nat)
    requires n <= |list| && NoRepeats(list) && forall i :: 0 <= i < |list| ==> list[i] in s.customers
    ensures Renumbered(s, list, code, n) == s.(customers := Renumbered(s, list, code, n).customers)
    ensures Renumbered(s, list, code, n).customers.Keys == s.customers.Keys
    ensures forall i :: 0 <= i < n ==>
      Renumbered(s, list, code, n).customers[list[i]] == s.customers[list[i]].(code := code(i))
    ensures forall i :: n <= i < |list| ==>
      Renumbered(s, list, code, n).customers[list[i]] == s.customers[list[i]]
  {
    RenumberedFrame(s, list, code, n);
    forall i | 0 <= i < |list|
      ensures Renumbered(s, list, code, n).customers[list[i]]
           == if i < n then s.customers[list[i]].(code := code(i)) else s.customers[list[i]]
    {
      RenumberedAt(s, list, code, n, i);
    }
  }

  lemma NextCodeFreeIff(s: Store, now: map<Id, Customer>, list: seq<Id>, code: nat -> string, n: nat)
    requires n < |list| && IsCreationListing(s, list) && Injective(code) && now.Keys == s.customers.Keys
    requires forall i :: 0 <= i < n ==> now[list[i]].code == code(i)
    requires forall i :: n <= i < |list| ==> now[list[i]] == s.customers[list[i]]
    ensures CodeFree(now, list[n], code(n)) <==> NoneBlocksAfter(s.customers, list, n, code(n))
  {
    forall d | d in now && now[d].code == code(n)
      ensures exists j :: n <= j < |list| && list[j] == d
    {
      var k :| 0 <= k < |list| && list[k] == d;
    }
  }

  /** Handing out the next code violates uq_customer_code iff a later customer of the same organisation holds it. */
  lemma CodeFreeIff(s: Store, list: seq<Id>, code: nat -> string, n: nat)
    requires n < |list| && IsCreationListing(s, list) && Injective(code)
    ensures list[n] in Renumbered(s, list, code, n).customers
    ensures CodeFree(Renumbered(s, list, code, n).customers, list[n], code(n))
       <==> NoneBlocksAfter(s.customers, list, n, code(n))
  {
    RenumberedRows(s, list, code, n);
    NextCodeFreeIff(s, Renumbered(s, list, code, n).customers, list, code, n);
  }

  lemma NextRenumbered(s: Store, list: seq<Id>, code: nat -> string, n: nat)
    requires n < |list| && list[n] in Renumbered(s, list, code, n).customers
    ensures Renumbered(s, list, code, n + 1) == WithCode(Renumbered(s, list, code, n), list[n], code(n))
  {
  }

  /**
   step5_renumber_customers.  A violated unique constraint reaches main, which
   rolls the whole run back.
   */
  method RenumberWith(db: Session<Store>, list: seq<Id>, code: nat -> string) returns (ok: bool)
    requires IsCreationListing(db.current, list) && Injective(code)
    modifies db
    ensures ok <==> NoLaterHolder(old(db.current), list, code)
    ensures ok ==> db.current == Renumbered(old(db.current), list, code, |list|) && db.durable == old(db.durable)
    ensures !ok ==> db.current == db.durable == old(db.durable)
  {
    ghost var s := db.current;
    for n := 0 to |list|
      invariant db.current == Renumbered(s, list, code, n) && db.durable == old(db.durable)
      invariant forall i: nat :: i < n ==> NoneBlocksAfter(s.customers, list, i, code(i))
    {
      CodeFreeIff(s, list, code, n);
      if !CodeFree(db.current.customers, list[n], code(n)) {
        db.Rollback();
        return false;
      }
      NextRenumbered(s, list, code, n);
      db.Write(WithCode(db.current, list[n], code(n)));
    }
    return true;
  }

  /** Positions count from 0 and codes from 1. */
  function PositionCode(i: nat): string {
    CustCode(i + 1)
  }

  lemma PositionCodeInjective()
    ensures Injective(PositionCode)
  {
    forall i: nat, j: nat | PositionCode(i) == PositionCode(j) ensures i == j {
      CustCodeInjective(i + 1, j + 1);
    }
  }

  method RenumberCustomers(db: Session<Store>, list: seq<Id>) returns (ok: bool)
    requires IsCreationListing(db.current, list)
    modifies db
    ensures ok <==> NoLaterHolder(old(db.current), list, PositionCode)
    ensures ok ==> db.current == Renumbered(old(db.current), list, PositionCode, |list|) && db.durable == old(db.durable)
    ensures !ok ==> db.current == db.durable == old(db.durable)
  {
    PositionCodeInjective();
    ok := RenumberWith(db, list, PositionCode);
  }

  /** After renumbering, codes are pairwise distinct and follow creation order. */
  lemma RenumberedCodesDistinct(s: Store, list: seq<Id>)
    requires IsCreationListing(s, list)
    ensures var t := Renumbered(s, list, PositionCode, |list|);
      && t.customers.Keys == s.customers.Keys
      && (forall i :: 0 <= i < |list| ==> list[i] in t.customers && t.customers[list[i]].code == PositionCode(i))
      && (forall c, d :: c in t.customers && d in t.customers && t.customers[c].code == t.customers[d].code ==> c == d)
  {
    PositionCodeInjective();
    RenumberedDistinct(s, list, PositionCode);
  }

  lemma SameCodeSamePlace(customers: map<Id, Customer>, list: seq<Id>, code: nat -> string, c: Id, d: Id)
    requires Injective(code) && c in list && d in list
    requires forall i :: 0 <= i < |list| ==> list[i] in customers && customers[list[i]].code == code(i)
    requires customers[c].code == customers[d].code
    ensures c == d
  {
    var i :| 0 <= i < |list| && list[i] == c;
    var j :| 0 <= j < |list| && list[j] == d;
  }

  lemma RenumberedDistinct(s: Store, list: seq<Id>, code: nat -> string)
    requires IsCreationListing(s, list) && Injective(code)
    ensures var t := Renumbered(s, list, code, |list|);
      && t.customers.Keys == s.customers.Keys
      && (forall i :: 0 <= i < |list| ==> list[i] in t.customers && t.customers[list[i]].code == code(i))
      && (forall c, d :: c in t.customers && d in t.customers && t.customers[c].code == t.customers[d].code ==> c == d)
  {
    var t := Renumbered(s, list, code, |list|);
    RenumberedRows(s, list, code, |list|);
    forall i | 0 <= i < |list| ensures list[i] in t.customers {
      assert list[i] in s.customers;
    }
    forall c, d | c in t.customers && d in t.customers && t.customers[c].code == t.customers[d].code
      ensures c == d
    {
      SameCodeSamePlace(t.customers, list, code, c, d);
    }
  }

  /** Renumbering can fail: a customer of the organisation created later may already hold CUST-00001. */
  lemma RenumberCanFail() returns (s: Store, list: seq<Id>)
    ensures IsCreationListing(s, list) && !NoLaterHolder(s, list, PositionCode)
  {
    var a := Customer(5, "SPLYNX-7", "acme", None, None, 1, None);
    var b := Customer(5, PositionCode(0), "binta", None, None, 2, None);
    s := Store(map[0 := a, 1 := b], map[], map[], map[], map[], map[], map[], {}, map[], map[], map[]);
    list := [0, 1];
    var first: nat := 0;
    assert s.customers[list[1]].code == PositionCode(first);
  }
}
