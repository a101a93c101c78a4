/**
 Steps 2 and 3 of scripts/dedup_customers.py as one list of merges, in the order
 in which the loops perform them.
 */
module CustomerMerges {
  import opened Basics
  import opened ErpStore
  import opened CustomerFks
  import opened DedupCustomers
  import opened JoinedIds

  datatype MergeOf = MergeOf(winner: Id, loser: Id)

  function MergeAll(s: Store, ms: seq<MergeOf>): Store
    decreases |ms|
  {
    if ms == [] then s else MergeAll(Merge(s, ms[0].winner, ms[0].loser), ms[1..])
  }

  ghost function LosersOf(ms: seq<MergeOf>): set<Id> {
    set i | 0 <= i < |ms| :: ms[i].loser
  }

  /** No winner is ever a loser, and nobody loses twice. */
  ghost predicate OneWay(ms: seq<MergeOf>) {
    && (forall i, j :: 0 <= i < |ms| && 0 <= j < |ms| ==> ms[i].loser != ms[j].winner)
    && (forall i, j :: 0 <= i < j < |ms| ==> ms[i].loser != ms[j].loser)
  }

  lemma {:induction false} MergeAllAppend(s: Store, xs: seq<MergeOf>, ys: seq<MergeOf>)
    ensures MergeAll(s, xs + ys) == MergeAll(MergeAll(s, xs), ys)
    decreases |xs|
  {
    if xs == [] {
      assert xs + ys == ys;
    } else {
      assert (xs + ys)[1..] == xs[1..] + ys;
      MergeAllAppend(Merge(s, xs[0].winner, xs[0].loser), xs[1..], ys);
    }
  }

  lemma LosersOfSplit(ms: seq<MergeOf>)
    requires ms != []
    ensures LosersOf(ms) == {ms[0].loser} + LosersOf(ms[1..])
  {
    forall c | c in LosersOf(ms) ensures c in {ms[0].loser} + LosersOf(ms[1..]) {
      var i :| 0 <= i < |ms| && ms[i].loser == c;
      if i > 0 { assert ms[1..][i - 1].loser == c; }
    }
    forall c | c in LosersOf(ms[1..]) ensures c in LosersOf(ms) {
      var i :| 0 <= i < |ms[1..]| && ms[1..][i].loser == c;
      assert ms[i + 1].loser == c;
    }
  }

  /** The customers left, and what ON DELETE SET NULL makes of their parents. */
  lemma {:induction false} MergeAllCustomers(s: Store, ms: seq<MergeOf>)
    ensures MergeAll(s, ms).customers == DropCustomers(s.customers, LosersOf(ms))
    decreases |ms|
  {
    if ms == [] {
      assert DropCustomers(s.customers, {}) == s.customers;
      assert LosersOf(ms) == {};
    } else {
      MergeAllCustomers(Merge(s, ms[0].winner, ms[0].loser), ms[1..]);
      DropTwice(s.customers, {ms[0].loser}, LosersOf(ms[1..]));
      LosersOfSplit(ms);
    }
  }

  // ---- The merges of the two steps ----

  function LoserMerges(winner: Id, losers: seq<Id>): (ms: seq<MergeOf>)
    ensures |ms| == |losers|
    ensures forall i :: 0 <= i < |ms| ==> ms[i] == MergeOf(winner, losers[i])
    decreases |losers|
  {
    if losers == [] then [] else [MergeOf(winner, losers[0])] + LoserMerges(winner, losers[1..])
  }

  function GroupMerges(ms: seq<Id>): seq<MergeOf> {
    if |ms| < 2 then [] else LoserMerges(ms[0], ms[1..])
  }

  function Step2Merges(s: Store, names: seq<string>, query: (Store, string) -> seq<Id>): seq<MergeOf>
    decreases |names|
  {
    if names == [] then []
    else
      var ms := query(s, names[0]);
      GroupMerges(ms) + Step2Merges(MergeGroup(s, ms), names[1..], query)
  }

  function RowMerges(rows: seq<CustomerMatch>): (ms: seq<MergeOf>)
    ensures |ms| == |rows|
    ensures forall i :: 0 <= i < |ms| ==> ms[i] == MergeOf(rows[i].splynx, rows[i].erp)
    decreases |rows|
  {
    if rows == [] then [] else [MergeOf(rows[0].splynx, rows[0].erp)] + RowMerges(rows[1..])
  }

  /** All merges of a run of steps 2 and 3. */
  function RunMerges(s: Store, names: seq<string>, query: (Store, string) -> seq<Id>, rows: seq<CustomerMatch>): seq<MergeOf> {
    Step2Merges(s, names, query) + RowMerges(FirstMatches(rows))
  }

  /** Only ids of other systems on customers differ. */
  ghost predicate Alike(s: Store, t: Store) {
    && t == s.(customers := t.customers) && t.customers.Keys == s.customers.Keys
    && forall c :: c in s.customers ==>
         t.customers[c] == s.customers[c].(splynxId := t.customers[c].splynxId, erpnextId := t.customers[c].erpnextId)
  }

  lemma AlikeMerge(s: Store, t: Store, winner: Id, loser: Id)
    requires Alike(s, t)
    ensures Alike(Merge(s, winner, loser), Merge(t, winner, loser))
  {
  }

  lemma {:induction false} AlikeMergeAll(s: Store, t: Store, ms: seq<MergeOf>)
    requires Alike(s, t)
    ensures Alike(MergeAll(s, ms), MergeAll(t, ms))
    decreases |ms|
  {
    if ms == [] {
    } else {
      AlikeMerge(s, t, ms[0].winner, ms[0].loser);
      AlikeMergeAll(Merge(s, ms[0].winner, ms[0].loser), Merge(t, ms[0].winner, ms[0].loser), ms[1..]);
    }
  }

  lemma AlikeTransitive(s: Store, t: Store, u: Store)
    requires Alike(s, t) && Alike(t, u)
    ensures Alike(s, u)
  {
  }

  lemma {:induction false} MergeLosersIsMergeAll(s: Store, winner: Id, losers: seq<Id>)
    ensures MergeLosers(s, winner, losers) == MergeAll(s, LoserMerges(winner, losers))
    decreases |losers|
  {
    if losers == [] {
    } else {
      assert LoserMerges(winner, losers)[1..] == LoserMerges(winner, losers[1..]);
      MergeLosersIsMergeAll(Merge(s, winner, losers[0]), winner, losers[1..]);
    }
  }

  lemma OneIdAlike(s: Store, c: Id, id: Option<string>)
    requires c in s.customers
    ensures Alike(s, s.(customers := s.customers[c := s.customers[c].(splynxId := id)]))
  {
  }

  lemma SetSplynxIdAlike(s: Store, c: Id, ids: seq<string>)
    ensures Alike(s, SetSplynxId(s, c, ids))
  {
    if |ids| > 1 && c in s.customers {
      OneIdAlike(s, c, Some(Truncated(Joined(ids))));
    }
  }

  lemma MergeGroupAlike(s: Store, ms: seq<Id>)
    ensures Alike(MergeAll(s, GroupMerges(ms)), MergeGroup(s, ms))
  {
    if |ms| >= 2 {
      MergeLosersIsMergeAll(s, ms[0], ms[1..]);
      SetSplynxIdAlike(MergeLosers(s, ms[0], ms[1..]), ms[0], SplynxIds(s.customers, ms));
    }
  }

  lemma {:induction false} MergeGroupsAlike(s: Store, names: seq<string>, query: (Store, string) -> seq<Id>)
    ensures Alike(MergeAll(s, Step2Merges(s, names, query)), MergeGroups(s, names, query))
    decreases |names|
  {
    if names == [] {
    } else {
      var ms := query(s, names[0]);
      var t := MergeGroup(s, ms);
      var rest := Step2Merges(t, names[1..], query);
      MergeGroupAlike(s, ms);
      AlikeMergeAll(MergeAll(s, GroupMerges(ms)), t, rest);
      MergeAllAppend(s, GroupMerges(ms), rest);
      MergeGroupsAlike(t, names[1..], query);
      AlikeTransitive(MergeAll(s, GroupMerges(ms) + rest), MergeAll(t, rest), MergeGroups(s, names, query));
    }
  }

  lemma LinkAndMergeAlike(s: Store, row: CustomerMatch)
    ensures Alike(Merge(s, row.splynx, row.erp), LinkAndMerge(s, row))
  {
    AlikeMerge(s, s.(customers := LinkCustomer(s.customers, row)), row.splynx, row.erp);
  }

  lemma {:induction false} MergeRowsAlike(s: Store, rows: seq<CustomerMatch>)
    ensures Alike(MergeAll(s, RowMerges(rows)), MergeRows(s, rows))
    decreases |rows|
  {
    if rows == [] {
    } else {
      var t := LinkAndMerge(s, rows[0]);
      assert RowMerges(rows)[1..] == RowMerges(rows[1..]);
      LinkAndMergeAlike(s, rows[0]);
      AlikeMergeAll(Merge(s, rows[0].splynx, rows[0].erp), t, RowMerges(rows[1..]));
      MergeRowsAlike(t, rows[1..]);
      AlikeTransitive(MergeAll(s, RowMerges(rows)), MergeAll(t, RowMerges(rows[1..])), MergeRows(s, rows));
    }
  }

  /** Steps 2 and 3 do these merges and otherwise write ids of other systems only. */
  lemma RunAlike(s: Store, names: seq<string>, query: (Store, string) -> seq<Id>, rows: seq<CustomerMatch>)
    ensures Alike(MergeAll(s, RunMerges(s, names, query, rows)), MergeRows(MergeGroups(s, names, query), FirstMatches(rows)))
  {
    var t, firsts := MergeGroups(s, names, query), FirstMatches(rows);
    MergeGroupsAlike(s, names, query);
    MergeAllAppend(s, Step2Merges(s, names, query), RowMerges(firsts));
    AlikeMergeAll(MergeAll(s, Step2Merges(s, names, query)), t, RowMerges(firsts));
    MergeRowsAlike(t, firsts);
    AlikeTransitive(MergeAll(s, RunMerges(s, names, query, rows)), MergeAll(t, RowMerges(firsts)), MergeRows(t, firsts));
  }

  // ---- No winner ever loses ----

  /** Both customers are SPLYNX customers of the given name. */
  predicate InGroup(s: Store, m: MergeOf, name: string) {
    m.winner in Members(s, name) && m.loser in Members(s, name)
  }

  ghost predicate InGroups(s: Store, m: MergeOf, names: seq<string>) {
    exists n :: n in names && InGroup(s, m, n)
  }

  lemma GroupMergesOneWay(s: Store, name: string, ms: seq<Id>)
    requires IsMemberListing(s, name, ms)
    ensures OneWay(GroupMerges(ms))
    ensures forall i :: 0 <= i < |GroupMerges(ms)| ==> InGroup(s, GroupMerges(ms)[i], name)
  {
    if |ms| >= 2 {
      assert forall i :: 0 <= i < |ms[1..]| ==> ms[1..][i] == ms[i + 1];
    }
  }

  lemma OneWayAppend(xs: seq<MergeOf>, ys: seq<MergeOf>)
    requires OneWay(xs) && OneWay(ys)
    requires forall i, j :: 0 <= i < |xs| && 0 <= j < |ys| ==>
      xs[i].loser != ys[j].winner && xs[i].winner != ys[j].loser && xs[i].loser != ys[j].loser
    ensures OneWay(xs + ys)
  {
  }

  lemma {:induction false} Step2OneWay(s: Store, names: seq<string>, query: (Store, string) -> seq<Id>)
    requires AnswersMembers(query) && NoRepeats(names)
    ensures OneWay(Step2Merges(s, names, query))
    ensures forall i :: 0 <= i < |Step2Merges(s, names, query)| ==> InGroups(s, Step2Merges(s, names, query)[i], names)
    decreases |names|
  {
    if names == [] {
    } else {
      var ms := query(s, names[0]);
      var t, own := MergeGroup(s, ms), GroupMerges(ms);
      var rest := Step2Merges(t, names[1..], query);
      assert IsMemberListing(s, names[0], ms);
      GroupMergesOneWay(s, names[0], ms);
      MergeGroupMembersAfter(s, names[0], ms);
      Step2OneWay(t, names[1..], query);
      forall j | 0 <= j < |rest|
        ensures InGroups(s, rest[j], names)
        ensures rest[j].winner !in Members(s, names[0]) && rest[j].loser !in Members(s, names[0])
      {
        assert InGroups(t, rest[j], names[1..]);
        var n :| n in names[1..] && InGroup(t, rest[j], n);
        assert n in names && InGroup(s, rest[j], n);
      }
      forall i | 0 <= i < |own| ensures InGroups(s, own[i], names) {
        assert names[0] in names && InGroup(s, own[i], names[0]);
      }
      OneWayAppend(own, rest);
    }
  }

  lemma {:induction false} FirstMatchesDiffer(rows: seq<CustomerMatch>)
    ensures forall i, j :: 0 <= i < j < |FirstMatches(rows)| ==> FirstMatches(rows)[i].erp != FirstMatches(rows)[j].erp
    decreases |rows|
  {
    if rows == [] {
    } else {
      FirstMatchesDiffer(rows[..|rows| - 1]);
    }
  }

  lemma RowMergesOneWay(s: Store, rows: seq<CustomerMatch>)
    requires IsMatchListing(s, rows)
    ensures OneWay(RowMerges(FirstMatches(rows)))
    ensures forall i :: 0 <= i < |FirstMatches(rows)| ==> IsMatch(s, FirstMatches(rows)[i])
  {
    FirstMatchesErp(rows);
    FirstMatchesDiffer(rows);
    forall i | 0 <= i < |FirstMatches(rows)| ensures IsMatch(s, FirstMatches(rows)[i]) {
      assert FirstMatches(rows)[i] in rows;
    }
  }

  ghost predicate AllExist(s: Store, ms: seq<MergeOf>) {
    forall i :: 0 <= i < |ms| ==> ms[i].winner in s.customers && ms[i].loser in s.customers
  }

  /** What step 2 leaves of each customer's existence and code. */
  lemma CodesAfterStep2(s: Store, names: seq<string>, query: (Store, string) -> seq<Id>)
    ensures var t := MergeGroups(s, names, query);
      && t.customers.Keys == s.customers.Keys - LosersOf(Step2Merges(s, names, query))
      && forall c :: c in t.customers ==> t.customers[c].code == s.customers[c].code && t.customers[c].name == s.customers[c].name
  {
    var ms := Step2Merges(s, names, query);
    MergeAllCustomers(s, ms);
    MergeGroupsAlike(s, names, query);
    var t := MergeGroups(s, names, query);
    assert t.customers.Keys == DropCustomers(s.customers, LosersOf(ms)).Keys;
  }

  lemma Step2MergesAreSplynx(s: Store, names: seq<string>, query: (Store, string) -> seq<Id>, i: nat)
    requires AnswersMembers(query) && NoRepeats(names) && i < |Step2Merges(s, names, query)|
    ensures var m := Step2Merges(s, names, query)[i];
      && m.winner in s.customers && IsSplynxCode(s.customers[m.winner].code)
      && m.loser in s.customers && IsSplynxCode(s.customers[m.loser].code)
  {
    Step2OneWay(s, names, query);
    assert InGroups(s, Step2Merges(s, names, query)[i], names);
  }

  lemma Step3MergesAreMatches(s: Store, names: seq<string>, query: (Store, string) -> seq<Id>, rows: seq<CustomerMatch>, j: nat)
    requires IsMatchListing(MergeGroups(s, names, query), rows) && j < |RowMerges(FirstMatches(rows))|
    ensures var m := RowMerges(FirstMatches(rows))[j];
      && m.winner in s.customers && m.winner !in LosersOf(Step2Merges(s, names, query))
      && m.loser in s.customers && IsUnnumberedErpnext(s.customers[m.loser].code)
  {
    RowMergesOneWay(MergeGroups(s, names, query), rows);
    CodesAfterStep2(s, names, query);
    assert IsMatch(MergeGroups(s, names, query), FirstMatches(rows)[j]);
  }

  /** Over both steps no winner is ever a loser, and nobody loses twice. */
  lemma RunOneWay(s: Store, names: seq<string>, query: (Store, string) -> seq<Id>, rows: seq<CustomerMatch>)
    requires AnswersMembers(query) && NoRepeats(names) && IsMatchListing(MergeGroups(s, names, query), rows)
    ensures OneWay(RunMerges(s, names, query, rows)) && AllExist(s, RunMerges(s, names, query, rows))
  {
    var xs, ys := Step2Merges(s, names, query), RowMerges(FirstMatches(rows));
    Step2OneWay(s, names, query);
    RowMergesOneWay(MergeGroups(s, names, query), rows);
    forall i | 0 <= i < |xs|
      ensures xs[i].winner in s.customers && IsSplynxCode(s.customers[xs[i].winner].code)
      ensures xs[i].loser in s.customers && IsSplynxCode(s.customers[xs[i].loser].code)
    {
      Step2MergesAreSplynx(s, names, query, i);
    }
    forall j | 0 <= j < |ys|
      ensures ys[j].winner in s.customers && ys[j].winner !in LosersOf(xs)
      ensures ys[j].loser in s.customers && IsUnnumberedErpnext(s.customers[ys[j].loser].code)
    {
      Step3MergesAreMatches(s, names, query, rows, j);
    }
    assert forall i :: 0 <= i < |xs| ==> xs[i].loser in LosersOf(xs);
    OneWayAppend(xs, ys);
  }

  // ---- The groups, as the store is before the run ----

  lemma {:induction false} MergeAllLeaves(s: Store, ms: seq<MergeOf>, c: Id)
    requires forall i :: 0 <= i < |ms| ==> ms[i].winner != c && ms[i].loser != c
    ensures InvoiceRows(MergeAll(s, ms).invoices, c) == InvoiceRows(s.invoices, c)
    decreases |ms|
  {
    if ms == [] {
    } else {
      var t := Merge(s, ms[0].winner, ms[0].loser);
      assert InvoiceRows(t.invoices, c) == InvoiceRows(s.invoices, c);
      MergeAllLeaves(t, ms[1..], c);
    }
  }

  /** A group merge changes nothing that the listing of another group depends on. */
  lemma OtherGroupSame(s: Store, name: string, ms: seq<Id>, c: Id)
    requires IsMemberListing(s, name, ms) && c in s.customers && c !in ms
    ensures c in MergeGroup(s, ms).customers
    ensures MergeGroup(s, ms).customers[c].splynxId == s.customers[c].splynxId
    ensures InvoiceCount(MergeGroup(s, ms), c) == InvoiceCount(s, c)
  {
    if |ms| >= 2 {
      var losers := set x | x in ms[1..];
      MergeLosersCustomers(s, ms[0], ms[1..]);
      assert c !in losers && c != ms[0];
      MergeLosersIsMergeAll(s, ms[0], ms[1..]);
      MergeAllLeaves(s, LoserMerges(ms[0], ms[1..]), c);
    }
  }

  lemma ListingFromBefore(s: Store, name: string, ms: seq<Id>, other: string, listing: seq<Id>)
    requires IsMemberListing(s, name, ms) && other != name && IsMemberListing(MergeGroup(s, ms), other, listing)
    ensures IsMemberListing(s, other, listing)
  {
    var t := MergeGroup(s, ms);
    MergeGroupMembersAfter(s, name, ms);
    assert Members(t, other) == Members(s, other);
    forall i | 0 <= i < |listing| ensures listing[i] in s.customers && listing[i] !in ms {
      assert listing[i] in Members(s, other);
    }
    forall i, j | 0 <= i < j < |listing| ensures ListedBefore(s, listing[i], listing[j]) {
      OtherGroupSame(s, name, ms, listing[i]);
      OtherGroupSame(s, name, ms, listing[j]);
      assert ListedBefore(t, listing[i], listing[j]);
    }
  }

  function MergesOf(listings: seq<seq<Id>>): seq<MergeOf>
    decreases |listings|
  {
    if listings == [] then [] else GroupMerges(listings[0]) + MergesOf(listings[1..])
  }

  /** Each listing is one the database may give for its name in s. */
  ghost predicate AreListings(s: Store, names: seq<string>, listings: seq<seq<Id>>) {
    |listings| == |names| && forall i :: 0 <= i < |names| ==> IsMemberListing(s, names[i], listings[i])
  }

  /**
   Step 2's merges can be read off the store as it is before the run: although each
   group is listed at its own turn, its listing is one the store gives from the start.
   */
  lemma {:induction false} Step2FromStart(s: Store, names: seq<string>, query: (Store, string) -> seq<Id>)
    returns (listings: seq<seq<Id>>)
    requires AnswersMembers(query) && NoRepeats(names)
    ensures AreListings(s, names, listings) && Step2Merges(s, names, query) == MergesOf(listings)
    decreases |names|
  {
    if names == [] {
      listings := [];
    } else {
      var ms := query(s, names[0]);
      assert IsMemberListing(s, names[0], ms);
      var rest := Step2FromStart(MergeGroup(s, ms), names[1..], query);
      listings := [ms] + rest;
      assert listings[1..] == rest;
      forall i | 0 <= i < |names| ensures IsMemberListing(s, names[i], listings[i]) {
        if i > 0 {
          assert names[1..][i - 1] == names[i] && rest[i - 1] == listings[i];
          ListingFromBefore(s, names[0], ms, names[i], listings[i]);
        }
      }
    }
  }

  // ---- Parents ----

  ghost predicate KeepsParent(s: Store, t: Store, c: Id) {
    c in s.customers && c in t.customers && t.customers[c].parent == s.customers[c].parent
  }

  /**
   parent_customer_id is no column the merges move.  After steps 2 and 3 no parent
   dangles, and every remaining customer still has its parent iff none of them was a
   child of a customer merged away.
   */
  lemma ParentsKeptIff(s: Store, names: seq<string>, query: (Store, string) -> seq<Id>, rows: seq<CustomerMatch>)
    requires ParentsIntact(s)
    ensures var t, gone := MergeRows(MergeGroups(s, names, query), FirstMatches(rows)), LosersOf(RunMerges(s, names, query, rows));
      && ParentsIntact(t) && t.customers.Keys == s.customers.Keys - gone
      && ((forall c :: c in t.customers ==> KeepsParent(s, t, c))
          <==> forall c :: c in s.customers && c !in gone && s.customers[c].parent.Some? ==> s.customers[c].parent.value !in gone)
  {
    var ms := RunMerges(s, names, query, rows);
    var t := MergeRows(MergeGroups(s, names, query), FirstMatches(rows));
    RunAlike(s, names, query, rows);
    MergeAllCustomers(s, ms);
    var left := DropCustomers(s.customers, LosersOf(ms));
    assert t.customers.Keys == left.Keys;
    forall c | c in t.customers
      ensures t.customers[c].parent == ParentLeft(s.customers[c].parent, LosersOf(ms))
    {
      assert t.customers[c].parent == left[c].parent;
    }
    if (forall c :: c in t.customers ==> KeepsParent(s, t, c)) {
      forall c | c in s.customers && c !in LosersOf(ms) && s.customers[c].parent.Some?
        ensures s.customers[c].parent.value !in LosersOf(ms)
      {
        assert KeepsParent(s, t, c);
      }
    }
  }

  // ---- A store to see it on ----

  /** SPLYNX namesakes of organisations 5 and 6 with two invoices and one, and a child of the second. */
  function TwoNamesakes(): Store {
    var a := Customer(5, "SPLYNX-1", "acme", None, None, 1, None);
    var b := Customer(6, "SPLYNX-2", "acme", None, None, 2, None);
    var x := Invoice(0, 100, 0, 0, 0, InvoiceStatus.Posted, None, None, None, None);
    var y := x.(customer := 1);
    var child := Customer(6, "CUST-00009", "branch", None, None, 3, Some(1));
    Store(map[0 := a, 1 := b, 2 := child], map[], map[0 := x, 1 := x, 2 := y], map[], map[], map[], map[], {}, map[], map[], map[])
  }

  lemma TwoNamesakesListing(ms: seq<Id>)
    requires IsMemberListing(TwoNamesakes(), "acme", ms)
    ensures ms == [0, 1]
  {
    var s := TwoNamesakes();
    assert InvoiceRows(s.invoices, 0) == {0, 1} && InvoiceRows(s.invoices, 1) == {2};
    assert InvoiceCount(s, 0) == 2 && InvoiceCount(s, 1) == 1;
    assert 0 in Members(s, "acme") && 1 in Members(s, "acme");
    assert Members(s, "acme") == {0, 1};
    assert Elements(ms) == {0, 1};
    ElementsSize(ms);
    assert !ListedBefore(s, 1, 0);
  }

  lemma TwoNamesakesMerge(query: (Store, string) -> seq<Id>)
    requires AnswersMembers(query)
    ensures Step2Merges(TwoNamesakes(), ["acme"], query) == [MergeOf(0, 1)]
  {
    var s, names := TwoNamesakes(), ["acme"];
    var ms := query(s, names[0]);
    assert IsMemberListing(s, "acme", ms);
    TwoNamesakesListing(ms);
    assert GroupMerges(ms) == [MergeOf(0, 1)];
    assert names[1..] == [];
    assert Step2Merges(MergeGroup(s, ms), names[1..], query) == [];
  }

  lemma OnlyAcme(s: Store)
    requires s == TwoNamesakes()
    ensures IsGroupListing(s, ["acme"])
  {
    assert "CUST-00009"[0] == 'C' && !IsSplynxCode("CUST-00009");
    assert Members(s, "acme") == {0, 1};
    forall n | n != "acme" ensures Members(s, n) == {} {}
  }

  lemma TwoNamesakesIntact()
    ensures FkIntact(TwoNamesakes()) && ParentsIntact(TwoNamesakes())
    ensures 2 in TwoNamesakes().customers && TwoNamesakes().customers[2].parent == Some(1)
  {
  }

  /** Step 2 merges the second namesake away, and its child has no parent any more. */
  lemma ChildCanLoseParent(query: (Store, string) -> seq<Id>) returns (s: Store, t: Store)
    requires AnswersMembers(query)
    ensures FkIntact(s) && ParentsIntact(s) && IsGroupListing(s, ["acme"]) && t == MergeGroups(s, ["acme"], query)
    ensures 2 in s.customers && s.customers[2].parent == Some(1)
    ensures 2 in t.customers && t.customers[2].parent == None
  {
    s, t := TwoNamesakes(), MergeGroups(TwoNamesakes(), ["acme"], query);
    TwoNamesakesIntact();
    OnlyAcme(s);
    ChildAfterMerge(s, t, query);
  }

  lemma ChildAfterMerge(s: Store, t: Store, query: (Store, string) -> seq<Id>)
    requires AnswersMembers(query) && s == TwoNamesakes() && t == MergeGroups(s, ["acme"], query)
    ensures 2 in t.customers && t.customers[2].parent == None
  {
    var ms := [MergeOf(0, 1)];
    TwoNamesakesMerge(query);
    MergeGroupsAlike(s, ["acme"], query);
    MergeAllCustomers(s, ms);
    assert ms[0].loser == 1 && LosersOf(ms) == {1};
    var left := DropCustomers(s.customers, {1});
    assert 2 in left && left[2].parent == None;
    assert MergeAll(s, ms).customers == left;
  }
}
