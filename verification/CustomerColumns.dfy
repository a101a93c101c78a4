/**
 Steps 2 and 3 of scripts/dedup_customers.py read off the columns: who is merged
 away, who is kept, and in which order ids are taken.
 */
module CustomerColumns {
  import opened Basics
  import opened ErpStore
  import opened CustomerFks
  import opened DedupCustomers
  import opened CustomerMerges

  // ---- Text order ----

  /** a is a prefix of b, or smaller at the first place where they differ. */
  predicate Precedes(a: string, b: string) {
    a <= b || exists k :: 0 <= k < |a| && k < |b| && a[..k] == b[..k] && a[k] < b[k]
  }

  lemma {:induction false} TextOrder(a: string, b: string)
    ensures TextLessEq(a, b) <==> Precedes(a, b)
    decreases |a|
  {
    if a != "" && b != "" {
      TextOrder(a[1..], b[1..]);
      if a[0] == b[0] {
        assert a <= b <==> a[1..] <= b[1..];
        if k :| 0 <= k < |a[1..]| && k < |b[1..]| && a[1..][..k] == b[1..][..k] && a[1..][k] < b[1..][k] {
          assert a[..k + 1] == [a[0]] + a[1..][..k] && b[..k + 1] == [b[0]] + b[1..][..k];
          assert a[..k + 1] == b[..k + 1] && a[k + 1] < b[k + 1];
        }
        if k :| 0 <= k < |a| && k < |b| && a[..k] == b[..k] && a[k] < b[k] {
          assert k > 0;
          assert a[1..][..k - 1] == a[..k][1..] && b[1..][..k - 1] == b[..k][1..];
          assert a[1..][..k - 1] == b[1..][..k - 1] && a[1..][k - 1] < b[1..][k - 1];
        }
      } else if a[0] < b[0] {
        assert a[..0] == b[..0];
      } else if k :| 0 <= k < |a| && k < |b| && a[..k] == b[..k] && a[k] < b[k] {
        assert k > 0 ==> a[..k][0] == b[..k][0];
      }
    }
  }

  // ---- Step 2 ----

  function InvoicesOf(s: Store, c: Id): set<Id> {
    set i | i in s.invoices && s.invoices[i].customer == c
  }

  /** SPLYNX customers of one name. */
  predicate SplynxNamesakes(s: Store, c: Id, d: Id) {
    && c in s.customers && d in s.customers && s.customers[c].name == s.customers[d].name
    && "SPLYNX-" <= s.customers[c].code && "SPLYNX-" <= s.customers[d].code
  }

  /** c has more invoices than d, or as many and a Splynx id that comes first; NULL comes last. */
  predicate Outranks(s: Store, c: Id, d: Id)
    requires c in s.customers && d in s.customers
  {
    || |InvoicesOf(s, c)| > |InvoicesOf(s, d)|
    || (|InvoicesOf(s, c)| == |InvoicesOf(s, d)|
        && (s.customers[d].splynxId.None?
            || (s.customers[c].splynxId.Some? && Precedes(s.customers[c].splynxId.value, s.customers[d].splynxId.value))))
  }

  lemma ListedOutranks(s: Store, c: Id, d: Id)
    requires c in s.customers && d in s.customers
    ensures ListedBefore(s, c, d) <==> Outranks(s, c, d)
  {
    assert InvoiceRows(s.invoices, c) == InvoicesOf(s, c) && InvoiceRows(s.invoices, d) == InvoicesOf(s, d);
    if s.customers[c].splynxId.Some? && s.customers[d].splynxId.Some? {
      TextOrder(s.customers[c].splynxId.value, s.customers[d].splynxId.value);
    }
  }

  lemma {:induction false} MergesOfListing(listings: seq<seq<Id>>, i: nat, j: nat)
    requires i < |listings| && 0 < j < |listings[i]|
    ensures listings[i][j] in LosersOf(MergesOf(listings))
    decreases |listings|
  {
    var own, rest, all := GroupMerges(listings[0]), MergesOf(listings[1..]), MergesOf(listings);
    if i == 0 {
      assert listings[0][1..][j - 1] == listings[0][j];
      assert all[j - 1] == own[j - 1] && own[j - 1].loser == listings[0][j];
    } else {
      MergesOfListing(listings[1..], i - 1, j);
      var k :| 0 <= k < |rest| && rest[k].loser == listings[i][j];
      assert all[|own| + k] == rest[k];
    }
  }

  /** Only SPLYNX customers are merged away, and of each name the one that outranks the others stays. */
  lemma Step2KeepsTheFirst(s: Store, names: seq<string>, query: (Store, string) -> seq<Id>, c: Id, d: Id)
    requires AnswersMembers(query) && IsGroupListing(s, names)
    requires c in MergeGroups(s, names, query).customers && SplynxNamesakes(s, c, d) && c != d
    ensures Outranks(s, c, d) && d !in MergeGroups(s, names, query).customers
  {
    var name := s.customers[c].name;
    assert c in Members(s, name) && d in Members(s, name);
    assert {c, d} <= Members(s, name) && |{c, d}| == 2;
    SubsetSize({c, d}, Members(s, name));
    assert name in names;
    var listings := Step2FromStart(s, names, query);
    var i :| 0 <= i < |names| && names[i] == name;
    var ms := listings[i];
    assert c in ms && d in ms;
    var j :| 0 <= j < |ms| && ms[j] == c;
    var k :| 0 <= k < |ms| && ms[k] == d;
    CodesAfterStep2(s, names, query);
    if j > 0 { MergesOfListing(listings, i, j); }
    assert j == 0;
    MergesOfListing(listings, i, k);
    ListedOutranks(s, c, d);
  }

  /** Of each name somebody stays. */
  lemma Step2KeepsSomebody(s: Store, names: seq<string>, query: (Store, string) -> seq<Id>, d: Id) returns (c: Id)
    requires AnswersMembers(query) && IsGroupListing(s, names) && d in s.customers && "SPLYNX-" <= s.customers[d].code
    ensures c in MergeGroups(s, names, query).customers && SplynxNamesakes(s, c, d)
  {
    CodesAfterStep2(s, names, query);
    Step2OneWay(s, names, query);
    var ms := Step2Merges(s, names, query);
    c := d;
    if d in LosersOf(ms) {
      var i :| 0 <= i < |ms| && ms[i].loser == d;
      c := ms[i].winner;
      assert InGroups(s, ms[i], names);
    }
  }

  lemma Step2KeepsOthers(s: Store, names: seq<string>, query: (Store, string) -> seq<Id>, c: Id)
    requires AnswersMembers(query) && NoRepeats(names) && c in s.customers && !("SPLYNX-" <= s.customers[c].code)
    ensures c in MergeGroups(s, names, query).customers
  {
    Step2OneWay(s, names, query);
    CodesAfterStep2(s, names, query);
    var ms := Step2Merges(s, names, query);
    forall i | 0 <= i < |ms| ensures ms[i].loser != c {
      assert InGroups(s, ms[i], names);
    }
  }

  // ---- Step 3 ----

  /** Customer e is neither SPLYNX nor numbered, and some SPLYNX customer has its name. */
  predicate MergedInStep3(customers: map<Id, Customer>, e: Id)
    requires e in customers
  {
    && !("SPLYNX-" <= customers[e].code) && !("CUST-" <= customers[e].code)
    && exists x :: x in customers && "SPLYNX-" <= customers[x].code && customers[x].name == customers[e].name
  }

  /** Exactly these customers disappear in step 3. */
  lemma Step3Exactly(s: Store, rows: seq<CustomerMatch>, c: Id)
    requires IsMatchListing(s, rows) && c in s.customers
    ensures c in MergeRows(s, FirstMatches(rows)).customers <==> !MergedInStep3(s.customers, c)
  {
    FirstMatchesMergeable(s, rows);
    MergeRowsDelete(s, FirstMatches(rows));
    if MergedInStep3(s.customers, c) {
      var x :| x in s.customers && "SPLYNX-" <= s.customers[x].code && s.customers[x].name == s.customers[c].name;
      assert HasNamesake(s, c, x);
    }
    if c in Losers(FirstMatches(rows)) {
      var x :| HasNamesake(s, c, x);
    }
  }

  /** Each ERPNext customer is merged by the first of its rows. */
  lemma {:induction false} FirstMatchesAreFirst(rows: seq<CustomerMatch>, row: CustomerMatch)
    requires row in FirstMatches(rows)
    ensures exists i :: 0 <= i < |rows| && rows[i] == row && forall j :: 0 <= j < i ==> rows[j].erp != row.erp
    decreases |rows|
  {
    var n := |rows| - 1;
    var init := FirstMatches(rows[..n]);
    if row in init {
      FirstMatchesAreFirst(rows[..n], row);
      var i :| 0 <= i < n && rows[..n][i] == row && forall j :: 0 <= j < i ==> rows[..n][j].erp != row.erp;
      assert rows[i] == row && forall j :: 0 <= j < i ==> rows[j] == rows[..n][j];
    } else {
      assert row == rows[n];
      FirstMatchesErp(rows[..n]);
      forall j | 0 <= j < n ensures rows[j].erp != row.erp {
        assert rows[..n][j] == rows[j] && rows[j] in rows[..n];
        var k :| 0 <= k < |init| && init[k].erp == rows[j].erp;
      }
    }
  }

  /** A winner without an ERPNext id can only take a non-empty one, of a namesake merged away. */
  lemma Step3Ids(s: Store, rows: seq<CustomerMatch>, c: Id)
    requires IsMatchListing(s, rows) && c in MergeRows(s, FirstMatches(rows)).customers
    ensures c in s.customers
    ensures var t := MergeRows(s, FirstMatches(rows));
      && (s.customers[c].erpnextId.Some? ==> t.customers[c].erpnextId == s.customers[c].erpnextId)
      && (s.customers[c].erpnextId.None? && t.customers[c].erpnextId.Some? ==>
            && t.customers[c].erpnextId.value != ""
            && exists e :: e in s.customers && MergedInStep3(s.customers, e) && s.customers[e].name == s.customers[c].name
                           && s.customers[e].erpnextId == t.customers[c].erpnextId)
  {
    var firsts := FirstMatches(rows);
    MergeRowsIds(s, firsts, c);
    OfferedIdMeans(firsts, c);
    RowMergesOneWay(s, rows);
    if s.customers[c].erpnextId.None? && OfferedId(firsts, c).Some? {
      var i :| 0 <= i < |firsts| && Offers(firsts[i], c) && firsts[i].erpnextId == OfferedId(firsts, c);
      assert IsMatch(s, firsts[i]);
      assert MergedInStep3(s.customers, firsts[i].erp);
    }
  }

  /** It does take one if it is the only SPLYNX customer of its name and such a namesake exists. */
  lemma Step3TakesAnId(s: Store, rows: seq<CustomerMatch>, c: Id, e: Id)
    requires IsMatchListing(s, rows) && c in MergeRows(s, FirstMatches(rows)).customers
    requires e in s.customers && MergedInStep3(s.customers, e) && s.customers[e].erpnextId.Some? && s.customers[e].erpnextId.value != ""
    requires c in s.customers && s.customers[e].name == s.customers[c].name
    requires forall x :: x in s.customers && "SPLYNX-" <= s.customers[x].code && s.customers[x].name == s.customers[c].name ==> x == c
    ensures MergeRows(s, FirstMatches(rows)).customers[c].erpnextId.Some?
  {
    var firsts := FirstMatches(rows);
    var x :| x in s.customers && "SPLYNX-" <= s.customers[x].code && s.customers[x].name == s.customers[e].name;
    assert IsMatch(s, CustomerMatch(e, s.customers[e].erpnextId, x)) by { assert x == c; }
    FirstMatchesErp(rows);
    var i :| 0 <= i < |firsts| && firsts[i].erp == e;
    assert IsMatch(s, firsts[i]);
    assert Offers(firsts[i], c);
    MergeRowsIds(s, firsts, c);
    OfferedIdMeans(firsts, c);
  }

  // ---- The ids of a group ----

  /** Ids are taken in listing order: those of a shorter list come first. */
  lemma {:induction false} SplynxIdsInOrder(customers: map<Id, Customer>, ms: seq<Id>, k: nat)
    requires k <= |ms|
    ensures SplynxIds(customers, ms[..k]) <= SplynxIds(customers, ms)
    decreases |ms|
  {
    if k == |ms| {
      assert ms[..k] == ms;
    } else {
      var n := |ms| - 1;
      assert ms[..n][..k] == ms[..k];
      SplynxIdsInOrder(customers, ms[..n], k);
    }
  }
}
