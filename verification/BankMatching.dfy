/** find_invoice_matches and find_customer_match of scripts/bank_match_suggestions.py. */
module BankMatching {
  import opened Basics

  // ---- Invoices for an amount ----

  const TOLERANCE: real := 100.0

  datatype Invoice = Invoice(subtotal: real, total: real)

  /** PAYMENT_RATIOS without its first entry. */
  const RATIOS: seq<(string, real)> := [
    ("NET_5%_WHT_7.5%_VAT_WHT", 0.95),
    ("NET_5%_WHT_7.5%_VAT_1%_STAMP", 0.94),
    ("NET_5%_WHT_ONLY", 0.925),
    ("NET_10%_WHT_ONLY", 0.875)]

  /** What the search may propose, by position in the invoice list. */
  datatype Candidate =
    | Gross(i: nat)
    | Ratio(r: nat, i: nat)
    | PairOf(i: nat, j: nat)
    | TripleOf(i: nat, j: nat, k: nat)

  predicate InWindow(n: nat, c: Candidate) {
    match c
    case Gross(i) => i < n
    case Ratio(r, i) => r < |RATIOS| && i < n
    case PairOf(i, j) => i < j < n && j <= i + 5
    case TripleOf(i, j, k) => i <= 7 && i < j < k < n && j <= i + 4 && k <= j + 3
  }

  predicate Near(a: real, b: real) {
    -TOLERANCE <= a - b <= TOLERANCE
  }

  predicate Hit(bank: real, invs: seq<Invoice>, c: Candidate)
    requires InWindow(|invs|, c)
  {
    match c
    case Gross(i) => Near(bank, invs[i].total)
    case Ratio(r, i) => Near(bank, invs[i].subtotal * RATIOS[r].1)
    case PairOf(i, j) => Near(bank, invs[i].total + invs[j].total)
    case TripleOf(i, j, k) => Near(bank, invs[i].total + invs[j].total + invs[k].total)
  }

  function Stage(c: Candidate): nat {
    match c case Gross(_) => 0 case Ratio(_, _) => 1 case PairOf(_, _) => 2 case TripleOf(_, _, _) => 3
  }

  /** The stated order: single gross; ratio, then invoice; pairs; triples, each in index order. */
  predicate Sooner(c: Candidate, d: Candidate) {
    if Stage(c) != Stage(d) then Stage(c) < Stage(d)
    else match c
      case Gross(i) => i < d.i
      case Ratio(r, i) => r < d.r || (r == d.r && i < d.i)
      case PairOf(i, j) => i < d.i || (i == d.i && j < d.j)
      case TripleOf(i, j, k) => i < d.i || (i == d.i && (j < d.j || (j == d.j && k < d.k)))
  }

  ghost predicate FirstHit(bank: real, invs: seq<Invoice>, c: Candidate) {
    && InWindow(|invs|, c) && Hit(bank, invs, c)
    && forall d :: InWindow(|invs|, d) && Sooner(d, c) ==> !Hit(bank, invs, d)
  }

  ghost predicate NoHit(bank: real, invs: seq<Invoice>) {
    forall d :: InWindow(|invs|, d) ==> !Hit(bank, invs, d)
  }

  function Positions(c: Candidate): seq<nat> {
    match c
    case Gross(i) => [i]
    case Ratio(_, i) => [i]
    case PairOf(i, j) => [i, j]
    case TripleOf(i, j, k) => [i, j, k]
  }

  function Label(c: Candidate): string
    requires c.Ratio? ==> c.r < |RATIOS|
  {
    match c
    case Gross(_) => "EXACT_GROSS"
    case Ratio(r, _) => RATIOS[r].0
    case PairOf(_, _) => "EXACT_GROSS_2_INV"
    case TripleOf(_, _, _) => "EXACT_GROSS_3_INV"
  }

  /** Nothing sooner than c in c's own stage hits. */
  ghost predicate ClearBefore(bank: real, invs: seq<Invoice>, c: Candidate) {
    forall d :: InWindow(|invs|, d) && Stage(d) == Stage(c) && Sooner(d, c) ==> !Hit(bank, invs, d)
  }

  ghost predicate StageClear(bank: real, invs: seq<Invoice>, stage: nat) {
    forall d :: InWindow(|invs|, d) && Stage(d) == stage ==> !Hit(bank, invs, d)
  }

  /** A stage's loops find its first hit, or show that it has none. */
  ghost predicate StageAnswer(bank: real, invs: seq<Invoice>, stage: nat, r: Option<Candidate>) {
    match r
    case None => StageClear(bank, invs, stage)
    case Some(c) => Stage(c) == stage && InWindow(|invs|, c) && Hit(bank, invs, c) && ClearBefore(bank, invs, c)
  }

  method TryGross(bank: real, invs: seq<Invoice>) returns (r: Option<Candidate>)
    ensures StageAnswer(bank, invs, 0, r)
  {
    for i := 0 to |invs|
      invariant ClearBefore(bank, invs, Gross(i))
    {
      if Near(bank, invs[i].total) {
        return Some(Gross(i));
      }
    }
    return None;
  }

  method TryRatios(bank: real, invs: seq<Invoice>) returns (c: Option<Candidate>)
    ensures StageAnswer(bank, invs, 1, c)
  {
    for r := 0 to |RATIOS|
      invariant ClearBefore(bank, invs, Ratio(r, 0))
    {
      for i := 0 to |invs|
        invariant ClearBefore(bank, invs, Ratio(r, i))
      {
        if Near(bank, invs[i].subtotal * RATIOS[r].1) {
          return Some(Ratio(r, i));
        }
      }
    }
    return None;
  }

  method TryPairs(bank: real, invs: seq<Invoice>) returns (c: Option<Candidate>)
    ensures StageAnswer(bank, invs, 2, c)
  {
    var n := |invs|;
    if n >= 2 {
      for i := 0 to n - 1
        invariant ClearBefore(bank, invs, PairOf(i, 0))
      {
        for j := i + 1 to Min(i + 6, n)
          invariant ClearBefore(bank, invs, PairOf(i, j))
        {
          if Near(bank, invs[i].total + invs[j].total) {
            return Some(PairOf(i, j));
          }
        }
      }
    }
    return None;
  }

  lemma NextTriple(bank: real, invs: seq<Invoice>, i: nat, j: nat, k: nat)
    requires ClearBefore(bank, invs, TripleOf(i, j, k))
    ensures InWindow(|invs|, TripleOf(i, j, k)) && !Hit(bank, invs, TripleOf(i, j, k)) ==>
      ClearBefore(bank, invs, TripleOf(i, j, k + 1))
    ensures k >= Min(j + 4, |invs|) ==> ClearBefore(bank, invs, TripleOf(i, j + 1, 0))
  {
  }

  method TryTriples(bank: real, invs: seq<Invoice>) returns (c: Option<Candidate>)
    ensures StageAnswer(bank, invs, 3, c)
  {
    var n := |invs|;
    if n >= 3 {
      for i := 0 to Min(n, 8)
        invariant ClearBefore(bank, invs, TripleOf(i, 0, 0))
      {
        // Ranges may start past their end near the end of the list; they are then empty.
        var j := i + 1;
        while j < Min(i + 5, n)
          invariant i + 1 <= j && ClearBefore(bank, invs, TripleOf(i, j, 0))
        {
          var k := j + 1;
          while k < Min(j + 4, n)
            invariant j + 1 <= k && ClearBefore(bank, invs, TripleOf(i, j, k))
          {
            if Near(bank, invs[i].total + invs[j].total + invs[k].total) {
              return Some(TripleOf(i, j, k));
            }
            NextTriple(bank, invs, i, j, k);
            k := k + 1;
          }
          NextTriple(bank, invs, i, j, k);
          j := j + 1;
        }
      }
    }
    return None;
  }

  /** The answer the source's documentation describes. */
  ghost predicate IsInvoiceMatch(bank: real, invs: seq<Invoice>, matched: seq<nat>, tag: string) {
    if invs == [] then matched == [] && tag == "NO_OPEN_INVOICES"
    else if NoHit(bank, invs) then matched == [] && tag == "NO_AMOUNT_MATCH"
    else exists c :: FirstHit(bank, invs, c) && matched == Positions(c) && tag == Label(c)
  }

  method FindInvoiceMatches(bank: real, invs: seq<Invoice>) returns (matched: seq<nat>, tag: string)
    ensures IsInvoiceMatch(bank, invs, matched, tag)
  {
    if invs == [] {
      return [], "NO_OPEN_INVOICES";
    }
    var r := TryGross(bank, invs);
    if r.None? {
      r := TryRatios(bank, invs);
    }
    if r.None? {
      r := TryPairs(bank, invs);
    }
    if r.None? {
      r := TryTriples(bank, invs);
    }
    if r.None? {
      return [], "NO_AMOUNT_MATCH";
    }
    assert FirstHit(bank, invs, r.value);
    return Positions(r.value), Label(r.value);
  }

  /** Any two different candidates are ordered, so the answer is unique. */
  lemma FirstHitUnique(bank: real, invs: seq<Invoice>, c: Candidate, d: Candidate)
    requires FirstHit(bank, invs, c) && FirstHit(bank, invs, d)
    ensures c == d
  {
    assert Sooner(c, d) || Sooner(d, c) || c == d;
  }

  function GrossSum(invs: seq<Invoice>, positions: seq<nat>): real
    requires forall a :: 0 <= a < |positions| ==> positions[a] < |invs|
    decreases |positions|
  {
    if positions == [] then 0.0 else invs[positions[0]].total + GrossSum(invs, positions[1..])
  }

  lemma SumStep(invs: seq<Invoice>, ps: seq<nat>)
    requires 0 < |ps| <= 3
    requires forall a :: 0 <= a < |ps| ==> ps[a] < |invs|
    ensures |ps| == 1 ==> GrossSum(invs, ps) == invs[ps[0]].total
    ensures |ps| == 2 ==> GrossSum(invs, ps) == invs[ps[0]].total + GrossSum(invs, [ps[1]])
    ensures |ps| == 3 ==> GrossSum(invs, ps) == invs[ps[0]].total + GrossSum(invs, [ps[1], ps[2]])
  {
    assert ps[1..] == if |ps| == 1 then [] else if |ps| == 2 then [ps[1]] else [ps[1], ps[2]];
  }

  lemma PairSum(invs: seq<Invoice>, i: nat, j: nat)
    requires i < |invs| && j < |invs|
    ensures GrossSum(invs, [i, j]) == invs[i].total + invs[j].total
  {
    SumStep(invs, [i, j]);
    SumStep(invs, [j]);
  }

  lemma TripleSum(invs: seq<Invoice>, i: nat, j: nat, k: nat)
    requires i < |invs| && j < |invs| && k < |invs|
    ensures GrossSum(invs, [i, j, k]) == invs[i].total + invs[j].total + invs[k].total
  {
    SumStep(invs, [i, j, k]);
    PairSum(invs, j, k);
  }

  predicate Increasing(n: nat, ps: seq<nat>) {
    && (forall a :: 0 <= a < |ps| ==> ps[a] < n)
    && (forall a, b :: 0 <= a < b < |ps| ==> ps[a] < ps[b])
  }

  /** A proposal lists its invoices in strictly increasing order. */
  lemma ProposalIsIncreasing(n: nat, c: Candidate)
    requires InWindow(n, c)
    ensures Increasing(n, Positions(c))
  {
    match c
    case Gross(i) => assert Positions(c) == [i];
    case Ratio(_, i) => assert Positions(c) == [i];
    case PairOf(i, j) => assert Positions(c) == [i, j];
    case TripleOf(i, j, k) => assert Positions(c) == [i, j, k];
  }

  /** A proposal of gross amounts adds up to the bank amount. */
  lemma ProposalAddsUp(bank: real, invs: seq<Invoice>, c: Candidate)
    requires InWindow(|invs|, c) && !c.Ratio?
    ensures Increasing(|invs|, Positions(c))
    ensures Hit(bank, invs, c) <==> Near(bank, GrossSum(invs, Positions(c)))
  {
    ProposalIsIncreasing(|invs|, c);
    match c
    case Gross(i) => SumStep(invs, [i]);
    case PairOf(i, j) => PairSum(invs, i, j);
    case TripleOf(i, j, k) => TripleSum(invs, i, j, k);
  }

  // ---- The same answer, stage by stage over the amounts ----

  ghost predicate Pays(bank: real, amount: real) {
    amount - 100.0 <= bank <= amount + 100.0
  }

  ghost predicate PaysGross(bank: real, invs: seq<Invoice>, i: int) {
    0 <= i < |invs| && Pays(bank, invs[i].total)
  }

  ghost predicate PaysShare(bank: real, invs: seq<Invoice>, share: real, i: int) {
    0 <= i < |invs| && Pays(bank, invs[i].subtotal * share)
  }

  ghost predicate PaysTwo(bank: real, invs: seq<Invoice>, i: int, j: int) {
    0 <= i < j < |invs| && j - i <= 5 && Pays(bank, invs[i].total + invs[j].total)
  }

  ghost predicate PaysThree(bank: real, invs: seq<Invoice>, i: int, j: int, k: int) {
    && 0 <= i < j < k < |invs| && i < 8 && j - i <= 4 && k - j <= 3
    && Pays(bank, invs[i].total + invs[j].total + invs[k].total)
  }

  ghost predicate SomeGross(bank: real, invs: seq<Invoice>) {
    exists i :: PaysGross(bank, invs, i)
  }

  ghost predicate SomeShare(bank: real, invs: seq<Invoice>, share: real) {
    exists i :: PaysShare(bank, invs, share, i)
  }

  ghost predicate SomeTwo(bank: real, invs: seq<Invoice>) {
    exists i, j :: PaysTwo(bank, invs, i, j)
  }

  ghost predicate SomeThree(bank: real, invs: seq<Invoice>) {
    exists i, j, k :: PaysThree(bank, invs, i, j, k)
  }

  ghost predicate FirstGross(bank: real, invs: seq<Invoice>, matched: seq<nat>) {
    && |matched| == 1 && PaysGross(bank, invs, matched[0])
    && forall a :: a < matched[0] ==> !PaysGross(bank, invs, a)
  }

  ghost predicate FirstShare(bank: real, invs: seq<Invoice>, share: real, matched: seq<nat>) {
    && |matched| == 1 && PaysShare(bank, invs, share, matched[0])
    && forall a :: a < matched[0] ==> !PaysShare(bank, invs, share, a)
  }

  /** The pair with the smallest first position, and of those the smallest second one. */
  ghost predicate FirstTwo(bank: real, invs: seq<Invoice>, matched: seq<nat>) {
    && |matched| == 2 && PaysTwo(bank, invs, matched[0], matched[1])
    && forall a, b :: PaysTwo(bank, invs, a, b) ==> a > matched[0] || (a == matched[0] && b >= matched[1])
  }

  ghost predicate FirstThree(bank: real, invs: seq<Invoice>, matched: seq<nat>) {
    && |matched| == 3 && PaysThree(bank, invs, matched[0], matched[1], matched[2])
    && forall a, b, c :: PaysThree(bank, invs, a, b, c) ==>
         a > matched[0] || (a == matched[0] && (b > matched[1] || (b == matched[1] && c >= matched[2])))
  }

  /** The withholding patterns of the subtotal, each only when no earlier pattern fits any invoice. */
  ghost predicate ByShares(bank: real, invs: seq<Invoice>, matched: seq<nat>, tag: string) {
    if SomeShare(bank, invs, 0.95) then FirstShare(bank, invs, 0.95, matched) && tag == "NET_5%_WHT_7.5%_VAT_WHT"
    else if SomeShare(bank, invs, 0.94) then FirstShare(bank, invs, 0.94, matched) && tag == "NET_5%_WHT_7.5%_VAT_1%_STAMP"
    else if SomeShare(bank, invs, 0.925) then FirstShare(bank, invs, 0.925, matched) && tag == "NET_5%_WHT_ONLY"
    else FirstShare(bank, invs, 0.875, matched) && tag == "NET_10%_WHT_ONLY"
  }

  ghost predicate NoShare(bank: real, invs: seq<Invoice>) {
    !SomeShare(bank, invs, 0.95) && !SomeShare(bank, invs, 0.94) && !SomeShare(bank, invs, 0.925)
      && !SomeShare(bank, invs, 0.875)
  }

  ghost predicate ByAmounts(bank: real, invs: seq<Invoice>, matched: seq<nat>, tag: string) {
    if invs == [] then matched == [] && tag == "NO_OPEN_INVOICES"
    else if SomeGross(bank, invs) then FirstGross(bank, invs, matched) && tag == "EXACT_GROSS"
    else if !NoShare(bank, invs) then ByShares(bank, invs, matched, tag)
    else if SomeTwo(bank, invs) then FirstTwo(bank, invs, matched) && tag == "EXACT_GROSS_2_INV"
    else if SomeThree(bank, invs) then FirstThree(bank, invs, matched) && tag == "EXACT_GROSS_3_INV"
    else matched == [] && tag == "NO_AMOUNT_MATCH"
  }

  ghost predicate RowClear(bank: real, invs: seq<Invoice>, r: nat)
    requires r < |RATIOS|
  {
    forall i: nat :: i < |invs| ==> !Hit(bank, invs, Ratio(r, i))
  }

  lemma GrossClear(bank: real, invs: seq<Invoice>)
    ensures StageClear(bank, invs, 0) <==> !SomeGross(bank, invs)
  {
    if !SomeGross(bank, invs) {
      forall d | InWindow(|invs|, d) && Stage(d) == 0 ensures !Hit(bank, invs, d) {
        assert !PaysGross(bank, invs, d.i);
      }
    } else {
      var i :| PaysGross(bank, invs, i);
      assert InWindow(|invs|, Gross(i)) && Stage(Gross(i)) == 0 && Hit(bank, invs, Gross(i));
    }
  }

  lemma NearPays(bank: real, amount: real)
    ensures Near(bank, amount) <==> Pays(bank, amount)
  {
  }

  lemma RatioHits(bank: real, invs: seq<Invoice>, r: nat, share: real, i: nat)
    requires r < |RATIOS| && share == RATIOS[r].1 && i < |invs|
    ensures Hit(bank, invs, Ratio(r, i)) <==> PaysShare(bank, invs, share, i)
  {
    NearPays(bank, invs[i].subtotal * share);
  }

  lemma ShareClear(bank: real, invs: seq<Invoice>, r: nat, share: real)
    requires r < |RATIOS| && share == RATIOS[r].1
    ensures RowClear(bank, invs, r) <==> !SomeShare(bank, invs, share)
  {
    if !SomeShare(bank, invs, share) {
      forall i: nat | i < |invs| ensures !Hit(bank, invs, Ratio(r, i)) {
        assert !PaysShare(bank, invs, share, i);
        RatioHits(bank, invs, r, share, i);
      }
    } else {
      var i :| PaysShare(bank, invs, share, i);
      RatioHits(bank, invs, r, share, i);
      assert Hit(bank, invs, Ratio(r, i));
    }
  }

  lemma SharesClear(bank: real, invs: seq<Invoice>)
    ensures StageClear(bank, invs, 1) <==> NoShare(bank, invs)
  {
    ShareClear(bank, invs, 0, 0.95);
    ShareClear(bank, invs, 1, 0.94);
    ShareClear(bank, invs, 2, 0.925);
    ShareClear(bank, invs, 3, 0.875);
    if StageClear(bank, invs, 1) {
      forall r: nat | r < |RATIOS| ensures RowClear(bank, invs, r) {
        forall i: nat | i < |invs| ensures !Hit(bank, invs, Ratio(r, i)) {
          assert InWindow(|invs|, Ratio(r, i)) && Stage(Ratio(r, i)) == 1;
        }
      }
      assert RowClear(bank, invs, 0) && RowClear(bank, invs, 1) && RowClear(bank, invs, 2) && RowClear(bank, invs, 3);
    }
  }

  lemma TwoClear(bank: real, invs: seq<Invoice>)
    ensures StageClear(bank, invs, 2) <==> !SomeTwo(bank, invs)
  {
    if !SomeTwo(bank, invs) {
      forall d | InWindow(|invs|, d) && Stage(d) == 2 ensures !Hit(bank, invs, d) {
        assert !PaysTwo(bank, invs, d.i, d.j);
      }
    } else {
      var i, j :| PaysTwo(bank, invs, i, j);
      assert InWindow(|invs|, PairOf(i, j)) && Stage(PairOf(i, j)) == 2 && Hit(bank, invs, PairOf(i, j));
    }
  }

  lemma ThreeClear(bank: real, invs: seq<Invoice>)
    ensures StageClear(bank, invs, 3) <==> !SomeThree(bank, invs)
  {
    if !SomeThree(bank, invs) {
      forall d | InWindow(|invs|, d) && Stage(d) == 3 ensures !Hit(bank, invs, d) {
        assert !PaysThree(bank, invs, d.i, d.j, d.k);
      }
    } else {
      var i, j, k :| PaysThree(bank, invs, i, j, k);
      assert InWindow(|invs|, TripleOf(i, j, k)) && Stage(TripleOf(i, j, k)) == 3 && Hit(bank, invs, TripleOf(i, j, k));
    }
  }

  /** A first hit lies in the earliest stage that is not clear. */
  lemma EarlierStagesClear(bank: real, invs: seq<Invoice>, c: Candidate, stage: nat)
    requires FirstHit(bank, invs, c)
    ensures stage < Stage(c) ==> StageClear(bank, invs, stage)
    ensures !StageClear(bank, invs, Stage(c))
  {
  }

  lemma FirstGrossHit(bank: real, invs: seq<Invoice>, i: nat)
    requires FirstHit(bank, invs, Gross(i))
    ensures FirstGross(bank, invs, [i])
  {
    forall a | a < i ensures !PaysGross(bank, invs, a) {
      if 0 <= a {
        assert InWindow(|invs|, Gross(a)) && Sooner(Gross(a), Gross(i));
        assert !Hit(bank, invs, Gross(a));
      }
    }
  }

  lemma FirstShareHit(bank: real, invs: seq<Invoice>, r: nat, i: nat)
    requires FirstHit(bank, invs, Ratio(r, i))
    ensures forall q: nat :: q < r ==> RowClear(bank, invs, q)
    ensures !RowClear(bank, invs, r) && FirstShare(bank, invs, RATIOS[r].1, [i])
  {
    assert Hit(bank, invs, Ratio(r, i));
    forall q: nat | q < r ensures RowClear(bank, invs, q) {
      forall a: nat | a < |invs| ensures !Hit(bank, invs, Ratio(q, a)) {
        assert Sooner(Ratio(q, a), Ratio(r, i)) && InWindow(|invs|, Ratio(q, a));
      }
    }
    forall a | a < i ensures !PaysShare(bank, invs, RATIOS[r].1, a) {
      if 0 <= a {
        assert InWindow(|invs|, Ratio(r, a)) && Sooner(Ratio(r, a), Ratio(r, i));
        assert !Hit(bank, invs, Ratio(r, a));
      }
    }
  }

  lemma FirstTwoHit(bank: real, invs: seq<Invoice>, i: nat, j: nat)
    requires FirstHit(bank, invs, PairOf(i, j))
    ensures FirstTwo(bank, invs, [i, j])
  {
    forall a, b | PaysTwo(bank, invs, a, b) ensures a > i || (a == i && b >= j) {
      var c := PairOf(a, b);
      assert InWindow(|invs|, c) && Hit(bank, invs, c);
      assert !Sooner(c, PairOf(i, j));
    }
  }

  lemma FirstThreeHit(bank: real, invs: seq<Invoice>, i: nat, j: nat, k: nat)
    requires FirstHit(bank, invs, TripleOf(i, j, k))
    ensures FirstThree(bank, invs, [i, j, k])
  {
    forall a, b, c | PaysThree(bank, invs, a, b, c)
      ensures a > i || (a == i && (b > j || (b == j && c >= k)))
    {
      var d := TripleOf(a, b, c);
      assert InWindow(|invs|, d) && Hit(bank, invs, d);
      assert !Sooner(d, TripleOf(i, j, k));
    }
  }

  lemma SharesByAmounts(bank: real, invs: seq<Invoice>, r: nat, i: nat)
    requires FirstHit(bank, invs, Ratio(r, i))
    ensures ByShares(bank, invs, [i], RATIOS[r].0)
  {
    FirstShareHit(bank, invs, r, i);
    ShareClear(bank, invs, 0, 0.95);
    ShareClear(bank, invs, 1, 0.94);
    ShareClear(bank, invs, 2, 0.925);
    ShareClear(bank, invs, 3, 0.875);
  }

  lemma NoHitClears(bank: real, invs: seq<Invoice>, stage: nat)
    requires NoHit(bank, invs)
    ensures StageClear(bank, invs, stage)
  {
  }

  /** The answer is that of the earliest pattern that fits, with the patterns' own numbers written out. */
  lemma MatchByAmounts(bank: real, invs: seq<Invoice>, matched: seq<nat>, tag: string)
    requires IsInvoiceMatch(bank, invs, matched, tag)
    ensures ByAmounts(bank, invs, matched, tag)
  {
    GrossClear(bank, invs);
    SharesClear(bank, invs);
    TwoClear(bank, invs);
    ThreeClear(bank, invs);
    if invs == [] {
    } else if NoHit(bank, invs) {
      forall stage: nat ensures StageClear(bank, invs, stage) { NoHitClears(bank, invs, stage); }
    } else {
      var c :| FirstHit(bank, invs, c) && matched == Positions(c) && tag == Label(c);
      forall stage: nat ensures stage < Stage(c) ==> StageClear(bank, invs, stage) {
        EarlierStagesClear(bank, invs, c, stage);
      }
      EarlierStagesClear(bank, invs, c, 0);
      match c
      case Gross(i) => FirstGrossHit(bank, invs, i);
      case Ratio(r, i) => SharesByAmounts(bank, invs, r, i);
      case PairOf(i, j) => FirstTwoHit(bank, invs, i, j);
      case TripleOf(i, j, k) => FirstThreeHit(bank, invs, i, j, k);
    }
  }

  // ---- The customer for a description ----

  const MIN_NAME := 8

  /** stripped is the name without anything but letters and digits; tokens are its significant words. */
  datatype Customer = Customer(stripped: string, tokens: set<string>)

  datatype Confidence = High | Medium | Low | NoMatch

  predicate OccursAt(text: string, part: string, k: nat) {
    k + |part| <= |text| && text[k..k + |part|] == part
  }

  predicate Contains(text: string, part: string) {
    exists k :: 0 <= k <= |text| && OccursAt(text, part, k)
  }

  predicate NameOccurs(text: string, c: Customer) {
    |c.stripped| >= MIN_NAME && Contains(text, c.stripped)
  }

  /** An acronym's full name and the customer share two words, or one when the name is short. */
  predicate HintFits(hint: set<string>, c: Customer) {
    |c.tokens * hint| >= 2 || (|c.tokens * hint| >= 1 && |c.tokens| <= 3)
  }

  function Overlap(c: Customer, words: set<string>): nat {
    |c.tokens * words|
  }

  function Grade(overlap: nat): Confidence {
    if overlap >= 3 then High else if overlap == 2 then Medium else if overlap == 1 then Low else NoMatch
  }

  /** The longest occurring name, the first of several equally long. */
  ghost predicate LongestName(text: string, cs: seq<Customer>, i: nat) {
    && i < |cs| && NameOccurs(text, cs[i])
    && (forall j :: 0 <= j < |cs| && NameOccurs(text, cs[j]) ==> |cs[j].stripped| <= |cs[i].stripped|)
    && (forall j :: 0 <= j < i && NameOccurs(text, cs[j]) ==> |cs[j].stripped| < |cs[i].stripped|)
  }

  /** The first customer fitting the first hint that fits any. */
  ghost predicate FirstHint(hints: seq<set<string>>, cs: seq<Customer>, i: nat) {
    && i < |cs|
    && exists h :: 0 <= h < |hints| && HintFits(hints[h], cs[i])
         && (forall j :: 0 <= j < i ==> !HintFits(hints[h], cs[j]))
         && (forall g, j :: 0 <= g < h && 0 <= j < |cs| ==> !HintFits(hints[g], cs[j]))
  }

  /** The largest positive overlap, the first of several equally large. */
  ghost predicate BestOverlap(words: set<string>, cs: seq<Customer>, i: nat) {
    && i < |cs| && Overlap(cs[i], words) > 0
    && (forall j :: 0 <= j < |cs| ==> Overlap(cs[j], words) <= Overlap(cs[i], words))
    && (forall j :: 0 <= j < i ==> Overlap(cs[j], words) < Overlap(cs[i], words))
  }

  ghost predicate SomeNameOccurs(text: string, cs: seq<Customer>) {
    exists j :: 0 <= j < |cs| && NameOccurs(text, cs[j])
  }

  ghost predicate SomeHintFits(hints: seq<set<string>>, cs: seq<Customer>) {
    exists h, j :: 0 <= h < |hints| && 0 <= j < |cs| && HintFits(hints[h], cs[j])
  }

  method LongestOccurringName(text: string, cs: seq<Customer>) returns (best: Option<nat>)
    ensures best.Some? ==> LongestName(text, cs, best.value)
    ensures best.None? ==> !SomeNameOccurs(text, cs)
  {
    best := None;
    for i := 0 to |cs|
      invariant best.None? ==> forall j :: 0 <= j < i ==> !NameOccurs(text, cs[j])
      invariant best.Some? ==> best.value < i && LongestName(text, cs[..i], best.value)
    {
      if NameOccurs(text, cs[i]) {
        if best.None? || |cs[i].stripped| > |cs[best.value].stripped| {
          best := Some(i);
        }
      }
    }
    assert cs[..|cs|] == cs;
  }

  method FirstFittingHint(hints: seq<set<string>>, cs: seq<Customer>) returns (best: Option<nat>)
    ensures best.Some? ==> FirstHint(hints, cs, best.value)
    ensures best.None? ==> !SomeHintFits(hints, cs)
  {
    for h := 0 to |hints|
      invariant forall g, j :: 0 <= g < h && 0 <= j < |cs| ==> !HintFits(hints[g], cs[j])
    {
      for i := 0 to |cs|
        invariant forall j :: 0 <= j < i ==> !HintFits(hints[h], cs[j])
      {
        if HintFits(hints[h], cs[i]) {
          return Some(i);
        }
      }
    }
    return None;
  }

  method LargestOverlap(words: set<string>, cs: seq<Customer>) returns (best: Option<nat>)
    ensures best.Some? ==> BestOverlap(words, cs, best.value)
    ensures best.None? ==> forall j :: 0 <= j < |cs| ==> Overlap(cs[j], words) == 0
  {
    best := None;
    var overlap := 0;
    for i := 0 to |cs|
      invariant best.None? ==> overlap == 0 && forall j :: 0 <= j < i ==> Overlap(cs[j], words) == 0
      invariant best.Some? ==>
        best.value < i && overlap == Overlap(cs[best.value], words) && BestOverlap(words, cs[..i], best.value)
    {
      if Overlap(cs[i], words) > overlap {
        best, overlap := Some(i), Overlap(cs[i], words);
      }
    }
    assert cs[..|cs|] == cs;
  }

  /**
   hints are the word sets of the acronyms found in the text, in table order; a
   name occurring in the text beats a hint, and a hint beats shared words.
   */
  method FindCustomerMatch(text: string, hints: seq<set<string>>, words: set<string>, cs: seq<Customer>)
    returns (best: Option<nat>, confidence: Confidence)
    ensures SomeNameOccurs(text, cs) ==> best.Some? && LongestName(text, cs, best.value) && confidence == High
    ensures !SomeNameOccurs(text, cs) && SomeHintFits(hints, cs) ==>
      best.Some? && FirstHint(hints, cs, best.value) && confidence == High
    ensures !SomeNameOccurs(text, cs) && !SomeHintFits(hints, cs) && best.Some? ==>
      BestOverlap(words, cs, best.value) && confidence == Grade(Overlap(cs[best.value], words))
    ensures best.None? <==> !SomeNameOccurs(text, cs) && !SomeHintFits(hints, cs)
                            && forall j :: 0 <= j < |cs| ==> Overlap(cs[j], words) == 0
    ensures best.None? <==> confidence == NoMatch
  {
    best := LongestOccurringName(text, cs);
    if best.Some? {
      return best, High;
    }
    best := FirstFittingHint(hints, cs);
    if best.Some? {
      return best, High;
    }
    if words == {} {
      return None, NoMatch;
    }
    best := LargestOverlap(words, cs);
    if best.None? {
      return None, NoMatch;
    }
    confidence := Grade(Overlap(cs[best.value], words));
  }

  /** A name counts when its eight or more characters stand in the text in one piece. */
  lemma NameOccursIff(text: string, c: Customer)
    ensures NameOccurs(text, c) <==> |c.stripped| >= 8 && exists before, after :: text == before + c.stripped + after
  {
    if Contains(text, c.stripped) {
      var k :| 0 <= k <= |text| && OccursAt(text, c.stripped, k);
      assert text == text[..k] + c.stripped + text[k + |c.stripped|..];
    }
    if before, after :| text == before + c.stripped + after {
      assert OccursAt(text, c.stripped, |before|);
    }
  }

  lemma {:induction false} TwoElements(s: set<string>)
    ensures |s| >= 1 <==> exists a :: a in s
    ensures |s| >= 2 <==> exists a, b :: a in s && b in s && a != b
  {
    if a :| a in s {
      if b :| b in s && a != b {
        assert s == {a, b} + (s - {a, b});
      } else {
        assert s == {a};
      }
    }
  }

  /** A hint counts when two different words are shared, or one by a customer of at most three words. */
  lemma HintFitsIff(hint: set<string>, c: Customer)
    ensures HintFits(hint, c) <==>
      || (exists a, b :: a in hint && b in hint && a in c.tokens && b in c.tokens && a != b)
      || (|c.tokens| <= 3 && exists a :: a in hint && a in c.tokens)
  {
    var shared := c.tokens * hint;
    TwoElements(shared);
    if a, b :| a in shared && b in shared && a != b {
      assert a in hint && b in hint && a in c.tokens && b in c.tokens;
    }
    if a, b :| a in hint && b in hint && a in c.tokens && b in c.tokens && a != b {
      assert a in shared && b in shared;
    }
    if a :| a in shared {
      assert a in hint && a in c.tokens;
    }
    if a :| a in hint && a in c.tokens {
      assert a in shared;
    }
  }

  /** Three shared words are a high, two a medium and one a low confidence. */
  lemma GradeMeans(c: Customer, words: set<string>)
    ensures Grade(Overlap(c, words)) == NoMatch <==> c.tokens !! words
    ensures Grade(Overlap(c, words)) == Low <==> |c.tokens * words| == 1
    ensures Grade(Overlap(c, words)) == Medium <==> |c.tokens * words| == 2
    ensures Grade(Overlap(c, words)) == High <==> 2 < |c.tokens * words|
  {
    var shared := c.tokens * words;
    if c.tokens !! words {
      assert shared == {};
    } else {
      var w :| w in c.tokens && w in words;
      assert w in shared && shared != {};
    }
  }
}
