/**
 scripts/backfill_splynx_tax.py: splitting VAT-inclusive totals, rounded half up
 to the kobo.  Amounts are real numbers of kobo, so sub-kobo digits are allowed.
 */
module InclusiveTax {
  import opened Basics
  import opened Sessions

  // ---- Rounding ----

  /** quantize(0.01, ROUND_HALF_UP): ties go away from zero. */
  function RoundHalfUp(x: real): int {
    if x >= 0.0 then (x + 0.5).Floor else -((-x + 0.5).Floor)
  }

  lemma RoundNearest(x: real)
    ensures -0.5 <= RoundHalfUp(x) as real - x <= 0.5
  {
  }

  /** Half a kobo goes away from zero. */
  lemma TiesGoAway(n: nat)
    ensures RoundHalfUp(n as real + 0.5) == n + 1 && RoundHalfUp(-(n as real) - 0.5) == -(n + 1)
  {
    assert (n as real + 0.5 + 0.5).Floor == n + 1;
  }

  lemma RoundMonotone(x: real, y: real)
    requires x <= y
    ensures RoundHalfUp(x) <= RoundHalfUp(y)
  {
    if x >= 0.0 {
      assert (x + 0.5).Floor <= (y + 0.5).Floor;
    } else if y < 0.0 {
      assert (-y + 0.5).Floor <= (-x + 0.5).Floor;
    }
  }

  /** A gap below an integer gap never rounds to more than that gap. */
  lemma RoundGap(x: real, y: real, gap: int)
    requires y < x + gap as real
    ensures RoundHalfUp(y) <= RoundHalfUp(x) + gap
  {
    RoundNearest(x);
    RoundNearest(y);
  }

  /** An integer strictly within 1.5 of x is within 1 of x rounded. */
  lemma RoundNearInteger(x: real, n: int)
    requires -1.5 < x - n as real < 1.5
    ensures -1 <= RoundHalfUp(x) - n <= 1
  {
    RoundNearest(x);
  }

  // ---- The split ----

  function Share(total: real, rate: real): real
    requires rate != -1.0
  {
    total * rate / (1.0 + rate)
  }

  datatype Split = Split(subtotal: real, tax: real)

  function ExtractInclusiveTax(total: real, rate: real): Split
    requires rate != -1.0
  {
    if rate == 0.0 then Split(total, 0.0)
    else
      var tax := RoundHalfUp(Share(total, rate)) as real;
      Split(total - tax, tax)
  }

  lemma ShareEquation(total: real, rate: real)
    requires rate != -1.0
    ensures Share(total, rate) * (1.0 + rate) == total * rate
    ensures Share(total, rate) == (total - Share(total, rate)) * rate
  {
    var s := Share(total, rate);
    assert s * (1.0 + rate) == s + s * rate;
    assert (total - s) * rate == total * rate - s * rate;
  }

  lemma ShareDifference(a: real, b: real, rate: real)
    requires rate != -1.0
    ensures Share(b, rate) - Share(a, rate) == Share(b - a, rate)
  {
    var x, y, z := Share(a, rate), Share(b, rate), Share(b - a, rate);
    ShareEquation(a, rate);
    ShareEquation(b, rate);
    ShareEquation(b - a, rate);
    Distribute(b, a, rate);
    Distribute(y, x, 1.0 + rate);
    Distribute(y - x, z, 1.0 + rate);
    ZeroProduct(y - x - z, 1.0 + rate);
  }

  lemma Distribute(x: real, y: real, z: real)
    ensures (x - y) * z == x * z - y * z
  {
  }

  lemma ZeroProduct(x: real, y: real)
    requires x * y == 0.0 && y != 0.0
    ensures x == 0.0
  {
  }

  lemma ShareBounds(d: real, rate: real)
    requires d >= 0.0 && rate >= 0.0
    ensures 0.0 <= Share(d, rate)
    ensures d > 0.0 ==> Share(d, rate) < d
  {
    var s := Share(d, rate);
    ShareEquation(d, rate);
    assert d * rate >= 0.0;
    if s < 0.0 {
      NegativeProduct(s, 1.0 + rate);
    }
    if d > 0.0 && s >= d {
      ProductMonotone(d, s, 1.0 + rate);
      assert d * (1.0 + rate) == d + d * rate;
    }
  }

  lemma NegativeProduct(x: real, y: real)
    requires x < 0.0 && y > 0.0
    ensures x * y < 0.0
  {
  }

  lemma ProductMonotone(x: real, y: real, z: real)
    requires x <= y && z >= 0.0
    ensures x * z <= y * z
  {
    assert (y - x) * z >= 0.0;
  }

  /** Subtotal and tax add up, and the tax is the exact share to within half a kobo. */
  lemma SplitIsExact(total: real, rate: real)
    requires rate != -1.0
    ensures var s := ExtractInclusiveTax(total, rate);
      s.subtotal + s.tax == total && -0.5 <= s.tax - Share(total, rate) <= 0.5
  {
    RoundNearest(Share(total, rate));
  }

  lemma TaxMonotone(a: real, b: real, rate: real)
    requires a <= b && rate >= 0.0
    ensures ExtractInclusiveTax(a, rate).tax <= ExtractInclusiveTax(b, rate).tax
  {
    ShareDifference(a, b, rate);
    ShareBounds(b - a, rate);
    RoundMonotone(Share(a, rate), Share(b, rate));
  }

  // ---- When the subtotal rises with the total ----

  predicate KeepsSubtotal(a: real, d: real, rate: real)
    requires rate != -1.0
  {
    ExtractInclusiveTax(a, rate).subtotal <= ExtractInclusiveTax(a + d, rate).subtotal
  }

  /** Raising a total by d never lowers its subtotal. */
  ghost predicate NeverDrops(d: real, rate: real)
    requires rate != -1.0
  {
    forall a :: KeepsSubtotal(a, d, rate)
  }

  /** The same for totals that are not negative, such as those of the selected invoices. */
  ghost predicate NeverDropsFromZero(d: real, rate: real)
    requires rate != -1.0
  {
    forall a :: a >= 0.0 ==> KeepsSubtotal(a, d, rate)
  }

  function Ceil(x: real): int {
    -((-x).Floor)
  }

  /** The total whose exact share is x. */
  function TotalOf(x: real, rate: real): real
    requires rate > 0.0
  {
    x * (1.0 + rate) / rate
  }

  lemma ShareOfTotal(x: real, rate: real)
    requires rate > 0.0
    ensures Share(TotalOf(x, rate), rate) == x
    ensures x >= 0.0 ==> TotalOf(x, rate) >= 0.0
  {
    var total := TotalOf(x, rate);
    assert total * rate == x * (1.0 + rate);
    assert x >= 0.0 ==> x * (1.0 + rate) >= 0.0;
  }

  /** The subtotal drops where the rounded tax rises by more than the total. */
  lemma KeepsSubtotalIff(a: real, d: real, rate: real)
    requires rate > 0.0
    ensures KeepsSubtotal(a, d, rate)
       <==> (RoundHalfUp(Share(a, rate) + Share(d, rate)) - RoundHalfUp(Share(a, rate))) as real <= d
  {
    ShareDifference(a, a + d, rate);
    assert a + d - a == d;
  }

  /** The steepest rise of the rounded tax, on any totals: from the tie at minus half a kobo. */
  lemma SteepestRise(x: real)
    requires x > 0.0
    ensures RoundHalfUp(-0.5 + x) - RoundHalfUp(-0.5) == x.Floor + 1
  {
    assert (0.5 + 0.5).Floor == 1;
    if x >= 0.5 {
      assert -0.5 + x + 0.5 == x;
    } else {
      assert (-(-0.5 + x) + 0.5).Floor == 0;
    }
  }

  /** The steepest rise from a total that is not negative. */
  lemma SteepestRiseFromZero(x: real) returns (from: real)
    requires x >= 0.0
    ensures from >= 0.0 && RoundHalfUp(from + x) - RoundHalfUp(from) == Ceil(x)
  {
    var f := x - x.Floor as real;
    if f == 0.0 {
      from := 0.0;
      assert (x + 0.5).Floor == x.Floor && (-x).Floor == -x.Floor;
    } else {
      from := 1.5 - f;
      assert from + 0.5 == 2.0 - f && (2.0 - f).Floor == 1;
      assert from + x + 0.5 == 2.0 + x.Floor as real;
      assert (-x).Floor == -x.Floor - 1;
    }
  }

  lemma GentleRise(from: real, x: real)
    requires from >= 0.0 && x >= 0.0
    ensures RoundHalfUp(from + x) - RoundHalfUp(from) <= Ceil(x)
  {
    var n := Ceil(x);
    assert x <= n as real;
    assert (from + n as real + 0.5).Floor == (from + 0.5).Floor + n;
  }

  /** The share of the rise, rounded down, and one kobo more are within the rise. */
  predicate RiseFits(d: real, rate: real)
    requires rate != -1.0
  {
    rate == 0.0 || d == 0.0 || (Share(d, rate).Floor + 1) as real <= d
  }

  /** Exactly which rises of a total can never lower its subtotal. */
  lemma NeverDropsIff(d: real, rate: real)
    requires d >= 0.0 && rate >= 0.0
    ensures NeverDrops(d, rate) <==> RiseFits(d, rate)
  {
    if rate > 0.0 && d > 0.0 {
      var x := Share(d, rate);
      SharePositive(d, rate);
      forall a ensures (x.Floor + 1) as real <= d ==> KeepsSubtotal(a, d, rate) {
        KeepsSubtotalIff(a, d, rate);
        RoundGap(Share(a, rate), Share(a, rate) + x, x.Floor + 1);
      }
      var worst := TotalOf(-0.5, rate);
      ShareOfTotal(-0.5, rate);
      SteepestRise(x);
      KeepsSubtotalIff(worst, d, rate);
      assert NeverDrops(d, rate) ==> KeepsSubtotal(worst, d, rate);
    }
  }

  lemma SharePositive(d: real, rate: real)
    requires d > 0.0 && rate > 0.0
    ensures Share(d, rate) > 0.0
  {
    ShareEquation(d, rate);
    ShareBounds(d, rate);
    assert d * rate > 0.0;
    PositiveFactor(Share(d, rate), 1.0 + rate);
  }

  lemma PositiveFactor(x: real, y: real)
    requires x >= 0.0 && x * y > 0.0
    ensures x > 0.0
  {
  }

  /** The share of the rise, rounded up, is within the rise. */
  predicate RiseFitsFromZero(d: real, rate: real)
    requires rate != -1.0
  {
    Ceil(Share(d, rate)) as real <= d
  }

  /** Exactly which rises can never lower it on totals that are not negative. */
  lemma NeverDropsFromZeroIff(d: real, rate: real)
    requires d >= 0.0 && rate >= 0.0
    ensures NeverDropsFromZero(d, rate) <==> RiseFitsFromZero(d, rate)
  {
    var x := Share(d, rate);
    ShareBounds(d, rate);
    if rate == 0.0 {
      assert x == 0.0;
    } else {
      forall a | a >= 0.0 ensures Ceil(x) as real <= d ==> KeepsSubtotal(a, d, rate) {
        KeepsSubtotalIff(a, d, rate);
        ShareBounds(a, rate);
        GentleRise(Share(a, rate), x);
      }
      var from := SteepestRiseFromZero(x);
      var worst := TotalOf(from, rate);
      ShareOfTotal(from, rate);
      KeepsSubtotalIff(worst, d, rate);
      assert NeverDropsFromZero(d, rate) ==> KeepsSubtotal(worst, d, rate);
    }
  }

  /** At rates up to 100% the rises that never lower a subtotal are those of at least one kobo, on any totals. */
  lemma KoboRisesKeepSubtotals(d: real, rate: real)
    requires d >= 0.0 && 0.0 < rate <= 1.0
    ensures NeverDrops(d, rate) <==> d == 0.0 || d >= 1.0
    ensures NeverDropsFromZero(d, rate) <==> d == 0.0 || d >= 1.0
  {
    NeverDropsIff(d, rate);
    NeverDropsFromZeroIff(d, rate);
    KoboRisesFit(d, rate);
  }

  lemma KoboRisesFit(d: real, rate: real)
    requires d >= 0.0 && 0.0 < rate <= 1.0
    ensures RiseFits(d, rate) <==> d == 0.0 || d >= 1.0
    ensures RiseFitsFromZero(d, rate) <==> d == 0.0 || d >= 1.0
  {
    if d > 0.0 {
      SharePositive(d, rate);
      HalfShare(d, rate);
      RoundedHalf(Share(d, rate), d);
    } else {
      assert Share(d, rate) == 0.0;
    }
  }

  lemma RoundedHalf(x: real, d: real)
    requires 0.0 < x <= d / 2.0
    ensures (x.Floor + 1) as real <= d <==> d >= 1.0
    ensures Ceil(x) as real <= d <==> d >= 1.0
  {
    assert Ceil(x) >= 1 && Ceil(x) <= x.Floor + 1;
  }

  lemma HalfShare(d: real, rate: real)
    requires d >= 0.0 && 0.0 < rate <= 1.0
    ensures Share(d, rate) <= d / 2.0
  {
    var x := Share(d, rate);
    ShareEquation(d, rate);
    ShareBounds(d, rate);
    ProductMonotone(rate, 1.0, d - x);
    assert x == (d - x) * rate && rate * (d - x) == (d - x) * rate;
  }

  /** Between whole-kobo totals the subtotal never drops, at any rate. */
  lemma SubtotalMonotone(a: int, b: int, rate: real)
    requires a <= b && rate >= 0.0
    ensures ExtractInclusiveTax(a as real, rate).subtotal <= ExtractInclusiveTax(b as real, rate).subtotal
  {
    WholeRise(b - a, rate);
    assert KeepsSubtotal(a as real, (b - a) as real, rate);
    assert a as real + (b - a) as real == b as real;
  }

  lemma WholeRise(n: int, rate: real)
    requires n >= 0 && rate >= 0.0
    ensures NeverDrops(n as real, rate)
  {
    NeverDropsIff(n as real, rate);
    WholeRiseFits(n, rate);
  }

  lemma WholeRiseFits(n: int, rate: real)
    requires n >= 0 && rate >= 0.0
    ensures RiseFits(n as real, rate)
  {
    ShareBounds(n as real, rate);
    if n > 0 {
      FloorBelow(Share(n as real, rate), n);
    }
  }

  lemma FloorBelow(x: real, n: int)
    requires x < n as real
    ensures x.Floor + 1 <= n
  {
  }

  /** At 7.5%, between the totals of 7.16 and 7.17 kobo it does. */
  lemma SubKoboSubtotalDrops()
    ensures ExtractInclusiveTax(7.16, 0.075).subtotal > ExtractInclusiveTax(7.17, 0.075).subtotal
    ensures !NeverDropsFromZero(0.01, 0.075)
  {
    ShareEquation(7.16, 0.075);
    ShareEquation(7.17, 0.075);
    assert RoundHalfUp(Share(7.16, 0.075)) == 0 && RoundHalfUp(Share(7.17, 0.075)) == 1;
    KoboRisesKeepSubtotals(0.01, 0.075);
  }

  /** Charging the rate on the subtotal gives the tax back to within a kobo. */
  predicate TaxRecovered(s: Split, rate: real) {
    -1.0 <= RoundHalfUp(s.subtotal * rate) as real - s.tax <= 1.0
  }

  /** The tax is recovered for any rate below 200%. */
  lemma ReapplyingRate(total: real, rate: real)
    requires 0.0 <= rate < 2.0
    ensures TaxRecovered(ExtractInclusiveTax(total, rate), rate)
  {
    var s := ExtractInclusiveTax(total, rate);
    if rate == 0.0 {
      ZeroRate(s, rate);
    } else {
      RecoveredAfterRounding(s, total, rate, RoundHalfUp(Share(total, rate)));
    }
  }

  lemma ZeroRate(s: Split, rate: real)
    requires rate == 0.0 && s.tax == 0.0
    ensures TaxRecovered(s, rate)
  {
    assert s.subtotal * rate == 0.0;
  }

  lemma RecoveredAfterRounding(s: Split, total: real, rate: real, tax: int)
    requires 0.0 < rate < 2.0 && tax == RoundHalfUp(Share(total, rate))
    requires s.subtotal == total - tax as real && s.tax == tax as real
    ensures TaxRecovered(s, rate)
  {
    RoundNearest(Share(total, rate));
    ReappliedError(total, s.tax, rate);
    ScaledError(Share(total, rate) - s.tax, rate);
    SameProduct(s.subtotal, total - s.tax, rate);
    NearInteger(s.subtotal * rate, tax);
  }

  lemma SameProduct(x: real, y: real, z: real)
    requires x == y
    ensures x * z == y * z
  {
  }

  lemma NearInteger(x: real, n: int)
    requires -1.5 < x - n as real < 1.5
    ensures -1.0 <= RoundHalfUp(x) as real - n as real <= 1.0
  {
    RoundNearInteger(x, n);
  }

  /** The error of the reapplied rate is the rounding error, grown by the rate. */
  lemma ReappliedError(total: real, tax: real, rate: real)
    requires rate != -1.0
    ensures (total - tax) * rate - tax == (Share(total, rate) - tax) * (1.0 + rate)
  {
    ShareEquation(total, rate);
    Distribute(total, tax, rate);
    Distribute(Share(total, rate), tax, 1.0 + rate);
  }

  lemma ScaledError(e: real, rate: real)
    requires -0.5 <= e <= 0.5 && 0.0 <= rate < 2.0
    ensures -1.5 < e * (1.0 + rate) < 1.5
  {
    ProductMonotone(e, 0.5, rate);
    ProductMonotone(-0.5, e, rate);
  }

  // ---- The backfill ----

  datatype Invoice = Invoice(org: Id, fromSplynx: bool, total: real, subtotal: real, tax: real)

  datatype Line = Line(invoice: Id, amount: real, tax: real, code: Option<Id>)

  datatype LineTax = LineTax(base: real, rate: real, tax: real)

  datatype TaxCode = TaxCode(id: Id, rate: real, inclusive: bool)

  /** lineTaxes holds the tax record of a (line, tax code) that has one. */
  datatype Books = Books(invoices: map<Id, Invoice>, lines: map<Id, Line>, lineTaxes: map<(Id, Id), LineTax>)

  function Selected(b: Books, org: Id): set<Id> {
    set i | i in b.invoices && b.invoices[i].org == org && b.invoices[i].fromSplynx
            && b.invoices[i].tax == 0.0 && b.invoices[i].total > 0.0
  }

  function LinesOf(b: Books, invoices: set<Id>): set<Id> {
    set l | l in b.lines && b.lines[l].invoice in invoices
  }

  function Untaxed(b: Books, lines: set<Id>): set<Id> {
    set l | l in lines && l in b.lines && b.lines[l].tax == 0.0
  }

  function WithoutRecord(b: Books, lines: set<Id>, code: Id): set<Id> {
    set l | l in Untaxed(b, lines) && (l, code) !in b.lineTaxes
  }

  function TaxInvoice(i: Invoice, rate: real): Invoice
    requires rate != -1.0
  {
    var s := ExtractInclusiveTax(i.total, rate);
    i.(subtotal := s.subtotal, tax := s.tax)
  }

  function TaxLine(l: Line, code: TaxCode): Line
    requires code.rate != -1.0
  {
    var s := ExtractInclusiveTax(l.amount + l.tax, code.rate);
    l.(amount := s.subtotal, tax := s.tax, code := Some(code.id))
  }

  function RecordOf(l: Line, code: TaxCode): LineTax
    requires code.rate != -1.0
  {
    LineTax(TaxLine(l, code).amount, code.rate, TaxLine(l, code).tax)
  }

  function TreatedInvoices(b: Books, invoices: set<Id>, code: TaxCode): map<Id, Invoice>
    requires code.rate != -1.0
  {
    map i | i in b.invoices :: if i in invoices then TaxInvoice(b.invoices[i], code.rate) else b.invoices[i]
  }

  function TreatedLines(b: Books, lines: set<Id>, code: TaxCode): map<Id, Line>
    requires code.rate != -1.0
  {
    map l | l in b.lines :: if l in Untaxed(b, lines) then TaxLine(b.lines[l], code) else b.lines[l]
  }

  function NewKeys(b: Books, lines: set<Id>, code: Id): set<(Id, Id)> {
    set l | l in WithoutRecord(b, lines, code) :: (l, code)
  }

  function TreatedRecords(b: Books, lines: set<Id>, code: TaxCode): map<(Id, Id), LineTax>
    requires code.rate != -1.0
  {
    map k | k in b.lineTaxes.Keys + NewKeys(b, lines, code.id) ::
      if k in b.lineTaxes then b.lineTaxes[k] else RecordOf(b.lines[k.0], code)
  }

  /** The given invoices and the untaxed ones of the given lines treated, everything else as it was. */
  function Treated(b: Books, invoices: set<Id>, lines: set<Id>, code: TaxCode): Books
    requires code.rate != -1.0
  {
    Books(TreatedInvoices(b, invoices, code), TreatedLines(b, lines, code), TreatedRecords(b, lines, code))
  }

  function Backfilled(b: Books, org: Id, code: TaxCode): Books
    requires code.rate != -1.0
  {
    if !code.inclusive then b else Treated(b, Selected(b, org), LinesOf(b, Selected(b, org)), code)
  }

  datatype Stats = Stats(checked: nat, invoicesUpdated: nat, linesUpdated: nat, recordsCreated: nat, skipped: nat)

  ghost predicate Lists(ids: seq<Id>, members: set<Id>) {
    && NoRepeats(ids)
    && (forall i :: 0 <= i < |ids| ==> ids[i] in members)
    && (forall id :: id in members ==> id in ids)
  }

  /** The line loop's body; b is the state before the run. */
  method BackfillLine(db: Session<Books>, ghost b: Books, id: Id, code: TaxCode, dryRun: bool, ghost invoices: set<Id>, ghost done: set<Id>)
    returns (updated: bool, created: bool)
    requires code.rate != -1.0 && id in b.lines && id !in done && done <= b.lines.Keys
    requires db.current == if dryRun then b else Treated(b, invoices, done, code)
    modifies db`current
    ensures db.current == if dryRun then b else Treated(b, invoices, done + {id}, code)
    ensures updated <==> b.lines[id].tax == 0.0
    ensures created <==> updated && (id, code.id) !in b.lineTaxes
  {
    updated, created := false, false;
    var line := db.current.lines[id];
    assert line == b.lines[id];
    assert (id, code.id) in db.current.lineTaxes <==> (id, code.id) in b.lineTaxes;
    if line.tax != 0.0 {
      assert Untaxed(b, done + {id}) == Untaxed(b, done);
      return;
    }
    updated := true;
    var split := ExtractInclusiveTax(line.amount + line.tax, code.rate);
    if !dryRun {
      db.Write(db.current.(lines := db.current.lines[id := Line(line.invoice, split.subtotal, split.tax, Some(code.id))]));
    }
    if (id, code.id) !in db.current.lineTaxes {
      if !dryRun {
        db.Write(db.current.(lineTaxes :=
          db.current.lineTaxes[(id, code.id) := LineTax(split.subtotal, code.rate, split.tax)]));
      }
      created := true;
    }
    if !dryRun {
      NextTreatedLine(b, done, id, code);
      NextTreatedRecord(b, done, id, code);
    }
  }

  lemma NextTreatedLine(b: Books, done: set<Id>, id: Id, code: TaxCode)
    requires code.rate != -1.0 && id in b.lines && b.lines[id].tax == 0.0
    ensures TreatedLines(b, done + {id}, code) == TreatedLines(b, done, code)[id := TaxLine(b.lines[id], code)]
  {
    assert Untaxed(b, done + {id}) == Untaxed(b, done) + {id};
  }

  lemma NextTreatedRecord(b: Books, done: set<Id>, id: Id, code: TaxCode)
    requires code.rate != -1.0 && id in b.lines && b.lines[id].tax == 0.0
    ensures TreatedRecords(b, done + {id}, code)
         == if (id, code.id) in b.lineTaxes then TreatedRecords(b, done, code)
            else TreatedRecords(b, done, code)[(id, code.id) := RecordOf(b.lines[id], code)]
  {
    assert Untaxed(b, done + {id}) == Untaxed(b, done) + {id};
    if (id, code.id) in b.lineTaxes {
      assert WithoutRecord(b, done + {id}, code.id) == WithoutRecord(b, done, code.id);
    } else {
      assert WithoutRecord(b, done + {id}, code.id) == WithoutRecord(b, done, code.id) + {id};
      assert NewKeys(b, done + {id}, code.id) == NewKeys(b, done, code.id) + {(id, code.id)};
    }
  }

  method BackfillLines(db: Session<Books>, ghost b: Books, ids: seq<Id>, code: TaxCode, dryRun: bool, ghost invoices: set<Id>, ghost done: set<Id>)
    returns (linesUpdated: nat, recordsCreated: nat, skipped: nat)
    requires code.rate != -1.0 && done <= b.lines.Keys
    requires NoRepeats(ids)
    requires forall i :: 0 <= i < |ids| ==> ids[i] in b.lines && ids[i] !in done
    requires db.current == if dryRun then b else Treated(b, invoices, done, code)
    modifies db`current
    ensures db.current == if dryRun then b else Treated(b, invoices, done + Elements(ids), code)
    ensures linesUpdated == |Untaxed(b, Elements(ids))|
    ensures recordsCreated == |WithoutRecord(b, Elements(ids), code.id)|
    ensures skipped == |ids| - linesUpdated
  {
    linesUpdated, recordsCreated, skipped := 0, 0, 0;
    assert done + Elements(ids[..0]) == done;
    for i := 0 to |ids|
      invariant db.current == if dryRun then b else Treated(b, invoices, done + Elements(ids[..i]), code)
      invariant linesUpdated == |Untaxed(b, Elements(ids[..i]))|
      invariant recordsCreated == |WithoutRecord(b, Elements(ids[..i]), code.id)|
      invariant skipped == i - linesUpdated
    {
      NextElement(b, ids, i, code.id);
      NextDone(b, ids, i, done);
      var updated, created := BackfillLine(db, b, ids[i], code, dryRun, invoices, done + Elements(ids[..i]));
      if updated { linesUpdated := linesUpdated + 1; } else { skipped := skipped + 1; }
      if created { recordsCreated := recordsCreated + 1; }
    }
    assert ids[..|ids|] == ids;
  }

  lemma NextDone(b: Books, ids: seq<Id>, i: nat, done: set<Id>)
    requires i < |ids| && NoRepeats(ids)
    requires done <= b.lines.Keys && forall j :: 0 <= j < |ids| ==> ids[j] in b.lines && ids[j] !in done
    ensures done + Elements(ids[..i + 1]) == done + Elements(ids[..i]) + {ids[i]}
    ensures ids[i] !in done + Elements(ids[..i]) && done + Elements(ids[..i]) <= b.lines.Keys
  {
    assert ids[..i + 1] == ids[..i] + [ids[i]];
  }

  lemma NextElement(b: Books, ids: seq<Id>, i: nat, code: Id)
    requires i < |ids| && ids[i] in b.lines && NoRepeats(ids)
    ensures Elements(ids[..i + 1]) == Elements(ids[..i]) + {ids[i]} && ids[i] !in Elements(ids[..i])
    ensures |Untaxed(b, Elements(ids[..i + 1]))| == |Untaxed(b, Elements(ids[..i]))| + (if b.lines[ids[i]].tax == 0.0 then 1 else 0)
    ensures |WithoutRecord(b, Elements(ids[..i + 1]), code)| == |WithoutRecord(b, Elements(ids[..i]), code)|
      + (if b.lines[ids[i]].tax == 0.0 && (ids[i], code) !in b.lineTaxes then 1 else 0)
  {
    assert ids[..i + 1] == ids[..i] + [ids[i]];
    OneMoreUntaxed(b, Elements(ids[..i]), ids[i]);
    OneMoreWithoutRecord(b, Elements(ids[..i]), ids[i], code);
  }

  lemma OneMoreUntaxed(b: Books, lines: set<Id>, id: Id)
    requires id !in lines && id in b.lines
    ensures |Untaxed(b, lines + {id})| == |Untaxed(b, lines)| + (if b.lines[id].tax == 0.0 then 1 else 0)
  {
    if b.lines[id].tax == 0.0 {
      assert Untaxed(b, lines + {id}) == Untaxed(b, lines) + {id};
    } else {
      assert Untaxed(b, lines + {id}) == Untaxed(b, lines);
    }
  }

  lemma OneMoreWithoutRecord(b: Books, lines: set<Id>, id: Id, code: Id)
    requires id !in lines && id in b.lines
    ensures |WithoutRecord(b, lines + {id}, code)| == |WithoutRecord(b, lines, code)|
      + (if b.lines[id].tax == 0.0 && (id, code) !in b.lineTaxes then 1 else 0)
  {
    if b.lines[id].tax == 0.0 && (id, code) !in b.lineTaxes {
      assert WithoutRecord(b, lines + {id}, code) == WithoutRecord(b, lines, code) + {id};
    } else {
      assert WithoutRecord(b, lines + {id}, code) == WithoutRecord(b, lines, code);
    }
  }

  /** Lines of the invoices already visited. */
  ghost function LinesSoFar(b: Books, ids: seq<Id>, n: nat): set<Id>
    requires n <= |ids|
  {
    LinesOf(b, Elements(ids[..n]))
  }

  /** One invoice of the loop, with all its lines. */
  method BackfillInvoice(db: Session<Books>, ghost b: Books, counted: Stats, ids: seq<Id>, n: nat, lines: seq<Id>, code: TaxCode, dryRun: bool)
    returns (stats: Stats)
    requires code.rate != -1.0 && n < |ids| && ids[n] in b.invoices
    requires NoRepeats(ids)
    requires Lists(lines, LinesOf(b, {ids[n]}))
    requires db.current == if dryRun then b else Treated(b, Elements(ids[..n]), LinesSoFar(b, ids, n), code)
    requires CountedSoFar(b, ids, n, code, counted)
    modifies db`current
    ensures db.current == if dryRun then b else Treated(b, Elements(ids[..n + 1]), LinesSoFar(b, ids, n + 1), code)
    ensures CountedSoFar(b, ids, n + 1, code, stats)
  {
    var id := ids[n];
    InvoiceTreated(b, ids, n, code);
    NextInvoiceLines(b, ids, n, lines, code.id);
    var split := ExtractInclusiveTax(db.current.invoices[id].total, code.rate);
    if !dryRun {
      db.Write(db.current.(invoices :=
        db.current.invoices[id := db.current.invoices[id].(subtotal := split.subtotal, tax := split.tax)]));
    }
    var updated, created, skipped :=
      BackfillLines(db, b, lines, code, dryRun, Elements(ids[..n + 1]), LinesSoFar(b, ids, n));
    stats := Stats(counted.checked, counted.invoicesUpdated + 1, counted.linesUpdated + updated,
                   counted.recordsCreated + created, counted.skipped + skipped);
  }

  /**
   backfill_org: invoices are visited in any order the database lists them, and
   so are the lines of each.  A dry run writes nothing and reports the same
   numbers.
   */
  method BackfillOrg(db: Session<Books>, org: Id, code: TaxCode, ids: seq<Id>, linesOf: Id -> seq<Id>, dryRun: bool)
    returns (stats: Stats)
    requires code.rate != -1.0
    requires Lists(ids, Selected(db.current, org)) && forall i: Id :: Lists(linesOf(i), LinesOf(db.current, {i}))
    modifies db`current
    ensures db.current == if dryRun then old(db.current) else Backfilled(old(db.current), org, code)
    ensures stats == StatsOf(old(db.current), org, code)
  {
    if !code.inclusive {
      return Stats(0, 0, 0, 0, 0);
    }
    ghost var b := db.current;
    stats := Stats(|ids|, 0, 0, 0, 0);
    NothingTreated(b, code);
    assert Elements(ids[..0]) == {} && LinesSoFar(b, ids, 0) == {};
    for n := 0 to |ids|
      invariant db.current == if dryRun then b else Treated(b, Elements(ids[..n]), LinesSoFar(b, ids, n), code)
      invariant CountedSoFar(b, ids, n, code, stats)
    {
      assert ids[n] in b.invoices && Lists(linesOf(ids[n]), LinesOf(b, {ids[n]}));
      stats := BackfillInvoice(db, b, stats, ids, n, linesOf(ids[n]), code, dryRun);
    }
    AllTreated(b, org, ids, code, stats);
  }

  lemma AllTreated(b: Books, org: Id, ids: seq<Id>, code: TaxCode, stats: Stats)
    requires code.rate != -1.0 && code.inclusive && Lists(ids, Selected(b, org))
    requires CountedSoFar(b, ids, |ids|, code, stats)
    ensures Treated(b, Elements(ids[..|ids|]), LinesSoFar(b, ids, |ids|), code) == Backfilled(b, org, code)
    ensures stats == StatsOf(b, org, code)
  {
    AllVisited(b, org, ids);
  }

  ghost predicate CountedSoFar(b: Books, ids: seq<Id>, n: nat, code: TaxCode, stats: Stats)
    requires n <= |ids|
  {
    var lines := LinesSoFar(b, ids, n);
    && stats.checked == |ids| && stats.invoicesUpdated == n
    && stats.linesUpdated == |Untaxed(b, lines)|
    && stats.recordsCreated == |WithoutRecord(b, lines, code.id)|
    && stats.skipped == |lines| - stats.linesUpdated
  }

  lemma AllVisited(b: Books, org: Id, ids: seq<Id>)
    requires Lists(ids, Selected(b, org))
    ensures Elements(ids[..|ids|]) == Selected(b, org) && |Selected(b, org)| == |ids|
    ensures LinesSoFar(b, ids, |ids|) == LinesOf(b, Selected(b, org))
  {
    assert ids[..|ids|] == ids;
    assert Elements(ids) == Selected(b, org);
    ElementsSize(ids);
  }

  function StatsOf(b: Books, org: Id, code: TaxCode): Stats {
    if !code.inclusive then Stats(0, 0, 0, 0, 0)
    else
      var invoices, lines := Selected(b, org), LinesOf(b, Selected(b, org));
      UntaxedAtMost(b, lines);
      Stats(|invoices|, |invoices|, |Untaxed(b, lines)|, |WithoutRecord(b, lines, code.id)|, |lines| - |Untaxed(b, lines)|)
  }

  lemma UntaxedAtMost(b: Books, lines: set<Id>)
    ensures |Untaxed(b, lines)| <= |lines|
  {
    var taxed := lines - Untaxed(b, lines);
    assert lines == Untaxed(b, lines) + taxed;
    assert |lines| == |Untaxed(b, lines)| + |taxed|;
  }

  lemma NothingTreated(b: Books, code: TaxCode)
    requires code.rate != -1.0
    ensures Treated(b, {}, {}, code) == b
  {
    assert TreatedInvoices(b, {}, code) == b.invoices;
    assert TreatedLines(b, {}, code) == b.lines;
    assert NewKeys(b, {}, code.id) == {};
    assert TreatedRecords(b, {}, code) == b.lineTaxes;
  }

  lemma InvoiceTreated(b: Books, ids: seq<Id>, n: nat, code: TaxCode)
    requires code.rate != -1.0 && n < |ids| && ids[n] in b.invoices
    requires NoRepeats(ids)
    ensures TreatedInvoices(b, Elements(ids[..n]), code)[ids[n]] == b.invoices[ids[n]]
    ensures TreatedInvoices(b, Elements(ids[..n + 1]), code)
         == TreatedInvoices(b, Elements(ids[..n]), code)[ids[n] := TaxInvoice(b.invoices[ids[n]], code.rate)]
  {
    assert ids[..n + 1] == ids[..n] + [ids[n]];
    assert ids[n] !in Elements(ids[..n]);
  }

  lemma NextInvoiceLines(b: Books, ids: seq<Id>, n: nat, lines: seq<Id>, code: Id)
    requires n < |ids| && NoRepeats(ids)
    requires Lists(lines, LinesOf(b, {ids[n]}))
    ensures LinesSoFar(b, ids, n + 1) == LinesSoFar(b, ids, n) + Elements(lines)
    ensures forall i :: 0 <= i < |lines| ==> lines[i] in b.lines && lines[i] !in LinesSoFar(b, ids, n)
    ensures |LinesSoFar(b, ids, n + 1)| == |LinesSoFar(b, ids, n)| + |lines|
    ensures |Untaxed(b, LinesSoFar(b, ids, n + 1))| == |Untaxed(b, LinesSoFar(b, ids, n))| + |Untaxed(b, Elements(lines))|
    ensures |WithoutRecord(b, LinesSoFar(b, ids, n + 1), code)|
         == |WithoutRecord(b, LinesSoFar(b, ids, n), code)| + |WithoutRecord(b, Elements(lines), code)|
  {
    assert ids[..n + 1] == ids[..n] + [ids[n]];
    assert ids[n] !in Elements(ids[..n]);
    assert Elements(ids[..n + 1]) == Elements(ids[..n]) + {ids[n]};
    var before, own := LinesSoFar(b, ids, n), Elements(lines);
    assert own == LinesOf(b, {ids[n]});
    assert before !! own;
    assert LinesSoFar(b, ids, n + 1) == before + own;
    ElementsSize(lines);
    assert Untaxed(b, before + own) == Untaxed(b, before) + Untaxed(b, own);
    assert WithoutRecord(b, before + own, code) == WithoutRecord(b, before, code) + WithoutRecord(b, own, code);
  }

  // ---- Header against lines ----

  function AmountTotal(lines: map<Id, Line>, ids: seq<Id>): real
    requires forall i :: 0 <= i < |ids| ==> ids[i] in lines
    decreases |ids|
  {
    if ids == [] then 0.0 else lines[ids[0]].amount + AmountTotal(lines, ids[1..])
  }

  function TaxTotal(lines: map<Id, Line>, ids: seq<Id>): real
    requires forall i :: 0 <= i < |ids| ==> ids[i] in lines
    decreases |ids|
  {
    if ids == [] then 0.0 else lines[ids[0]].tax + TaxTotal(lines, ids[1..])
  }

  /** Line l had no tax before, and has been split. */
  ghost predicate WasSplit(before: map<Id, Line>, after: map<Id, Line>, l: Id, rate: real)
    requires rate != -1.0
  {
    && l in before && l in after && before[l].tax == 0.0
    && after[l].amount == ExtractInclusiveTax(before[l].amount, rate).subtotal
    && after[l].tax == ExtractInclusiveTax(before[l].amount, rate).tax
  }

  lemma {:induction false} LinesAgainstShare(before: map<Id, Line>, after: map<Id, Line>, ids: seq<Id>, rate: real)
    requires forall i :: 0 <= i < |ids| ==> ids[i] in before && ids[i] in after
    requires rate != -1.0 && forall i :: 0 <= i < |ids| ==> WasSplit(before, after, ids[i], rate)
    ensures AmountTotal(after, ids) + TaxTotal(after, ids) == AmountTotal(before, ids)
    ensures -0.5 * (|ids| as real) <= TaxTotal(after, ids) - Share(AmountTotal(before, ids), rate) <= 0.5 * (|ids| as real)
    decreases |ids|
  {
    if ids == [] {
      assert Share(0.0, rate) == 0.0;
    } else {
      var rest := ids[1..];
      LinesAgainstShare(before, after, rest, rate);
      SplitIsExact(before[ids[0]].amount, rate);
      OneMoreLine(before[ids[0]].amount, AmountTotal(before, rest), TaxTotal(after, rest), |rest|, rate);
    }
  }

  lemma OneMoreLine(line: real, total: real, tax: real, n: int, rate: real)
    requires rate != -1.0 && -0.5 * (n as real) <= tax - Share(total, rate) <= 0.5 * (n as real)
    ensures -0.5 * ((n + 1) as real) <= ExtractInclusiveTax(line, rate).tax + tax - Share(line + total, rate) <= 0.5 * ((n + 1) as real)
  {
    SplitIsExact(line, rate);
    ShareDifference(line, line + total, rate);
    assert line + total - line == total;
  }

  lemma BackfilledLine(b: Books, org: Id, code: TaxCode, i: Id, l: Id)
    requires code.rate != -1.0 && code.inclusive && i in Selected(b, org)
    requires l in LinesOf(b, {i}) && b.lines[l].tax == 0.0
    ensures WasSplit(b.lines, Backfilled(b, org, code).lines, l, code.rate)
  {
    assert l in Untaxed(b, LinesOf(b, Selected(b, org)));
  }

  /**
   An invoice whose lines had no tax and sum to its total: after the backfill the
   lines still sum to it, and their taxes to the header tax within half a kobo
   per line and half a kobo more.
   */
  lemma LinesAgainstHeader(b: Books, org: Id, code: TaxCode, i: Id, ids: seq<Id>)
    requires code.rate != -1.0 && code.inclusive && i in Selected(b, org)
    requires Lists(ids, LinesOf(b, {i})) && forall k :: 0 <= k < |ids| ==> b.lines[ids[k]].tax == 0.0
    requires AmountTotal(b.lines, ids) == b.invoices[i].total
    ensures var t := Backfilled(b, org, code);
      && i in t.invoices && Lists(ids, LinesOf(t, {i}))
      && AmountTotal(t.lines, ids) + TaxTotal(t.lines, ids) == t.invoices[i].total == t.invoices[i].subtotal + t.invoices[i].tax
      && -0.5 * ((|ids| + 1) as real) <= TaxTotal(t.lines, ids) - t.invoices[i].tax <= 0.5 * ((|ids| + 1) as real)
  {
    var t := Backfilled(b, org, code);
    forall k | 0 <= k < |ids| ensures WasSplit(b.lines, t.lines, ids[k], code.rate) {
      BackfilledLine(b, org, code, i, ids[k]);
    }
    assert LinesOf(t, {i}) == LinesOf(b, {i});
    LinesAgainstShare(b.lines, t.lines, ids, code.rate);
    SplitIsExact(b.invoices[i].total, code.rate);
    assert t.invoices[i] == TaxInvoice(b.invoices[i], code.rate);
  }

  // ---- The result, column by column ----

  /** An invoice of the organisation from Splynx, without tax and with a positive total, when the code is inclusive. */
  predicate IsBackfilled(i: Invoice, org: Id, code: TaxCode) {
    code.inclusive && i.org == org && i.fromSplynx && i.tax == 0.0 && i.total > 0.0
  }

  /** A line without tax of such an invoice. */
  predicate IsLineBackfilled(b: Books, l: Id, org: Id, code: TaxCode) {
    && l in b.lines && b.lines[l].tax == 0.0
    && b.lines[l].invoice in b.invoices && IsBackfilled(b.invoices[b.lines[l].invoice], org, code)
  }

  lemma SelectedIff(b: Books, org: Id, code: TaxCode, i: Id)
    requires code.inclusive && i in b.invoices
    ensures i in Selected(b, org) <==> IsBackfilled(b.invoices[i], org, code)
  {
  }

  /** Every invoice that is not one of these stays as it was; these get their split. */
  lemma InvoicesAfter(b: Books, org: Id, code: TaxCode, i: Id)
    requires code.rate != -1.0 && i in b.invoices
    ensures i in Backfilled(b, org, code).invoices
    ensures var s := ExtractInclusiveTax(b.invoices[i].total, code.rate);
      Backfilled(b, org, code).invoices[i]
      == if IsBackfilled(b.invoices[i], org, code) then b.invoices[i].(subtotal := s.subtotal, tax := s.tax) else b.invoices[i]
  {
    if code.inclusive {
      SelectedIff(b, org, code, i);
    }
  }

  /** Every line that is not one of these stays as it was; these get their split and the code. */
  lemma LinesAfter(b: Books, org: Id, code: TaxCode, l: Id)
    requires code.rate != -1.0 && l in b.lines
    ensures l in Backfilled(b, org, code).lines
    ensures var s := ExtractInclusiveTax(b.lines[l].amount, code.rate);
      Backfilled(b, org, code).lines[l]
      == if IsLineBackfilled(b, l, org, code) then b.lines[l].(amount := s.subtotal, tax := s.tax, code := Some(code.id)) else b.lines[l]
  {
    if code.inclusive {
      assert l in Untaxed(b, LinesOf(b, Selected(b, org))) <==> IsLineBackfilled(b, l, org, code);
      assert b.lines[l].tax == 0.0 ==> b.lines[l].amount + b.lines[l].tax == b.lines[l].amount;
    }
  }

  /** No record is changed, and one is added for each of these lines that had none for the code. */
  lemma RecordsAfter(b: Books, org: Id, code: TaxCode, k: (Id, Id))
    requires code.rate != -1.0
    ensures k in b.lineTaxes ==> k in Backfilled(b, org, code).lineTaxes && Backfilled(b, org, code).lineTaxes[k] == b.lineTaxes[k]
    ensures k !in b.lineTaxes ==>
      (k in Backfilled(b, org, code).lineTaxes <==> IsLineBackfilled(b, k.0, org, code) && k.1 == code.id)
    ensures k !in b.lineTaxes && k in Backfilled(b, org, code).lineTaxes ==>
      var s := ExtractInclusiveTax(b.lines[k.0].amount, code.rate);
      Backfilled(b, org, code).lineTaxes[k] == LineTax(s.subtotal, code.rate, s.tax)
  {
    if code.inclusive {
      var lines := LinesOf(b, Selected(b, org));
      assert k.0 in Untaxed(b, lines) <==> IsLineBackfilled(b, k.0, org, code);
      assert k !in b.lineTaxes && k.1 == code.id ==> (k in NewKeys(b, lines, code.id) <==> k.0 in Untaxed(b, lines));
      if k.0 in Untaxed(b, lines) {
        assert b.lines[k.0].amount + b.lines[k.0].tax == b.lines[k.0].amount;
      }
    }
  }

  function InvoicesToTax(b: Books, org: Id, code: TaxCode): set<Id> {
    set i | i in b.invoices && IsBackfilled(b.invoices[i], org, code)
  }

  function LinesToVisit(b: Books, org: Id, code: TaxCode): set<Id> {
    set l | l in b.lines && b.lines[l].invoice in b.invoices && IsBackfilled(b.invoices[b.lines[l].invoice], org, code)
  }

  function LinesToTax(b: Books, org: Id, code: TaxCode): set<Id> {
    set l | l in b.lines && IsLineBackfilled(b, l, org, code)
  }

  /** The statistics count these invoices, their lines without and with tax, and the records added. */
  lemma StatsMean(b: Books, org: Id, code: TaxCode)
    requires code.rate != -1.0
    ensures var r := StatsOf(b, org, code);
      && r.checked == r.invoicesUpdated == |InvoicesToTax(b, org, code)|
      && r.linesUpdated == |LinesToTax(b, org, code)|
      && r.skipped + r.linesUpdated == |LinesToVisit(b, org, code)|
      && r.recordsCreated == |Backfilled(b, org, code).lineTaxes| - |b.lineTaxes|
  {
    if code.inclusive {
      var lines := LinesOf(b, Selected(b, org));
      assert InvoicesToTax(b, org, code) == Selected(b, org);
      assert LinesToVisit(b, org, code) == lines;
      assert LinesToTax(b, org, code) == Untaxed(b, lines);
      RecordsAdded(b, lines, code);
    } else {
      assert InvoicesToTax(b, org, code) == {};
      assert LinesToVisit(b, org, code) == {};
      assert LinesToTax(b, org, code) == {};
    }
  }

  lemma RecordsAdded(b: Books, lines: set<Id>, code: TaxCode)
    requires code.rate != -1.0
    ensures |TreatedRecords(b, lines, code)| == |b.lineTaxes| + |WithoutRecord(b, lines, code.id)|
  {
    var added := NewKeys(b, lines, code.id);
    var keyOf := (l: Id) => (l, code.id);
    forall k ensures k in added <==> exists l :: l in WithoutRecord(b, lines, code.id) && keyOf(l) == k {
      if k in added {
        assert keyOf(k.0) == k && k.0 in WithoutRecord(b, lines, code.id);
      }
    }
    ImageSize(WithoutRecord(b, lines, code.id), keyOf, added);
    assert TreatedRecords(b, lines, code).Keys == b.lineTaxes.Keys + added;
    assert b.lineTaxes.Keys !! added;
  }

  // ---- Running it twice ----

  lemma RetaxInvoice(i: Invoice, rate: real)
    requires rate != -1.0
    ensures TaxInvoice(TaxInvoice(i, rate), rate) == TaxInvoice(i, rate)
  {
  }

  lemma RetaxLine(l: Line, code: TaxCode)
    requires code.rate != -1.0 && l.tax == 0.0 && TaxLine(l, code).tax == 0.0
    ensures TaxLine(TaxLine(l, code), code) == TaxLine(l, code)
  {
  }

  /** A second run changes nothing, even where the tax rounded to zero and the invoice is selected again. */
  lemma SecondRunIsNoOp(b: Books, org: Id, code: TaxCode)
    requires code.rate != -1.0
    ensures Backfilled(Backfilled(b, org, code), org, code) == Backfilled(b, org, code)
  {
    if code.inclusive {
      var invoices, lines := Selected(b, org), LinesOf(b, Selected(b, org));
      var c := Treated(b, invoices, lines, code);
      assert Selected(c, org) <= invoices;
      SecondInvoices(b, c, Selected(c, org), code, org);
      SecondLines(b, c, lines, LinesOf(c, Selected(c, org)), code);
    }
  }

  lemma SecondInvoices(b: Books, c: Books, again: set<Id>, code: TaxCode, org: Id)
    requires code.rate != -1.0 && again <= Selected(b, org)
    requires c.invoices == TreatedInvoices(b, Selected(b, org), code)
    ensures TreatedInvoices(c, again, code) == c.invoices
  {
    forall i | i in c.invoices ensures TreatedInvoices(c, again, code)[i] == c.invoices[i] {
      if i in again {
        RetaxInvoice(b.invoices[i], code.rate);
      }
    }
  }

  lemma SecondLines(b: Books, c: Books, lines: set<Id>, again: set<Id>, code: TaxCode)
    requires code.rate != -1.0 && again <= lines && lines <= b.lines.Keys
    requires c.lines == TreatedLines(b, lines, code) && c.lineTaxes == TreatedRecords(b, lines, code)
    ensures TreatedLines(c, again, code) == c.lines
    ensures TreatedRecords(c, again, code) == c.lineTaxes
  {
    forall l | l in Untaxed(c, again) ensures TaxLine(c.lines[l], code) == c.lines[l] && (l, code.id) in c.lineTaxes {
      assert l in Untaxed(b, lines);
      RetaxLine(b.lines[l], code);
      if (l, code.id) !in b.lineTaxes {
        assert l in WithoutRecord(b, lines, code.id);
        assert (l, code.id) in NewKeys(b, lines, code.id);
      }
    }
    assert TreatedLines(c, again, code) == c.lines;
    assert WithoutRecord(c, again, code.id) == {};
    assert NewKeys(c, again, code.id) == {};
    assert TreatedRecords(c, again, code) == c.lineTaxes;
  }
}
