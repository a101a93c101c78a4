/**
 Reopening fiscal periods for a backfill and closing them again, in the two
 versions the scripts have: backfill_inventory_gl_postings.py remembers each
 period's original status, backfill_gl_postings.py remembers only which periods
 it opened.
 */
module FiscalPeriods {
  import opened Basics
  import opened Sessions
  import opened Calendar

  datatype PeriodStatus = Future | Open | SoftClosed | HardClosed | Reopened

  /** PeriodStatus.accepts_postings() */
  predicate Accepts(status: PeriodStatus) {
    status.Open? || status.Reopened?
  }

  /** yearCode and number identify the period in its fiscal year; dates are ordinals. */
  datatype Period = Period(org: Id, start: int, end: int, status: PeriodStatus, yearCode: int, number: int)

  datatype Restore = Restore(period: Id, original: PeriodStatus)

  datatype Ledger = Ledger(periods: map<Id, Period>, years: set<(Id, int)>)

  /** The statuses a script opens up. */
  const INVENTORY_REOPENS: set<PeriodStatus> := {Future, SoftClosed, HardClosed}
  const GL_REOPENS: set<PeriodStatus> := {SoftClosed, HardClosed}

  predicate Covers(p: Period, org: Id, day: int) {
    p.org == org && p.start <= day <= p.end
  }

  /** The SELECT for a covering period: some covering row if there is one. */
  type Finder = (map<Id, Period>, Id, int) -> Option<Id>

  ghost predicate Finds(find: Finder) {
    forall periods, org, day ::
      match find(periods, org, day)
      case None => forall id :: id in periods ==> !Covers(periods[id], org, day)
      case Some(id) => id in periods && Covers(periods[id], org, day)
  }

  /** uq_fiscal_period: another period of the same fiscal year has the number. */
  predicate NumberTaken(periods: map<Id, Period>, org: Id, yearCode: int, number: int) {
    exists id :: id in periods && periods[id].org == org && periods[id].yearCode == yearCode
                 && periods[id].number == number
  }

  /** A run of the walk: raised once a unique constraint has been violated. */
  datatype Walk = Walk(ledger: Ledger, restores: seq<Restore>, raised: bool)

  function VisitMonth(w: Walk, org: Id, k: nat, reopens: set<PeriodStatus>, find: Finder, newId: map<Id, Period> -> Id): Walk {
    if w.raised then w
    else
      var periods := w.ledger.periods;
      match find(periods, org, MonthStart(k))
      case Some(id) =>
        if id in periods && periods[id].status in reopens
        then w.(ledger := w.ledger.(periods := periods[id := periods[id].(status := Open)]),
                restores := w.restores + [Restore(id, periods[id].status)])
        else w
      case None =>
        if NumberTaken(periods, org, YearOf(k), MonthOf(k)) then w.(raised := true)
        else
          var month := Period(org, MonthStart(k), MonthEnd(k), Open, YearOf(k), MonthOf(k));
          w.(ledger := Ledger(periods[newId(periods) := month], w.ledger.years + {(org, YearOf(k))}))
  }

  function VisitMonths(w: Walk, org: Id, lo: nat, hi: int, reopens: set<PeriodStatus>, find: Finder, newId: map<Id, Period> -> Id): Walk
    decreases hi - lo
  {
    if lo > hi then w
    else VisitMonths(VisitMonth(w, org, lo, reopens, find, newId), org, lo + 1, hi, reopens, find, newId)
  }

  function VisitOrgs(w: Walk, orgs: seq<Id>, lo: nat, hi: int, reopens: set<PeriodStatus>, find: Finder, newId: map<Id, Period> -> Id): Walk
    decreases |orgs|
  {
    if orgs == [] then w
    else VisitOrgs(VisitMonths(w, orgs[0], lo, hi, reopens, find, newId), orgs[1..], lo, hi, reopens, find, newId)
  }

  // ---- The scripts' loops ----

  /** The loop body for month m of year y. */
  method VisitOneMonth(w: Walk, org: Id, y: nat, m: nat, reopens: set<PeriodStatus>, find: Finder, newId: map<Id, Period> -> Id)
    returns (r: Walk)
    requires y >= 1 && 1 <= m <= 12
    ensures MonthIndex(y, m) >= 0 && r == VisitMonth(w, org, MonthIndex(y, m), reopens, find, newId)
  {
    MonthIndexInverse(y, m);
    r := w;
    if w.raised {
      return;
    }
    var periods := w.ledger.periods;
    var monthStart := Ordinal(y, m, 1);
    var monthEnd := Ordinal(y, m, DaysInMonth(y, m));
    var found := find(periods, org, monthStart);
    if found.Some? {
      if found.value in periods && periods[found.value].status in reopens {
        r := r.(restores := r.restores + [Restore(found.value, periods[found.value].status)]);
        r := r.(ledger := r.ledger.(periods := periods[found.value := periods[found.value].(status := Open)]));
      }
    } else if NumberTaken(periods, org, y, m) {
      r := r.(raised := true);
    } else {
      if (org, y) !in r.ledger.years {
        r := r.(ledger := r.ledger.(years := r.ledger.years + {(org, y)}));
      }
      r := r.(ledger := r.ledger.(periods := periods[newId(periods) := Period(org, monthStart, monthEnd, Open, y, m)]));
      assert r.ledger.years == w.ledger.years + {(org, y)};
    }
  }

  /** One organisation's walk from (startY, startM) to (endY, endM), year and month as loop variables. */
  method WalkOrg(w: Walk, org: Id, startY: nat, startM: nat, endY: nat, endM: nat,
                 reopens: set<PeriodStatus>, find: Finder, newId: map<Id, Period> -> Id) returns (r: Walk)
    requires startY >= 1 && 1 <= startM <= 12 && endY >= 1 && 1 <= endM <= 12
    ensures r == VisitMonths(w, org, MonthIndex(startY, startM), MonthIndex(endY, endM), reopens, find, newId)
  {
    r := w;
    var y, m := startY, startM;
    while y < endY || (y == endY && m <= endM)
      invariant y >= 1 && 1 <= m <= 12
      invariant VisitMonths(r, org, MonthIndex(y, m), MonthIndex(endY, endM), reopens, find, newId)
             == VisitMonths(w, org, MonthIndex(startY, startM), MonthIndex(endY, endM), reopens, find, newId)
      decreases MonthIndex(endY, endM) - MonthIndex(y, m)
    {
      r := VisitOneMonth(r, org, y, m, reopens, find, newId);
      m := m + 1;
      if m > 12 {
        m, y := 1, y + 1;
      }
    }
  }

  /** Both prepare functions; a violated constraint leaves the transaction uncommitted. */
  method PrepareFiscalPeriods(db: Session<Ledger>, orgs: seq<Id>, startY: nat, startM: nat, endY: nat, endM: nat,
                              reopens: set<PeriodStatus>, find: Finder, newId: map<Id, Period> -> Id)
    returns (raised: bool, restores: seq<Restore>)
    requires startY >= 1 && 1 <= startM <= 12 && endY >= 1 && 1 <= endM <= 12
    modifies db
    ensures var w := VisitOrgs(Walk(old(db.current), [], false), orgs, MonthIndex(startY, startM), MonthIndex(endY, endM), reopens, find, newId);
      && raised == w.raised
      && (!raised ==> restores == w.restores && db.current == db.durable == w.ledger)
      && (raised ==> db.current == db.durable == old(db.durable))
  {
    var w := Walk(db.current, [], false);
    for i := 0 to |orgs|
      invariant db.durable == old(db.durable)
      invariant VisitOrgs(w, orgs[i..], MonthIndex(startY, startM), MonthIndex(endY, endM), reopens, find, newId)
             == VisitOrgs(Walk(old(db.current), [], false), orgs, MonthIndex(startY, startM), MonthIndex(endY, endM), reopens, find, newId)
    {
      w := WalkOrg(w, orgs[i], startY, startM, endY, endM, reopens, find, newId);
      assert orgs[i..][1..] == orgs[i + 1..];
    }
    raised, restores := w.raised, w.restores;
    if raised {
      db.Rollback();
    } else {
      db.Write(w.ledger);
      db.Commit();
    }
  }

  function PutStatus(periods: map<Id, Period>, id: Id, status: PeriodStatus): map<Id, Period> {
    if id in periods then periods[id := periods[id].(status := status)] else periods
  }

  /** Inventory: every recorded period back to its original status. */
  function RestoredInventory(periods: map<Id, Period>, restores: seq<Restore>): map<Id, Period>
    decreases |restores|
  {
    if restores == [] then periods
    else RestoredInventory(PutStatus(periods, restores[0].period, restores[0].original), restores[1..])
  }

  /** Generic backfill: every recorded period that is still OPEN becomes HARD_CLOSED. */
  function RestoredGl(periods: map<Id, Period>, ids: seq<Id>): map<Id, Period>
    decreases |ids|
  {
    if ids == [] then periods
    else RestoredGl(if ids[0] in periods && periods[ids[0]].status == Open
                    then PutStatus(periods, ids[0], HardClosed) else periods, ids[1..])
  }

  method RestoreInventoryFiscalPeriods(db: Session<Ledger>, restores: seq<Restore>)
    modifies db
    ensures db.current.periods == RestoredInventory(old(db.current.periods), restores)
    ensures db.current.years == old(db.current.years)
    ensures restores != [] ==> db.durable == db.current
  {
    if restores == [] {
      return;
    }
    for i := 0 to |restores|
      invariant RestoredInventory(db.current.periods, restores[i..]) == RestoredInventory(old(db.current.periods), restores)
      invariant db.current.years == old(db.current.years)
    {
      assert restores[i..][1..] == restores[i + 1..];
      if restores[i].period in db.current.periods {
        db.Write(db.current.(periods := PutStatus(db.current.periods, restores[i].period, restores[i].original)));
      }
    }
    db.Commit();
  }

  method RestoreFiscalPeriods(db: Session<Ledger>, ids: seq<Id>)
    modifies db
    ensures db.current.periods == RestoredGl(old(db.current.periods), ids)
    ensures db.current.years == old(db.current.years)
    ensures ids != [] ==> db.durable == db.current
  {
    if ids == [] {
      return;
    }
    for i := 0 to |ids|
      invariant RestoredGl(db.current.periods, ids[i..]) == RestoredGl(old(db.current.periods), ids)
      invariant db.current.years == old(db.current.years)
    {
      assert ids[i..][1..] == ids[i + 1..];
      if ids[i] in db.current.periods && db.current.periods[ids[i]].status == Open {
        db.Write(db.current.(periods := PutStatus(db.current.periods, ids[i], HardClosed)));
      }
    }
    db.Commit();
  }

  // ---- What the walk records ----

  ghost predicate Recorded(restores: seq<Restore>, id: Id) {
    exists i :: 0 <= i < |restores| && restores[i].period == id
  }

  /**
   The walk so far, from periods before: every recorded period existed before,
   was recorded once, with its original status, and is OPEN now; every other old
   period is as it was.
   */
  ghost predicate Faithful(before: map<Id, Period>, w: Walk, reopens: set<PeriodStatus>) {
    && before.Keys <= w.ledger.periods.Keys
    && (forall i :: 0 <= i < |w.restores| ==>
          && w.restores[i].period in before
          && w.restores[i].original == before[w.restores[i].period].status
          && w.restores[i].original in reopens)
    && (forall i, j :: 0 <= i < j < |w.restores| ==> w.restores[i].period != w.restores[j].period)
    && (forall id :: id in before && Recorded(w.restores, id) ==> w.ledger.periods[id] == before[id].(status := Open))
    && (forall id :: id in before && !Recorded(w.restores, id) ==> w.ledger.periods[id] == before[id])
    && (forall id :: id in w.ledger.periods && id !in before ==> w.ledger.periods[id].status == Open)
  }

  lemma ReopenFaithful(before: map<Id, Period>, w: Walk, id: Id, reopens: set<PeriodStatus>)
    requires Open !in reopens && Faithful(before, w, reopens)
    requires id in w.ledger.periods && w.ledger.periods[id].status in reopens
    ensures Faithful(before,
      w.(ledger := w.ledger.(periods := w.ledger.periods[id := w.ledger.periods[id].(status := Open)]),
         restores := w.restores + [Restore(id, w.ledger.periods[id].status)]), reopens)
  {
    var restores := w.restores + [Restore(id, w.ledger.periods[id].status)];
    assert id in before && !Recorded(w.restores, id);
    forall p: Id ensures Recorded(restores, p) <==> Recorded(w.restores, p) || p == id {
      RecordedAppend(w.restores, Restore(id, w.ledger.periods[id].status), p);
    }
  }

  lemma RecordedAppend(restores: seq<Restore>, r: Restore, p: Id)
    ensures Recorded(restores + [r], p) <==> Recorded(restores, p) || p == r.period
  {
    var all := restores + [r];
    assert all[|restores|] == r;
    if Recorded(restores, p) {
      var i :| 0 <= i < |restores| && restores[i].period == p;
      assert all[i].period == p;
    }
  }

  lemma CreateFaithful(before: map<Id, Period>, w: Walk, id: Id, p: Period, years: set<(Id, int)>, reopens: set<PeriodStatus>)
    requires Faithful(before, w, reopens) && id !in w.ledger.periods && p.status == Open
    ensures Faithful(before, w.(ledger := Ledger(w.ledger.periods[id := p], years)), reopens)
  {
  }

  lemma VisitMonthFaithful(before: map<Id, Period>, w: Walk, org: Id, k: nat, reopens: set<PeriodStatus>, find: Finder, newId: map<Id, Period> -> Id)
    requires Finds(find) && Generates(newId) && Open !in reopens && Faithful(before, w, reopens)
    ensures Faithful(before, VisitMonth(w, org, k, reopens, find, newId), reopens)
  {
    var periods := w.ledger.periods;
    if !w.raised {
      match find(periods, org, MonthStart(k))
      case Some(id) =>
        if id in periods && periods[id].status in reopens {
          ReopenFaithful(before, w, id, reopens);
        }
      case None =>
        if !NumberTaken(periods, org, YearOf(k), MonthOf(k)) {
          assert newId(periods) !in periods;
          CreateFaithful(before, w, newId(periods), Period(org, MonthStart(k), MonthEnd(k), Open, YearOf(k), MonthOf(k)),
                         w.ledger.years + {(org, YearOf(k))}, reopens);
        }
    }
  }

  lemma {:induction false} VisitMonthsFaithful(before: map<Id, Period>, w: Walk, org: Id, lo: nat, hi: int, reopens: set<PeriodStatus>, find: Finder, newId: map<Id, Period> -> Id)
    requires Finds(find) && Generates(newId) && Open !in reopens && Faithful(before, w, reopens)
    ensures Faithful(before, VisitMonths(w, org, lo, hi, reopens, find, newId), reopens)
    decreases hi - lo
  {
    if lo <= hi {
      VisitMonthFaithful(before, w, org, lo, reopens, find, newId);
      VisitMonthsFaithful(before, VisitMonth(w, org, lo, reopens, find, newId), org, lo + 1, hi, reopens, find, newId);
    }
  }

  /** No period is recorded twice, however many months it spans, and each record holds the true original status. */
  lemma {:induction false} WalkIsFaithful(before: map<Id, Period>, w: Walk, orgs: seq<Id>, lo: nat, hi: int, reopens: set<PeriodStatus>, find: Finder, newId: map<Id, Period> -> Id)
    requires Finds(find) && Generates(newId) && Open !in reopens && Faithful(before, w, reopens)
    ensures Faithful(before, VisitOrgs(w, orgs, lo, hi, reopens, find, newId), reopens)
    decreases |orgs|
  {
    if orgs == [] {
    } else {
      VisitMonthsFaithful(before, w, orgs[0], lo, hi, reopens, find, newId);
      WalkIsFaithful(before, VisitMonths(w, orgs[0], lo, hi, reopens, find, newId), orgs[1..], lo, hi, reopens, find, newId);
    }
  }

  // ---- Calendar coverage ----

  ghost predicate Disjoint(periods: map<Id, Period>, org: Id) {
    forall i, j :: i in periods && j in periods && i != j && periods[i].org == org && periods[j].org == org ==>
      periods[i].end < periods[j].start || periods[j].end < periods[i].start
  }

  /** The period is the run of whole months from a to b. */
  ghost predicate SpansMonths(p: Period, a: nat, b: nat) {
    a <= b && p.start == MonthStart(a) && p.end == MonthEnd(b)
  }

  ghost predicate Aligned(periods: map<Id, Period>, org: Id) {
    forall i :: i in periods && periods[i].org == org ==> exists a, b :: SpansMonths(periods[i], a, b)
  }

  ghost predicate CalendarShaped(periods: map<Id, Period>, org: Id) {
    Disjoint(periods, org) && Aligned(periods, org)
  }

  ghost predicate Uncovered(periods: map<Id, Period>, org: Id, k: nat) {
    forall i :: i in periods ==> !Covers(periods[i], org, MonthStart(k))
  }

  /** Month k would have to be created under a number that is taken. */
  ghost predicate Blocked(periods: map<Id, Period>, org: Id, k: nat) {
    Uncovered(periods, org, k) && NumberTaken(periods, org, YearOf(k), MonthOf(k))
  }

  /** Period i holds all of month k and is not in one of the given statuses. */
  ghost predicate HoldsMonth(periods: map<Id, Period>, org: Id, k: nat, excluded: set<PeriodStatus>, i: Id) {
    && i in periods && periods[i].org == org
    && periods[i].start <= MonthStart(k) && MonthEnd(k) <= periods[i].end
    && periods[i].status !in excluded
  }

  ghost predicate MonthReady(periods: map<Id, Period>, org: Id, k: nat, excluded: set<PeriodStatus>) {
    exists i :: HoldsMonth(periods, org, k, excluded, i)
  }

  lemma AlignedHoldsWholeMonth(periods: map<Id, Period>, org: Id, i: Id, k: nat)
    requires Aligned(periods, org) && i in periods && Covers(periods[i], org, MonthStart(k))
    ensures MonthEnd(k) <= periods[i].end
  {
    var a, b :| SpansMonths(periods[i], a, b);
    MonthOrder(k, b);
    MonthsAbut(b);
    if k < b {
      MonthOrder(k, b);
      MonthsAbut(b);
    }
  }

  lemma StatusKeepsShape(periods: map<Id, Period>, id: Id, org: Id)
    requires CalendarShaped(periods, org) && id in periods
    ensures CalendarShaped(periods[id := periods[id].(status := Open)], org)
  {
    var after := periods[id := periods[id].(status := Open)];
    forall i | i in after && after[i].org == org ensures exists a, b :: SpansMonths(after[i], a, b) {
      var a, b :| SpansMonths(periods[i], a, b);
      assert SpansMonths(after[i], a, b);
    }
  }

  /** An uncovered month overlaps no run of whole months. */
  lemma UncoveredIsApart(p: Period, org: Id, k: nat, a: nat, b: nat)
    requires SpansMonths(p, a, b) && p.org == org && !Covers(p, org, MonthStart(k))
    ensures p.end < MonthStart(k) || MonthEnd(k) < p.start
  {
    MonthOrder(a, k);
    MonthOrder(k, a);
  }

  lemma MonthStaysDisjoint(periods: map<Id, Period>, id: Id, month: Period, org: Id)
    requires Disjoint(periods, org) && id !in periods
    requires forall i :: i in periods && periods[i].org == org && month.org == org ==>
      periods[i].end < month.start || month.end < periods[i].start
    ensures Disjoint(periods[id := month], org)
  {
    var after := periods[id := month];
    assert after[id] == month;
    assert forall i :: i in periods ==> after[i] == periods[i];
  }

  lemma MonthStaysAligned(periods: map<Id, Period>, id: Id, month: Period, k: nat, org: Id)
    requires Aligned(periods, org) && id !in periods && SpansMonths(month, k, k)
    ensures Aligned(periods[id := month], org)
  {
    var after := periods[id := month];
    forall i | i in after && after[i].org == org ensures exists a, b :: SpansMonths(after[i], a, b) {
      if i != id {
        var a, b :| SpansMonths(periods[i], a, b);
        assert SpansMonths(after[i], a, b);
      }
    }
  }

  lemma NewMonthKeepsShape(periods: map<Id, Period>, id: Id, org: Id, k: nat, other: Id)
    requires CalendarShaped(periods, other) && id !in periods && Uncovered(periods, org, k)
    ensures CalendarShaped(periods[id := Period(org, MonthStart(k), MonthEnd(k), Open, YearOf(k), MonthOf(k))], other)
  {
    var month := Period(org, MonthStart(k), MonthEnd(k), Open, YearOf(k), MonthOf(k));
    forall i | i in periods && periods[i].org == other && month.org == other
      ensures periods[i].end < month.start || month.end < periods[i].start
    {
      var a, b :| SpansMonths(periods[i], a, b);
      UncoveredIsApart(periods[i], org, k, a, b);
    }
    MonthStaysDisjoint(periods, id, month, other);
    MonthStaysAligned(periods, id, month, k, other);
  }

  lemma VisitMonthKeepsShape(w: Walk, org: Id, k: nat, reopens: set<PeriodStatus>, find: Finder, newId: map<Id, Period> -> Id, other: Id)
    requires Finds(find) && Generates(newId) && CalendarShaped(w.ledger.periods, other)
    ensures CalendarShaped(VisitMonth(w, org, k, reopens, find, newId).ledger.periods, other)
  {
    var periods := w.ledger.periods;
    if !w.raised {
      match find(periods, org, MonthStart(k))
      case Some(id) =>
        assert id in periods;
        StatusKeepsShape(periods, id, other);
      case None =>
        assert newId(periods) !in periods;
        NewMonthKeepsShape(periods, newId(periods), org, k, other);
    }
  }

  lemma VisitMonthReadies(w: Walk, org: Id, k: nat, reopens: set<PeriodStatus>, find: Finder, newId: map<Id, Period> -> Id)
    requires Finds(find) && Generates(newId) && Open !in reopens
    requires !VisitMonth(w, org, k, reopens, find, newId).raised && CalendarShaped(w.ledger.periods, org)
    ensures MonthReady(VisitMonth(w, org, k, reopens, find, newId).ledger.periods, org, k, reopens)
  {
    var periods := w.ledger.periods;
    var r := VisitMonth(w, org, k, reopens, find, newId);
    match find(periods, org, MonthStart(k))
    case Some(id) =>
      assert id in periods && Covers(periods[id], org, MonthStart(k));
      AlignedHoldsWholeMonth(periods, org, id, k);
      assert HoldsMonth(r.ledger.periods, org, k, reopens, id);
    case None =>
      assert newId(periods) !in periods;
      assert HoldsMonth(r.ledger.periods, org, k, reopens, newId(periods));
  }

  lemma VisitMonthKeepsReady(w: Walk, org: Id, k: nat, reopens: set<PeriodStatus>, find: Finder, newId: map<Id, Period> -> Id, other: Id, j: nat)
    requires Finds(find) && Generates(newId) && Open !in reopens
    requires MonthReady(w.ledger.periods, other, j, reopens)
    ensures MonthReady(VisitMonth(w, org, k, reopens, find, newId).ledger.periods, other, j, reopens)
  {
    var i :| HoldsMonth(w.ledger.periods, other, j, reopens, i);
    assert newId(w.ledger.periods) !in w.ledger.periods;
    assert HoldsMonth(VisitMonth(w, org, k, reopens, find, newId).ledger.periods, other, j, reopens, i);
  }

  lemma {:induction false} VisitMonthsKeepShape(w: Walk, org: Id, lo: nat, hi: int, reopens: set<PeriodStatus>, find: Finder, newId: map<Id, Period> -> Id, other: Id)
    requires Finds(find) && Generates(newId) && CalendarShaped(w.ledger.periods, other)
    ensures CalendarShaped(VisitMonths(w, org, lo, hi, reopens, find, newId).ledger.periods, other)
    decreases hi - lo
  {
    if lo <= hi {
      VisitMonthKeepsShape(w, org, lo, reopens, find, newId, other);
      VisitMonthsKeepShape(VisitMonth(w, org, lo, reopens, find, newId), org, lo + 1, hi, reopens, find, newId, other);
    }
  }

  lemma {:induction false} VisitMonthsKeepReady(w: Walk, org: Id, lo: nat, hi: int, reopens: set<PeriodStatus>, find: Finder, newId: map<Id, Period> -> Id, other: Id, j: nat)
    requires Finds(find) && Generates(newId) && Open !in reopens && MonthReady(w.ledger.periods, other, j, reopens)
    ensures MonthReady(VisitMonths(w, org, lo, hi, reopens, find, newId).ledger.periods, other, j, reopens)
    decreases hi - lo
  {
    if lo <= hi {
      VisitMonthKeepsReady(w, org, lo, reopens, find, newId, other, j);
      VisitMonthsKeepReady(VisitMonth(w, org, lo, reopens, find, newId), org, lo + 1, hi, reopens, find, newId, other, j);
    }
  }

  // ---- When the walk raises ----

  lemma {:induction false} RaisedMonths(w: Walk, org: Id, lo: nat, hi: int, reopens: set<PeriodStatus>, find: Finder, newId: map<Id, Period> -> Id)
    requires w.raised
    ensures VisitMonths(w, org, lo, hi, reopens, find, newId) == w
    decreases hi - lo
  {
    if lo <= hi {
      RaisedMonths(w, org, lo + 1, hi, reopens, find, newId);
    }
  }

  lemma {:induction false} RaisedOrgs(w: Walk, orgs: seq<Id>, lo: nat, hi: int, reopens: set<PeriodStatus>, find: Finder, newId: map<Id, Period> -> Id)
    requires w.raised
    ensures VisitOrgs(w, orgs, lo, hi, reopens, find, newId) == w
    decreases |orgs|
  {
    if orgs == [] {
    } else {
      RaisedMonths(w, orgs[0], lo, hi, reopens, find, newId);
      RaisedOrgs(w, orgs[1..], lo, hi, reopens, find, newId);
    }
  }

  /** A new month covers and numbers no month but its own. */
  lemma NewMonthBlocks(periods: map<Id, Period>, id: Id, org: Id, k: nat, o: Id, j: nat)
    requires id !in periods && Uncovered(periods, org, k) && !Blocked(periods, org, k)
    ensures Blocked(periods[id := Period(org, MonthStart(k), MonthEnd(k), Open, YearOf(k), MonthOf(k))], o, j)
       <==> Blocked(periods, o, j)
  {
    var month := Period(org, MonthStart(k), MonthEnd(k), Open, YearOf(k), MonthOf(k));
    FirstDayInMonth(j, k);
    var sameMonth := o == org && j == k;
    assert Covers(month, o, MonthStart(j)) <==> sameMonth;
    assert month.org == o && month.yearCode == YearOf(j) && month.number == MonthOf(j) <==> sameMonth by {
      if YearOf(j) == YearOf(k) && MonthOf(j) == MonthOf(k) { SameMonth(j, k); }
    }
    OneMoreCovers(periods, id, month, o, j);
    OneMoreNumber(periods, id, month, o, YearOf(j), MonthOf(j));
  }

  lemma OneMoreCovers(periods: map<Id, Period>, id: Id, p: Period, o: Id, j: nat)
    requires id !in periods
    ensures Uncovered(periods[id := p], o, j) <==> Uncovered(periods, o, j) && !Covers(p, o, MonthStart(j))
  {
    var after := periods[id := p];
    assert after[id] == p;
    assert forall i :: i in periods ==> after[i] == periods[i];
  }

  lemma OneMoreNumber(periods: map<Id, Period>, id: Id, p: Period, o: Id, yearCode: int, number: int)
    requires id !in periods
    ensures NumberTaken(periods[id := p], o, yearCode, number)
       <==> NumberTaken(periods, o, yearCode, number) || (p.org == o && p.yearCode == yearCode && p.number == number)
  {
    var after := periods[id := p];
    assert after[id] == p;
    assert forall i :: i in periods ==> after[i] == periods[i];
  }

  lemma StatusBlocks(periods: map<Id, Period>, id: Id, o: Id, j: nat)
    requires id in periods
    ensures Blocked(periods[id := periods[id].(status := Open)], o, j) <==> Blocked(periods, o, j)
  {
    var after := periods[id := periods[id].(status := Open)];
    forall i | i in periods
      ensures Covers(after[i], o, MonthStart(j)) <==> Covers(periods[i], o, MonthStart(j))
      ensures after[i].yearCode == periods[i].yearCode && after[i].number == periods[i].number && after[i].org == periods[i].org
    {
    }
  }

  lemma VisitMonthRaisesIff(w: Walk, org: Id, k: nat, reopens: set<PeriodStatus>, find: Finder, newId: map<Id, Period> -> Id)
    requires Finds(find) && !w.raised
    ensures VisitMonth(w, org, k, reopens, find, newId).raised <==> Blocked(w.ledger.periods, org, k)
  {
    var periods := w.ledger.periods;
    match find(periods, org, MonthStart(k))
    case Some(id) => assert Covers(periods[id], org, MonthStart(k));
    case None => assert Uncovered(periods, org, k);
  }

  /** A month visited without a violation blocks no other month and frees none. */
  lemma VisitMonthBlocks(w: Walk, org: Id, k: nat, reopens: set<PeriodStatus>, find: Finder, newId: map<Id, Period> -> Id, o: Id, j: nat)
    requires Finds(find) && Generates(newId) && !VisitMonth(w, org, k, reopens, find, newId).raised
    ensures Blocked(VisitMonth(w, org, k, reopens, find, newId).ledger.periods, o, j) <==> Blocked(w.ledger.periods, o, j)
  {
    var periods := w.ledger.periods;
    VisitMonthRaisesIff(w, org, k, reopens, find, newId);
    match find(periods, org, MonthStart(k))
    case Some(id) =>
      assert id in periods;
      StatusBlocks(periods, id, o, j);
    case None =>
      assert Uncovered(periods, org, k) && newId(periods) !in periods;
      NewMonthBlocks(periods, newId(periods), org, k, o, j);
  }

  ghost predicate AnyBlocked(periods: map<Id, Period>, org: Id, lo: nat, hi: int) {
    exists k: nat :: lo <= k <= hi && Blocked(periods, org, k)
  }

  lemma FirstNotBlocked(before: map<Id, Period>, after: map<Id, Period>, org: Id, lo: nat, hi: int)
    requires forall k: nat :: Blocked(after, org, k) <==> Blocked(before, org, k)
    requires !Blocked(before, org, lo)
    ensures AnyBlocked(after, org, lo + 1, hi) <==> AnyBlocked(before, org, lo, hi)
  {
    if k: nat :| lo <= k <= hi && Blocked(before, org, k) {
      assert lo + 1 <= k && Blocked(after, org, k);
    }
  }

  lemma {:induction false} VisitMonthsRaiseIff(w: Walk, org: Id, lo: nat, hi: int, reopens: set<PeriodStatus>, find: Finder, newId: map<Id, Period> -> Id)
    requires Finds(find) && Generates(newId) && !w.raised
    ensures VisitMonths(w, org, lo, hi, reopens, find, newId).raised <==> AnyBlocked(w.ledger.periods, org, lo, hi)
    decreases hi - lo
  {
    if lo <= hi {
      var w1 := VisitMonth(w, org, lo, reopens, find, newId);
      VisitMonthRaisesIff(w, org, lo, reopens, find, newId);
      if w1.raised {
        RaisedMonths(w1, org, lo + 1, hi, reopens, find, newId);
      } else {
        VisitMonthsRaiseIff(w1, org, lo + 1, hi, reopens, find, newId);
        BlockedAfterMonth(w, org, lo, hi, reopens, find, newId);
      }
    }
  }

  lemma BlockedAfterMonth(w: Walk, org: Id, lo: nat, hi: int, reopens: set<PeriodStatus>, find: Finder, newId: map<Id, Period> -> Id)
    requires Finds(find) && Generates(newId) && !w.raised && !VisitMonth(w, org, lo, reopens, find, newId).raised
    ensures AnyBlocked(VisitMonth(w, org, lo, reopens, find, newId).ledger.periods, org, lo + 1, hi)
       <==> AnyBlocked(w.ledger.periods, org, lo, hi)
  {
    var before, after := w.ledger.periods, VisitMonth(w, org, lo, reopens, find, newId).ledger.periods;
    VisitMonthRaisesIff(w, org, lo, reopens, find, newId);
    forall k: nat ensures Blocked(after, org, k) <==> Blocked(before, org, k) {
      VisitMonthBlocks(w, org, lo, reopens, find, newId, org, k);
    }
    FirstNotBlocked(before, after, org, lo, hi);
  }

  lemma {:induction false} VisitMonthsBlock(w: Walk, org: Id, lo: nat, hi: int, reopens: set<PeriodStatus>, find: Finder, newId: map<Id, Period> -> Id, o: Id, j: nat)
    requires Finds(find) && Generates(newId) && !VisitMonths(w, org, lo, hi, reopens, find, newId).raised
    ensures Blocked(VisitMonths(w, org, lo, hi, reopens, find, newId).ledger.periods, o, j) <==> Blocked(w.ledger.periods, o, j)
    decreases hi - lo
  {
    if lo <= hi {
      var w1 := VisitMonth(w, org, lo, reopens, find, newId);
      if w1.raised {
        RaisedMonths(w1, org, lo + 1, hi, reopens, find, newId);
      } else {
        VisitMonthBlocks(w, org, lo, reopens, find, newId, o, j);
        VisitMonthsBlock(w1, org, lo + 1, hi, reopens, find, newId, o, j);
      }
    }
  }

  /**
   For any periods at all: the walk violates uq_fiscal_period iff some month to be
   walked lies in no period although its number in its year is taken.
   */
  lemma {:induction false} WalkRaisesIff(w: Walk, orgs: seq<Id>, lo: nat, hi: int, reopens: set<PeriodStatus>, find: Finder, newId: map<Id, Period> -> Id)
    requires Finds(find) && Generates(newId) && !w.raised
    ensures VisitOrgs(w, orgs, lo, hi, reopens, find, newId).raised
       <==> exists org :: org in orgs && AnyBlocked(w.ledger.periods, org, lo, hi)
    decreases |orgs|
  {
    if orgs == [] {
    } else {
      var w1 := VisitMonths(w, orgs[0], lo, hi, reopens, find, newId);
      assert orgs == [orgs[0]] + orgs[1..];
      VisitMonthsRaiseIff(w, orgs[0], lo, hi, reopens, find, newId);
      if w1.raised {
        RaisedOrgs(w1, orgs[1..], lo, hi, reopens, find, newId);
      } else {
        WalkRaisesIff(w1, orgs[1..], lo, hi, reopens, find, newId);
        forall org ensures AnyBlocked(w1.ledger.periods, org, lo, hi) <==> AnyBlocked(w.ledger.periods, org, lo, hi) {
          VisitMonthsBlockAny(w, orgs[0], lo, hi, reopens, find, newId, org);
        }
      }
    }
  }

  lemma VisitMonthsBlockAny(w: Walk, org: Id, lo: nat, hi: int, reopens: set<PeriodStatus>, find: Finder, newId: map<Id, Period> -> Id, o: Id)
    requires Finds(find) && Generates(newId) && !VisitMonths(w, org, lo, hi, reopens, find, newId).raised
    ensures AnyBlocked(VisitMonths(w, org, lo, hi, reopens, find, newId).ledger.periods, o, lo, hi)
       <==> AnyBlocked(w.ledger.periods, o, lo, hi)
  {
    var after := VisitMonths(w, org, lo, hi, reopens, find, newId).ledger.periods;
    forall k: nat ensures Blocked(after, o, k) <==> Blocked(w.ledger.periods, o, k) {
      VisitMonthsBlock(w, org, lo, hi, reopens, find, newId, o, k);
    }
  }

  lemma OnePeriodShaped(p: Period, a: nat)
    requires SpansMonths(p, a, a)
    ensures CalendarShaped(map[0 := p], p.org)
  {
    var periods: map<Id, Period> := map[0 := p];
    assert periods[0] == p;
  }

  lemma MisnumberedMonth(org: Id, k: nat) returns (periods: map<Id, Period>)
    ensures CalendarShaped(periods, org) && Blocked(periods, org, k)
  {
    var next, nextEnd := MonthStart(k + 1), MonthEnd(k + 1);
    FirstDayInMonth(k, k + 1);
    var p := Period(org, next, nextEnd, Open, YearOf(k), MonthOf(k));
    periods := map[0 := p];
    OnePeriodShaped(p, k + 1);
    OneMoreCovers(map[], 0, p, org, k);
    OneMoreNumber(map[], 0, p, org, YearOf(k), MonthOf(k));
    assert periods == map[][0 := p];
  }

  /** Disjoint, month-aligned periods are not enough: the next month under this month's number keeps this one from being created. */
  lemma WalkCanRaise(org: Id, k: nat, reopens: set<PeriodStatus>, find: Finder, newId: map<Id, Period> -> Id) returns (before: Ledger)
    requires Finds(find) && Generates(newId)
    ensures CalendarShaped(before.periods, org)
    ensures VisitOrgs(Walk(before, [], false), [org], k, k, reopens, find, newId).raised
  {
    var periods := MisnumberedMonth(org, k);
    before := Ledger(periods, {});
    assert AnyBlocked(periods, org, k, k);
    assert org in [org];
    WalkRaisesIff(Walk(before, [], false), [org], k, k, reopens, find, newId);
  }

  // ---- What a finished walk has made ready ----

  lemma {:induction false} VisitMonthsReady(w: Walk, org: Id, lo: nat, hi: int, reopens: set<PeriodStatus>, find: Finder, newId: map<Id, Period> -> Id, j: nat)
    requires Finds(find) && Generates(newId) && Open !in reopens
    requires CalendarShaped(w.ledger.periods, org) && lo <= j <= hi
    requires !VisitMonths(w, org, lo, hi, reopens, find, newId).raised
    ensures MonthReady(VisitMonths(w, org, lo, hi, reopens, find, newId).ledger.periods, org, j, reopens)
    decreases hi - lo
  {
    var w1 := VisitMonth(w, org, lo, reopens, find, newId);
    FirstDoesNotRaise(w, org, lo, hi, reopens, find, newId);
    if j == lo {
      FirstMonthReady(w, org, lo, hi, reopens, find, newId);
    } else {
      assert CalendarShaped(w1.ledger.periods, org) by {
        VisitMonthKeepsShape(w, org, lo, reopens, find, newId, org);
      }
      VisitMonthsReady(w1, org, lo + 1, hi, reopens, find, newId, j);
    }
  }

  lemma FirstDoesNotRaise(w: Walk, org: Id, lo: nat, hi: int, reopens: set<PeriodStatus>, find: Finder, newId: map<Id, Period> -> Id)
    requires lo <= hi && !VisitMonths(w, org, lo, hi, reopens, find, newId).raised
    ensures !VisitMonth(w, org, lo, reopens, find, newId).raised
  {
    var w1 := VisitMonth(w, org, lo, reopens, find, newId);
    if w1.raised {
      RaisedMonths(w1, org, lo + 1, hi, reopens, find, newId);
    }
  }

  lemma FirstMonthReady(w: Walk, org: Id, lo: nat, hi: int, reopens: set<PeriodStatus>, find: Finder, newId: map<Id, Period> -> Id)
    requires Finds(find) && Generates(newId) && Open !in reopens
    requires CalendarShaped(w.ledger.periods, org) && lo <= hi && !VisitMonth(w, org, lo, reopens, find, newId).raised
    ensures MonthReady(VisitMonths(w, org, lo, hi, reopens, find, newId).ledger.periods, org, lo, reopens)
  {
    var w1 := VisitMonth(w, org, lo, reopens, find, newId);
    VisitMonthReadies(w, org, lo, reopens, find, newId);
    VisitMonthsKeepReady(w1, org, lo + 1, hi, reopens, find, newId, org, lo);
  }

  lemma {:induction false} VisitOrgsReady(w: Walk, orgs: seq<Id>, lo: nat, hi: int, reopens: set<PeriodStatus>, find: Finder, newId: map<Id, Period> -> Id, done: set<Id>)
    requires Finds(find) && Generates(newId) && Open !in reopens
    requires !VisitOrgs(w, orgs, lo, hi, reopens, find, newId).raised
    requires forall org :: org in orgs || org in done ==> CalendarShaped(w.ledger.periods, org)
    requires forall org, j: nat :: org in done && lo <= j <= hi ==> MonthReady(w.ledger.periods, org, j, reopens)
    ensures var r := VisitOrgs(w, orgs, lo, hi, reopens, find, newId);
      forall org :: org in orgs || org in done ==> CalendarShaped(r.ledger.periods, org)
    ensures var r := VisitOrgs(w, orgs, lo, hi, reopens, find, newId);
      forall org, j: nat :: (org in orgs || org in done) && lo <= j <= hi ==> MonthReady(r.ledger.periods, org, j, reopens)
    decreases |orgs|
  {
    if orgs == [] {
    } else {
      var w1 := VisitMonths(w, orgs[0], lo, hi, reopens, find, newId);
      assert orgs[0] in orgs;
      assert !w1.raised by {
        if w1.raised { RaisedOrgs(w1, orgs[1..], lo, hi, reopens, find, newId); }
      }
      forall org | org in orgs || org in done ensures CalendarShaped(w1.ledger.periods, org) {
        VisitMonthsKeepShape(w, orgs[0], lo, hi, reopens, find, newId, org);
      }
      forall org, j: nat | (org == orgs[0] || org in done) && lo <= j <= hi
        ensures MonthReady(w1.ledger.periods, org, j, reopens)
      {
        if org == orgs[0] {
          VisitMonthsReady(w, org, lo, hi, reopens, find, newId, j);
        } else {
          VisitMonthsKeepReady(w, orgs[0], lo, hi, reopens, find, newId, org, j);
        }
      }
      forall org | org in orgs[1..] ensures org in orgs {}
      VisitOrgsReady(w1, orgs[1..], lo, hi, reopens, find, newId, done + {orgs[0]});
      assert forall org :: org in orgs ==> org == orgs[0] || org in orgs[1..];
    }
  }

  /** Period i is the one period of the organisation that holds the day. */
  ghost predicate TheOnlyPeriod(periods: map<Id, Period>, org: Id, day: int, i: Id) {
    i in periods && Covers(periods[i], org, day) && forall j :: j in periods && Covers(periods[j], org, day) ==> j == i
  }

  lemma ReadyDay(periods: map<Id, Period>, org: Id, lo: nat, hi: nat, day: int, excluded: set<PeriodStatus>) returns (i: Id)
    requires CalendarShaped(periods, org)
    requires forall j: nat :: lo <= j <= hi ==> MonthReady(periods, org, j, excluded)
    requires lo <= hi && MonthStart(lo) <= day <= MonthEnd(hi)
    ensures TheOnlyPeriod(periods, org, day, i) && periods[i].status !in excluded
  {
    var k := DayHasMonth(lo, hi, day);
    assert MonthReady(periods, org, k, excluded);
    i :| HoldsMonth(periods, org, k, excluded, i);
  }

  /**
   After an inventory walk that raised nothing, over any list of organisations with
   disjoint and month-aligned periods, these are still so, and every day from the
   first month to the last lies in exactly one period, which accepts postings.
   */
  lemma InventoryCoverage(before: Ledger, orgs: seq<Id>, lo: nat, hi: nat, find: Finder, newId: map<Id, Period> -> Id, org: Id, day: int)
    returns (i: Id)
    requires Finds(find) && Generates(newId) && lo <= hi && org in orgs
    requires forall o :: o in orgs ==> CalendarShaped(before.periods, o)
    requires MonthStart(lo) <= day <= MonthEnd(hi)
    requires forall o :: o in orgs ==> !AnyBlocked(before.periods, o, lo, hi)
    ensures var w := VisitOrgs(Walk(before, [], false), orgs, lo, hi, INVENTORY_REOPENS, find, newId);
      && !w.raised && CalendarShaped(w.ledger.periods, org)
      && TheOnlyPeriod(w.ledger.periods, org, day, i) && Accepts(w.ledger.periods[i].status)
      && w.ledger.periods[i].status in {Open, Reopened}
  {
    WalkRaisesIff(Walk(before, [], false), orgs, lo, hi, INVENTORY_REOPENS, find, newId);
    VisitOrgsReady(Walk(before, [], false), orgs, lo, hi, INVENTORY_REOPENS, find, newId, {});
    var w := VisitOrgs(Walk(before, [], false), orgs, lo, hi, INVENTORY_REOPENS, find, newId);
    i := ReadyDay(w.ledger.periods, org, lo, hi, day, INVENTORY_REOPENS);
  }

  /**
   The generic backfill leaves FUTURE periods alone: a day's only period accepts
   postings iff it is new or was not FUTURE.
   */
  lemma GlCoverage(before: Ledger, orgs: seq<Id>, lo: nat, hi: nat, find: Finder, newId: map<Id, Period> -> Id, org: Id, day: int)
    returns (i: Id)
    requires Finds(find) && Generates(newId) && lo <= hi && org in orgs
    requires forall o :: o in orgs ==> CalendarShaped(before.periods, o)
    requires MonthStart(lo) <= day <= MonthEnd(hi)
    requires forall o :: o in orgs ==> !AnyBlocked(before.periods, o, lo, hi)
    ensures var w := VisitOrgs(Walk(before, [], false), orgs, lo, hi, GL_REOPENS, find, newId);
      && !w.raised && CalendarShaped(w.ledger.periods, org)
      && TheOnlyPeriod(w.ledger.periods, org, day, i)
      && (Accepts(w.ledger.periods[i].status) <==> (i in before.periods ==> before.periods[i].status != Future))
      && (Accepts(w.ledger.periods[i].status) <==> w.ledger.periods[i].status in {Open, Reopened})
  {
    WalkRaisesIff(Walk(before, [], false), orgs, lo, hi, GL_REOPENS, find, newId);
    VisitOrgsReady(Walk(before, [], false), orgs, lo, hi, GL_REOPENS, find, newId, {});
    WalkIsFaithful(before.periods, Walk(before, [], false), orgs, lo, hi, GL_REOPENS, find, newId);
    var w := VisitOrgs(Walk(before, [], false), orgs, lo, hi, GL_REOPENS, find, newId);
    i := ReadyDay(w.ledger.periods, org, lo, hi, day, GL_REOPENS);
    NotFutureAccepts(before.periods, w, i);
  }

  lemma NotFutureAccepts(before: map<Id, Period>, w: Walk, i: Id)
    requires Faithful(before, w, GL_REOPENS) && i in w.ledger.periods && w.ledger.periods[i].status !in GL_REOPENS
    ensures Accepts(w.ledger.periods[i].status) <==> (i in before ==> before[i].status != Future)
  {
    if Recorded(w.restores, i) {
      var n :| 0 <= n < |w.restores| && w.restores[n].period == i;
      assert w.restores[n].original in GL_REOPENS;
    }
  }

  // ---- Which periods are reopened ----

  /** The period holds the first day of a month to be walked. */
  ghost predicate Walked(p: Period, orgs: seq<Id>, lo: nat, hi: int) {
    p.org in orgs && exists k: nat :: lo <= k <= hi && Covers(p, p.org, MonthStart(k))
  }

  ghost predicate OnlyWalked(before: map<Id, Period>, restores: seq<Restore>, orgs: seq<Id>, lo: nat, hi: int) {
    forall i :: 0 <= i < |restores| ==> restores[i].period in before && Walked(before[restores[i].period], orgs, lo, hi)
  }

  lemma VisitMonthOnlyWalked(before: map<Id, Period>, w: Walk, orgs: seq<Id>, lo: nat, hi: int,
                             org: Id, k: nat, reopens: set<PeriodStatus>, find: Finder, newId: map<Id, Period> -> Id)
    requires Finds(find) && Open !in reopens && Faithful(before, w, reopens)
    requires org in orgs && lo <= k <= hi && OnlyWalked(before, w.restores, orgs, lo, hi)
    ensures OnlyWalked(before, VisitMonth(w, org, k, reopens, find, newId).restores, orgs, lo, hi)
  {
    var periods := w.ledger.periods;
    if !w.raised && find(periods, org, MonthStart(k)).Some? {
      var id := find(periods, org, MonthStart(k)).value;
      assert id in periods && Covers(periods[id], org, MonthStart(k));
      if periods[id].status in reopens {
        assert id in before && before[id].org == org && Covers(before[id], org, MonthStart(k));
      }
    }
  }

  lemma {:induction false} VisitMonthsOnlyWalked(before: map<Id, Period>, w: Walk, orgs: seq<Id>, lo: nat, hi: int,
                                                 org: Id, k: nat, reopens: set<PeriodStatus>, find: Finder, newId: map<Id, Period> -> Id)
    requires Finds(find) && Generates(newId) && Open !in reopens && Faithful(before, w, reopens)
    requires org in orgs && lo <= k && OnlyWalked(before, w.restores, orgs, lo, hi)
    ensures OnlyWalked(before, VisitMonths(w, org, k, hi, reopens, find, newId).restores, orgs, lo, hi)
    decreases hi - k
  {
    if k <= hi {
      VisitMonthOnlyWalked(before, w, orgs, lo, hi, org, k, reopens, find, newId);
      VisitMonthFaithful(before, w, org, k, reopens, find, newId);
      VisitMonthsOnlyWalked(before, VisitMonth(w, org, k, reopens, find, newId), orgs, lo, hi, org, k + 1, reopens, find, newId);
    }
  }

  lemma {:induction false} VisitOrgsOnlyWalked(before: map<Id, Period>, w: Walk, orgs: seq<Id>, lo: nat, hi: int,
                                               rest: seq<Id>, reopens: set<PeriodStatus>, find: Finder, newId: map<Id, Period> -> Id)
    requires Finds(find) && Generates(newId) && Open !in reopens && Faithful(before, w, reopens)
    requires forall i :: 0 <= i < |rest| ==> rest[i] in orgs
    requires OnlyWalked(before, w.restores, orgs, lo, hi)
    ensures OnlyWalked(before, VisitOrgs(w, rest, lo, hi, reopens, find, newId).restores, orgs, lo, hi)
    decreases |rest|
  {
    if rest == [] {
    } else {
      VisitMonthsOnlyWalked(before, w, orgs, lo, hi, rest[0], lo, reopens, find, newId);
      VisitMonthsFaithful(before, w, rest[0], lo, hi, reopens, find, newId);
      VisitOrgsOnlyWalked(before, VisitMonths(w, rest[0], lo, hi, reopens, find, newId), orgs, lo, hi, rest[1..], reopens, find, newId);
    }
  }

  /** The walk reopens exactly the closed periods that hold the first day of a walked month. */
  lemma ReopenedIff(before: Ledger, orgs: seq<Id>, lo: nat, hi: int, reopens: set<PeriodStatus>,
                    find: Finder, newId: map<Id, Period> -> Id, id: Id)
    requires Finds(find) && Generates(newId) && Open !in reopens && id in before.periods
    requires forall o :: o in orgs ==> CalendarShaped(before.periods, o) && !AnyBlocked(before.periods, o, lo, hi)
    ensures Recorded(VisitOrgs(Walk(before, [], false), orgs, lo, hi, reopens, find, newId).restores, id)
       <==> before.periods[id].status in reopens && Walked(before.periods[id], orgs, lo, hi)
  {
    var start := Walk(before, [], false);
    var w := VisitOrgs(start, orgs, lo, hi, reopens, find, newId);
    WalkIsFaithful(before.periods, start, orgs, lo, hi, reopens, find, newId);
    VisitOrgsOnlyWalked(before.periods, start, orgs, lo, hi, orgs, reopens, find, newId);
    WalkRaisesIff(start, orgs, lo, hi, reopens, find, newId);
    VisitOrgsReady(start, orgs, lo, hi, reopens, find, newId, {});
    if Walked(before.periods[id], orgs, lo, hi) && before.periods[id].status in reopens {
      WalkedIsRecorded(before.periods, w, orgs, lo, hi, reopens, id);
    }
  }

  /** The period holds the first day of a month from lo to hi of a listed organisation. */
  ghost predicate HoldsWalkedMonth(p: Period, orgs: seq<Id>, lo: nat, hi: int) {
    p.org in orgs && exists k: nat :: lo <= k <= hi && p.start <= MonthStart(k) <= p.end
  }

  /** By name: the inventory version reopens FUTURE, SOFT_CLOSED and HARD_CLOSED ones, the generic one all but FUTURE of these. */
  lemma ReopenedStatuses(before: Ledger, orgs: seq<Id>, lo: nat, hi: int, find: Finder, newId: map<Id, Period> -> Id, id: Id)
    requires Finds(find) && Generates(newId) && id in before.periods
    requires forall o :: o in orgs ==> CalendarShaped(before.periods, o) && !AnyBlocked(before.periods, o, lo, hi)
    ensures Recorded(VisitOrgs(Walk(before, [], false), orgs, lo, hi, INVENTORY_REOPENS, find, newId).restores, id)
       <==> before.periods[id].status in {Future, SoftClosed, HardClosed} && HoldsWalkedMonth(before.periods[id], orgs, lo, hi)
    ensures Recorded(VisitOrgs(Walk(before, [], false), orgs, lo, hi, GL_REOPENS, find, newId).restores, id)
       <==> before.periods[id].status in {SoftClosed, HardClosed} && HoldsWalkedMonth(before.periods[id], orgs, lo, hi)
  {
    ReopenedIff(before, orgs, lo, hi, INVENTORY_REOPENS, find, newId, id);
    ReopenedIff(before, orgs, lo, hi, GL_REOPENS, find, newId, id);
    var p := before.periods[id];
    assert forall k: nat :: Covers(p, p.org, MonthStart(k)) <==> p.start <= MonthStart(k) <= p.end;
    assert Walked(p, orgs, lo, hi) <==> HoldsWalkedMonth(p, orgs, lo, hi);
  }

  lemma OldPeriodNow(before: map<Id, Period>, w: Walk, reopens: set<PeriodStatus>, id: Id)
    requires Faithful(before, w, reopens) && id in before
    ensures id in w.ledger.periods
    ensures var p := w.ledger.periods[id];
      p.org == before[id].org && p.start == before[id].start && p.end == before[id].end
    ensures !Recorded(w.restores, id) ==> w.ledger.periods[id].status == before[id].status
  {
  }

  /** No two periods hold the first day of one month. */
  lemma SameMonthHolder(periods: map<Id, Period>, org: Id, k: nat, excluded: set<PeriodStatus>, i: Id, j: Id)
    requires Disjoint(periods, org) && HoldsMonth(periods, org, k, excluded, i)
    requires j in periods && Covers(periods[j], org, MonthStart(k))
    ensures i == j
  {
    MonthsAbut(k);
  }

  lemma WalkedIsRecorded(before: map<Id, Period>, w: Walk, orgs: seq<Id>, lo: nat, hi: int, reopens: set<PeriodStatus>, id: Id)
    requires Faithful(before, w, reopens) && id in before && before[id].status in reopens && Walked(before[id], orgs, lo, hi)
    requires CalendarShaped(w.ledger.periods, before[id].org)
    requires forall org, j: nat :: org in orgs && lo <= j <= hi ==> MonthReady(w.ledger.periods, org, j, reopens)
    ensures Recorded(w.restores, id)
  {
    var org := before[id].org;
    var k: nat :| lo <= k <= hi && Covers(before[id], org, MonthStart(k));
    assert MonthReady(w.ledger.periods, org, k, reopens);
    var i :| HoldsMonth(w.ledger.periods, org, k, reopens, i);
    OldPeriodNow(before, w, reopens, id);
    SameMonthHolder(w.ledger.periods, org, k, reopens, i, id);
  }

  // ---- Reopen, work, restore ----

  lemma {:induction false} RestoredInventoryAt(periods: map<Id, Period>, restores: seq<Restore>, id: Id)
    requires forall i, j :: 0 <= i < j < |restores| ==> restores[i].period != restores[j].period
    requires id in periods
    ensures RestoredInventory(periods, restores).Keys == periods.Keys
    ensures !Recorded(restores, id) ==> RestoredInventory(periods, restores)[id] == periods[id]
    ensures forall i :: 0 <= i < |restores| && restores[i].period == id ==>
      RestoredInventory(periods, restores)[id] == periods[id].(status := restores[i].original)
    decreases |restores|
  {
    if restores == [] {
    } else {
      var first, rest := restores[0], restores[1..];
      RestoredInventoryAt(PutStatus(periods, first.period, first.original), rest, id);
      forall i | 0 <= i < |rest| ensures rest[i] == restores[i + 1] {}
      assert Recorded(rest, id) ==> Recorded(restores, id) by {
        if Recorded(rest, id) {
          var i :| 0 <= i < |rest| && rest[i].period == id;
          assert restores[i + 1].period == id;
        }
      }
      if first.period == id {
        assert !Recorded(rest, id);
      } else {
        forall i | 0 <= i < |restores| && restores[i].period == id
          ensures RestoredInventory(periods, restores)[id] == periods[id].(status := restores[i].original)
        {
          assert rest[i - 1].period == id;
        }
      }
    }
  }

  /**
   Inventory round trip.  Between prepare and restore the backfill may do
   anything to the recorded periods and add any others; every period that
   existed before gets its original status back.
   */
  lemma InventoryRoundTrip(before: Ledger, orgs: seq<Id>, lo: nat, hi: int, find: Finder, newId: map<Id, Period> -> Id,
                           after: map<Id, Period>, id: Id)
    requires Finds(find) && Generates(newId) && id in before.periods && id in after
    requires var w := VisitOrgs(Walk(before, [], false), orgs, lo, hi, INVENTORY_REOPENS, find, newId);
      !Recorded(w.restores, id) ==> after[id].status == before.periods[id].status
    ensures var w := VisitOrgs(Walk(before, [], false), orgs, lo, hi, INVENTORY_REOPENS, find, newId);
      id in RestoredInventory(after, w.restores)
      && RestoredInventory(after, w.restores)[id] == after[id].(status := before.periods[id].status)
  {
    var w := VisitOrgs(Walk(before, [], false), orgs, lo, hi, INVENTORY_REOPENS, find, newId);
    WalkIsFaithful(before.periods, Walk(before, [], false), orgs, lo, hi, INVENTORY_REOPENS, find, newId);
    RestoredInventoryAt(after, w.restores, id);
    if Recorded(w.restores, id) {
      var i :| 0 <= i < |w.restores| && w.restores[i].period == id;
      assert w.restores[i].original == before.periods[id].status;
    }
  }

  function Ids(restores: seq<Restore>): seq<Id> {
    seq(|restores|, i requires 0 <= i < |restores| => restores[i].period)
  }

  lemma {:induction false} RestoredGlAt(periods: map<Id, Period>, ids: seq<Id>, id: Id)
    requires id in periods
    ensures RestoredGl(periods, ids).Keys == periods.Keys
    ensures RestoredGl(periods, ids)[id]
         == if id in ids && periods[id].status == Open then periods[id].(status := HardClosed) else periods[id]
    decreases |ids|
  {
    if ids == [] {
    } else {
      RestoredGlAt(if ids[0] in periods && periods[ids[0]].status == Open
                   then PutStatus(periods, ids[0], HardClosed) else periods, ids[1..], id);
    }
  }

  /**
   The generic backfill's weaker law.  If posting left the period's status alone,
   restoring ends it HARD_CLOSED when it was recorded and as it was otherwise; so
   a period loses its status iff it was a recorded SOFT_CLOSED one.
   */
  lemma GlRoundTrip(before: Ledger, orgs: seq<Id>, lo: nat, hi: int, find: Finder, newId: map<Id, Period> -> Id,
                    after: map<Id, Period>, id: Id)
    requires Finds(find) && Generates(newId) && id in before.periods && id in after
    requires var w := VisitOrgs(Walk(before, [], false), orgs, lo, hi, GL_REOPENS, find, newId);
      id in w.ledger.periods && after[id].status == w.ledger.periods[id].status
    ensures var w := VisitOrgs(Walk(before, [], false), orgs, lo, hi, GL_REOPENS, find, newId);
      var end := RestoredGl(after, Ids(w.restores));
      && id in end
      && end[id].status == (if Recorded(w.restores, id) then HardClosed else before.periods[id].status)
      && (end[id].status != before.periods[id].status
          <==> Recorded(w.restores, id) && before.periods[id].status == SoftClosed)
  {
    var w := VisitOrgs(Walk(before, [], false), orgs, lo, hi, GL_REOPENS, find, newId);
    WalkIsFaithful(before.periods, Walk(before, [], false), orgs, lo, hi, GL_REOPENS, find, newId);
    RestoredGlAt(after, Ids(w.restores), id);
    assert id in Ids(w.restores) <==> Recorded(w.restores, id) by {
      if Recorded(w.restores, id) {
        var i :| 0 <= i < |w.restores| && w.restores[i].period == id;
        assert Ids(w.restores)[i] == id;
      }
    }
    if Recorded(w.restores, id) {
      var i :| 0 <= i < |w.restores| && w.restores[i].period == id;
      assert w.restores[i].original in GL_REOPENS;
    }
  }
}
