/** What the month walk of both backfills creates: fiscal years and periods, month by month. */
module FiscalCreation {
  import opened Basics
  import opened Calendar
  import opened FiscalPeriods

  /** A month of an organisation. */
  type OrgMonth = (Id, nat)

  /** No period of the organisation holds the first day of the month. */
  predicate NoPeriodFor(periods: map<Id, Period>, d: OrgMonth) {
    forall i :: i in periods && periods[i].org == d.0 ==>
      MonthStart(d.1) < periods[i].start || periods[i].end < MonthStart(d.1)
  }

  /** An open period of exactly that month, numbered by it in its own year. */
  function PeriodFor(d: OrgMonth): Period {
    Period(d.0, MonthStart(d.1), MonthEnd(d.1), Open, YearOf(d.1), MonthOf(d.1))
  }

  predicate IsNew(before: map<Id, Period>, after: map<Id, Period>, id: Id) {
    id in after && id !in before
  }

  /** A new period is that of one of the months. */
  ghost predicate IsOneOf(months: set<OrgMonth>, p: Period) {
    exists d :: d in months && p == PeriodFor(d)
  }

  /** The month has a new period. */
  ghost predicate HasNew(before: map<Id, Period>, after: map<Id, Period>, d: OrgMonth) {
    exists id :: IsNew(before, after, id) && after[id] == PeriodFor(d)
  }

  ghost predicate NewDiffer(before: map<Id, Period>, after: map<Id, Period>) {
    forall i, j :: IsNew(before, after, i) && IsNew(before, after, j) && after[i] == after[j] ==> i == j
  }

  /** The new periods are, one to one, those of the months. */
  ghost predicate PeriodsAre(before: map<Id, Period>, after: map<Id, Period>, months: set<OrgMonth>) {
    && before.Keys <= after.Keys
    && (forall id :: IsNew(before, after, id) ==> IsOneOf(months, after[id]))
    && (forall d :: d in months ==> HasNew(before, after, d))
    && NewDiffer(before, after)
  }

  ghost predicate HasMonthIn(months: set<OrgMonth>, y: (Id, int)) {
    exists d :: d in months && y == (d.0, YearOf(d.1))
  }

  /** The fiscal years are the old ones and those of the months. */
  ghost predicate YearsAre(before: set<(Id, int)>, after: set<(Id, int)>, months: set<OrgMonth>) {
    forall y :: y in after <==> y in before || HasMonthIn(months, y)
  }

  /** The months had no period, and no other month has got one. */
  ghost predicate OthersLack(before: map<Id, Period>, after: map<Id, Period>, months: set<OrgMonth>) {
    && (forall d :: d in months ==> NoPeriodFor(before, d))
    && forall d :: NoPeriodFor(after, d) <==> NoPeriodFor(before, d) && d !in months
  }

  ghost predicate Created(before: Ledger, after: Ledger, months: set<OrgMonth>) {
    && YearsAre(before.years, after.years, months)
    && PeriodsAre(before.periods, after.periods, months)
    && OthersLack(before.periods, after.periods, months)
  }

  // ---- One month ----

  lemma UncoveredIsNoPeriod(periods: map<Id, Period>, org: Id, k: nat)
    ensures Uncovered(periods, org, k) <==> NoPeriodFor(periods, (org, k))
  {
    forall i | i in periods
      ensures Covers(periods[i], org, MonthStart(k))
         <==> periods[i].org == org && !(MonthStart(k) < periods[i].start || periods[i].end < MonthStart(k))
    {
    }
  }

  /** A new month's period holds the first day of that month of its organisation and of no other. */
  lemma NewPeriodLacks(periods: map<Id, Period>, id: Id, e: OrgMonth, d: OrgMonth)
    requires id !in periods
    ensures NoPeriodFor(periods[id := PeriodFor(e)], d) <==> NoPeriodFor(periods, d) && d != e
  {
    var after := periods[id := PeriodFor(e)];
    assert after[id] == PeriodFor(e);
    assert forall i :: i in periods ==> after[i] == periods[i];
    FirstDayInMonth(d.1, e.1);
  }

  lemma SamePeriodSameMonth(d: OrgMonth, e: OrgMonth)
    ensures PeriodFor(d) == PeriodFor(e) ==> d == e
  {
    if PeriodFor(d) == PeriodFor(e) {
      SameMonth(d.1, e.1);
    }
  }

  lemma YearsStep(before: set<(Id, int)>, now: set<(Id, int)>, months: set<OrgMonth>, e: OrgMonth)
    requires YearsAre(before, now, months)
    ensures YearsAre(before, now + {(e.0, YearOf(e.1))}, months + {e})
  {
    forall y ensures HasMonthIn(months + {e}, y) <==> HasMonthIn(months, y) || y == (e.0, YearOf(e.1)) {
      if HasMonthIn(months, y) {
        var d :| d in months && y == (d.0, YearOf(d.1));
        assert d in months + {e};
      }
      if y == (e.0, YearOf(e.1)) {
        assert e in months + {e};
      }
    }
  }

  lemma NewIsOneOf(months: set<OrgMonth>, e: OrgMonth, p: Period)
    ensures IsOneOf(months + {e}, p) <==> IsOneOf(months, p) || p == PeriodFor(e)
  {
    if IsOneOf(months, p) {
      var d :| d in months && p == PeriodFor(d);
      assert d in months + {e};
    }
    if p == PeriodFor(e) {
      assert e in months + {e};
    }
  }

  lemma StillHasNew(before: map<Id, Period>, now: map<Id, Period>, id: Id, e: OrgMonth, d: OrgMonth)
    requires before.Keys <= now.Keys && id !in now && (HasNew(before, now, d) || d == e)
    ensures HasNew(before, now[id := PeriodFor(e)], d)
  {
    var after := now[id := PeriodFor(e)];
    if d == e {
      assert IsNew(before, after, id) && after[id] == PeriodFor(d);
    } else {
      var i :| IsNew(before, now, i) && now[i] == PeriodFor(d);
      assert IsNew(before, after, i) && after[i] == PeriodFor(d);
    }
  }

  lemma StillDiffer(before: map<Id, Period>, now: map<Id, Period>, months: set<OrgMonth>, id: Id, e: OrgMonth)
    requires PeriodsAre(before, now, months) && id !in now && e !in months
    ensures NewDiffer(before, now[id := PeriodFor(e)])
  {
    forall i | IsNew(before, now, i) ensures now[i] != PeriodFor(e) {
      assert IsOneOf(months, now[i]);
      var d :| d in months && now[i] == PeriodFor(d);
      SamePeriodSameMonth(d, e);
    }
    var after := now[id := PeriodFor(e)];
    forall i, j | IsNew(before, after, i) && IsNew(before, after, j) && after[i] == after[j] ensures i == j {
      if i != id && j != id {
        assert IsNew(before, now, i) && IsNew(before, now, j);
      }
    }
  }

  lemma PeriodsStep(before: map<Id, Period>, now: map<Id, Period>, months: set<OrgMonth>, id: Id, e: OrgMonth)
    requires PeriodsAre(before, now, months) && id !in now && e !in months
    ensures PeriodsAre(before, now[id := PeriodFor(e)], months + {e})
  {
    var after := now[id := PeriodFor(e)];
    forall i | IsNew(before, after, i) ensures IsOneOf(months + {e}, after[i]) {
      NewIsOneOf(months, e, after[i]);
      assert i != id ==> IsNew(before, now, i);
    }
    forall d | d in months + {e} ensures HasNew(before, after, d) {
      StillHasNew(before, now, id, e, d);
    }
    StillDiffer(before, now, months, id, e);
  }

  lemma CreatedStep(before: Ledger, now: Ledger, months: set<OrgMonth>, id: Id, e: OrgMonth)
    requires Created(before, now, months) && id !in now.periods && NoPeriodFor(now.periods, e)
    ensures Created(before, Ledger(now.periods[id := PeriodFor(e)], now.years + {(e.0, YearOf(e.1))}), months + {e})
  {
    YearsStep(before.years, now.years, months, e);
    PeriodsStep(before.periods, now.periods, months, id, e);
    LackStep(before.periods, now.periods, months, id, e);
  }

  lemma LackStep(before: map<Id, Period>, now: map<Id, Period>, months: set<OrgMonth>, id: Id, e: OrgMonth)
    requires OthersLack(before, now, months) && id !in now && NoPeriodFor(now, e)
    ensures OthersLack(before, now[id := PeriodFor(e)], months + {e})
  {
    forall d ensures NoPeriodFor(now[id := PeriodFor(e)], d) <==> NoPeriodFor(before, d) && d !in months + {e} {
      NewPeriodLacks(now, id, e, d);
    }
  }

  // ---- Reopening creates nothing ----

  lemma ReopenLacks(periods: map<Id, Period>, id: Id, d: OrgMonth)
    requires id in periods
    ensures NoPeriodFor(periods[id := periods[id].(status := Open)], d) <==> NoPeriodFor(periods, d)
  {
    var after := periods[id := periods[id].(status := Open)];
    forall i | i in periods
      ensures after[i].org == periods[i].org && after[i].start == periods[i].start && after[i].end == periods[i].end
    {
    }
  }

  /** A period that is not open is none of the new ones. */
  lemma ReopenStep(before: Ledger, now: Ledger, months: set<OrgMonth>, id: Id)
    requires Created(before, now, months) && id in now.periods && now.periods[id].status != Open
    ensures Created(before, now.(periods := now.periods[id := now.periods[id].(status := Open)]), months)
  {
    var after := now.periods[id := now.periods[id].(status := Open)];
    forall i | IsNew(before.periods, now.periods, i) ensures now.periods[i].status == Open {
      assert IsOneOf(months, now.periods[i]);
    }
    assert !IsNew(before.periods, now.periods, id);
    SameNewPeriods(before.periods, now.periods, after, months);
    forall d ensures NoPeriodFor(after, d) <==> NoPeriodFor(now.periods, d) {
      ReopenLacks(now.periods, id, d);
    }
  }

  lemma SameNewPeriods(before: map<Id, Period>, now: map<Id, Period>, after: map<Id, Period>, months: set<OrgMonth>)
    requires PeriodsAre(before, now, months) && after.Keys == now.Keys
    requires forall i :: IsNew(before, now, i) ==> after[i] == now[i]
    ensures PeriodsAre(before, after, months)
  {
    forall i | IsNew(before, after, i) ensures IsNew(before, now, i) && IsOneOf(months, after[i]) {
      assert IsNew(before, now, i);
    }
    forall d | d in months ensures HasNew(before, after, d) {
      assert HasNew(before, now, d);
      var i :| IsNew(before, now, i) && now[i] == PeriodFor(d);
      assert IsNew(before, after, i) && after[i] == PeriodFor(d);
    }
  }

  // ---- The walk ----

  /** The months after one more is visited. */
  ghost function Visit(before: Ledger, months: set<OrgMonth>, d: OrgMonth): set<OrgMonth> {
    if NoPeriodFor(before.periods, d) then months + {d} else months
  }

  lemma VisitMonthCreates(before: Ledger, w: Walk, months: set<OrgMonth>, org: Id, k: nat,
                          reopens: set<PeriodStatus>, find: Finder, newId: map<Id, Period> -> Id)
    requires Finds(find) && Generates(newId) && Open !in reopens && Created(before, w.ledger, months)
    requires !VisitMonth(w, org, k, reopens, find, newId).raised
    ensures Created(before, VisitMonth(w, org, k, reopens, find, newId).ledger, Visit(before, months, (org, k)))
  {
    var periods, d := w.ledger.periods, (org, k);
    UncoveredIsNoPeriod(periods, org, k);
    match find(periods, org, MonthStart(k))
    case Some(id) =>
      assert Covers(periods[id], org, MonthStart(k)) && !NoPeriodFor(periods, d);
      SeenMonth(before, w.ledger, months, d);
      if periods[id].status in reopens {
        ReopenStep(before, w.ledger, months, id);
      }
    case None =>
      assert Uncovered(periods, org, k);
      assert newId(periods) !in periods && NoPeriodFor(before.periods, d);
      CreatedStep(before, w.ledger, months, newId(periods), d);
  }

  lemma SeenMonth(before: Ledger, now: Ledger, months: set<OrgMonth>, d: OrgMonth)
    requires OthersLack(before.periods, now.periods, months) && !NoPeriodFor(now.periods, d)
    ensures Visit(before, months, d) == months
  {
    if NoPeriodFor(before.periods, d) {
      assert d in months && months + {d} == months;
    }
  }

  /** The months lo to hi of one organisation without a period. */
  ghost predicate Lacked(before: Ledger, d: OrgMonth, org: Id, lo: nat, hi: int) {
    d.0 == org && lo <= d.1 <= hi && NoPeriodFor(before.periods, d)
  }

  /** Once lo is visited, the months from lo on are lo and those after it. */
  lemma LackedSplit(before: Ledger, months: set<OrgMonth>, d: OrgMonth, org: Id, lo: nat, hi: int)
    requires lo <= hi
    ensures d in Visit(before, months, (org, lo)) || Lacked(before, d, org, lo + 1, hi)
       <==> d in months || Lacked(before, d, org, lo, hi)
  {
  }

  lemma {:induction false} VisitMonthsCreate(before: Ledger, w: Walk, months: set<OrgMonth>, org: Id, lo: nat, hi: int,
                                             reopens: set<PeriodStatus>, find: Finder, newId: map<Id, Period> -> Id)
    returns (after: set<OrgMonth>)
    requires Finds(find) && Generates(newId) && Open !in reopens && Created(before, w.ledger, months)
    requires !VisitMonths(w, org, lo, hi, reopens, find, newId).raised
    ensures Created(before, VisitMonths(w, org, lo, hi, reopens, find, newId).ledger, after)
    ensures forall d :: d in after <==> d in months || Lacked(before, d, org, lo, hi)
    decreases hi - lo
  {
    if lo > hi {
      after := months;
    } else {
      var next := VisitMonth(w, org, lo, reopens, find, newId);
      FirstDoesNotRaise(w, org, lo, hi, reopens, find, newId);
      VisitMonthCreates(before, w, months, org, lo, reopens, find, newId);
      after := VisitMonthsCreate(before, next, Visit(before, months, (org, lo)), org, lo + 1, hi, reopens, find, newId);
      forall d ensures d in after <==> d in months || Lacked(before, d, org, lo, hi) {
        LackedSplit(before, months, d, org, lo, hi);
      }
    }
  }

  lemma {:induction false} VisitOrgsCreate(before: Ledger, w: Walk, months: set<OrgMonth>, orgs: seq<Id>, lo: nat, hi: int,
                                           reopens: set<PeriodStatus>, find: Finder, newId: map<Id, Period> -> Id)
    returns (after: set<OrgMonth>)
    requires Finds(find) && Generates(newId) && Open !in reopens && Created(before, w.ledger, months)
    requires !VisitOrgs(w, orgs, lo, hi, reopens, find, newId).raised
    ensures Created(before, VisitOrgs(w, orgs, lo, hi, reopens, find, newId).ledger, after)
    ensures forall d :: d in after <==> d in months || (d.0 in orgs && lo <= d.1 <= hi && NoPeriodFor(before.periods, d))
    decreases |orgs|
  {
    if orgs == [] {
      after := months;
    } else {
      var w1 := VisitMonths(w, orgs[0], lo, hi, reopens, find, newId);
      assert orgs == [orgs[0]] + orgs[1..];
      assert !w1.raised by {
        if w1.raised { RaisedOrgs(w1, orgs[1..], lo, hi, reopens, find, newId); }
      }
      var next := VisitMonthsCreate(before, w, months, orgs[0], lo, hi, reopens, find, newId);
      after := VisitOrgsCreate(before, w1, next, orgs[1..], lo, hi, reopens, find, newId);
    }
  }

  lemma NothingCreated(before: Ledger)
    ensures Created(before, before, {})
  {
    forall y ensures !HasMonthIn({}, y) {}
  }

  /**
   Whatever it starts from, a walk that raises nothing creates exactly one period for
   each walked month no period held, open, for that month and numbered by it, and
   exactly the fiscal years of those months.
   */
  lemma WalkCreates(before: Ledger, orgs: seq<Id>, lo: nat, hi: int,
                    reopens: set<PeriodStatus>, find: Finder, newId: map<Id, Period> -> Id) returns (months: set<OrgMonth>)
    requires Finds(find) && Generates(newId) && Open !in reopens
    requires !VisitOrgs(Walk(before, [], false), orgs, lo, hi, reopens, find, newId).raised
    ensures forall d :: d in months <==> d.0 in orgs && lo <= d.1 <= hi && NoPeriodFor(before.periods, d)
    ensures var t := VisitOrgs(Walk(before, [], false), orgs, lo, hi, reopens, find, newId).ledger;
      YearsAre(before.years, t.years, months) && PeriodsAre(before.periods, t.periods, months)
  {
    NothingCreated(before);
    months := VisitOrgsCreate(before, Walk(before, [], false), {}, orgs, lo, hi, reopens, find, newId);
  }
}
