/** scripts/allocate_exact_match_payments.py: allocate unallocated payments to their one exact-match invoice. */
module ExactMatchAllocation {
  import opened Basics
  import opened Sessions
  import opened Sums
  import opened ErpStore

  /** Money is stored with six decimals: one kobo is 10000 units, and so is the tolerance of 0.01. */
  const KOBO := 10_000
  const AMOUNT_TOLERANCE := 10_000

  datatype Candidate = Candidate(payment: Id, amount: int, invoice: Id, total: int, outstanding: int)

  predicate OpenInvoice(i: Invoice) {
    && i.status in {InvoiceStatus.Posted, InvoiceStatus.Overdue, InvoiceStatus.PartiallyPaid}
    && i.total - i.paid > 0
  }

  predicate AmountsMatch(total: int, amount: int) {
    -AMOUNT_TOLERANCE < total - amount < AMOUNT_TOLERANCE
  }

  function MatchingInvoices(s: Store, p: Payment): set<Id> {
    set i | i in s.invoices && s.invoices[i].customer == p.customer
            && AmountsMatch(s.invoices[i].total, p.amount) && OpenInvoice(s.invoices[i])
  }

  predicate Unallocated(s: Store, payment: Id) {
    forall a :: a in s.allocations ==> s.allocations[a].payment != payment
  }

  /** The year filter, as the first day of the year and of the next one. */
  datatype Years = AllYears | OneYear(first: int, next: int)

  predicate InYears(years: Years, date: int) {
    years.OneYear? ==> years.first <= date < years.next
  }

  /** A row of the candidate query. */
  predicate IsCandidate(s: Store, years: Years, c: Candidate) {
    && c.payment in s.payments
    && s.payments[c.payment].status == PaymentStatus.Cleared
    && s.payments[c.payment].amount == c.amount && c.amount > 0
    && s.payments[c.payment].customer in s.customers
    && InYears(years, s.payments[c.payment].date)
    && Unallocated(s, c.payment)
    && MatchingInvoices(s, s.payments[c.payment]) == {c.invoice}
    && c.invoice in s.invoices
    && c.total == s.invoices[c.invoice].total
    && c.outstanding == s.invoices[c.invoice].total - s.invoices[c.invoice].paid
  }

  /** An answer without LIMIT, in payment-date order. */
  ghost predicate IsFullListing(s: Store, years: Years, cs: seq<Candidate>) {
    && (forall i :: 0 <= i < |cs| ==> IsCandidate(s, years, cs[i]))
    && (forall c :: IsCandidate(s, years, c) ==> c in cs)
    && (forall i, j :: 0 <= i < j < |cs| ==> cs[i] != cs[j])
    && (forall i, j :: 0 <= i < j < |cs| ==> s.payments[cs[i].payment].date <= s.payments[cs[j].payment].date)
  }

  function Limited(cs: seq<Candidate>, limit: Option<nat>): seq<Candidate> {
    if limit.Some? && 0 < limit.value < |cs| then cs[..limit.value] else cs
  }

  ghost predicate IsListing(s: Store, years: Years, limit: Option<nat>, cs: seq<Candidate>) {
    exists full :: IsFullListing(s, years, full) && cs == Limited(full, limit)
  }

  /** Every listing consists of candidates with pairwise different payments. */
  lemma ListingFacts(s: Store, years: Years, limit: Option<nat>, cs: seq<Candidate>)
    requires IsListing(s, years, limit, cs)
    ensures forall i :: 0 <= i < |cs| ==> IsCandidate(s, years, cs[i])
    ensures forall i, j :: 0 <= i < j < |cs| ==> cs[i].payment != cs[j].payment
  {
    var full :| IsFullListing(s, years, full) && cs == Limited(full, limit);
    forall i, j | 0 <= i < j < |cs| ensures cs[i].payment != cs[j].payment {
      assert cs[i] == full[i] && cs[j] == full[j];
      if cs[i].payment == cs[j].payment {
        CandidateDetermined(s, years, cs[i], cs[j]);
      }
    }
  }

  lemma CandidateDetermined(s: Store, years: Years, c: Candidate, d: Candidate)
    requires IsCandidate(s, years, c) && IsCandidate(s, years, d) && c.payment == d.payment
    ensures c == d
  {
    assert c.invoice in {d.invoice};
  }

  // ---- The query, column by column ----

  /** An open invoice of the payment's customer, with a positive balance and a total less than 0.01 off its amount. */
  predicate Settles(i: Invoice, p: Payment) {
    && i.customer == p.customer
    && i.status in {InvoiceStatus.Posted, InvoiceStatus.Overdue, InvoiceStatus.PartiallyPaid}
    && i.total - i.paid > 0
    && -10_000 < i.total - p.amount < 10_000
  }

  /** A cleared payment of positive amount, without any allocation, of a customer that exists. */
  predicate Allocatable(s: Store, payment: Id) {
    && payment in s.payments && s.payments[payment].status == PaymentStatus.Cleared && s.payments[payment].amount > 0
    && s.payments[payment].customer in s.customers
    && forall a :: a in s.allocations ==> s.allocations[a].payment != payment
  }

  /** Invoice i is the only one that settles the payment. */
  predicate OnlySettler(s: Store, payment: Id, i: Id)
    requires payment in s.payments
  {
    && i in s.invoices && Settles(s.invoices[i], s.payments[payment])
    && forall j :: j in s.invoices && Settles(s.invoices[j], s.payments[payment]) ==> j == i
  }

  /** A candidate is such a payment of the year with its only settling invoice, and the columns of both. */
  lemma CandidateColumns(s: Store, years: Years, c: Candidate)
    ensures IsCandidate(s, years, c) <==>
      && Allocatable(s, c.payment) && OnlySettler(s, c.payment, c.invoice)
      && (years.OneYear? ==> years.first <= s.payments[c.payment].date < years.next)
      && c.amount == s.payments[c.payment].amount
      && c.total == s.invoices[c.invoice].total && c.outstanding == s.invoices[c.invoice].total - s.invoices[c.invoice].paid
  {
    if c.payment in s.payments {
      var p := s.payments[c.payment];
      forall i | i in s.invoices ensures i in MatchingInvoices(s, p) <==> Settles(s.invoices[i], p) {}
      assert MatchingInvoices(s, p) == {c.invoice} <==> OnlySettler(s, c.payment, c.invoice);
    }
  }

  /** Without a LIMIT a payment is listed iff it is such a payment of the year with exactly one settling invoice. */
  lemma ListedIff(s: Store, years: Years, cs: seq<Candidate>, payment: Id)
    requires IsListing(s, years, None, cs)
    ensures (exists k :: 0 <= k < |cs| && cs[k].payment == payment)
       <==> && Allocatable(s, payment)
            && (years.OneYear? ==> years.first <= s.payments[payment].date < years.next)
            && exists i :: OnlySettler(s, payment, i)
  {
    var full :| IsFullListing(s, years, full) && cs == Limited(full, None);
    if k :| 0 <= k < |cs| && cs[k].payment == payment {
      CandidateColumns(s, years, cs[k]);
    }
    if Allocatable(s, payment) && (years.OneYear? ==> years.first <= s.payments[payment].date < years.next)
       && exists i :: OnlySettler(s, payment, i) {
      var i :| OnlySettler(s, payment, i);
      var c := Candidate(payment, s.payments[payment].amount, i, s.invoices[i].total, s.invoices[i].total - s.invoices[i].paid);
      CandidateColumns(s, years, c);
      assert c in cs;
    }
  }

  /** A positive LIMIT cuts the payment-date order; none and zero do not. */
  lemma LimitedListing(s: Store, years: Years, limit: Option<nat>, cs: seq<Candidate>)
    requires IsListing(s, years, limit, cs)
    ensures forall i, j :: 0 <= i < j < |cs| ==>
      cs[i].payment in s.payments && cs[j].payment in s.payments && s.payments[cs[i].payment].date <= s.payments[cs[j].payment].date
    ensures exists full :: IsListing(s, years, None, full) && cs <= full
              && |cs| == if limit.Some? && limit.value > 0 then Min(limit.value, |full|) else |full|
  {
    var full :| IsFullListing(s, years, full) && cs == Limited(full, limit);
    assert IsListing(s, years, None, full) by {
      assert Limited(full, None) == full;
    }
  }

  // ---- One allocation ----

  type IdSource = map<Id, Allocation> -> Id

  function LiveOutstanding(s: Store, invoice: Id): int
    requires invoice in s.invoices
  {
    s.invoices[invoice].total - s.invoices[invoice].paid
  }

  function PayInvoice(i: Invoice, amount: int): Invoice {
    i.(paid := i.paid + amount,
       status := if i.paid + amount >= i.total then InvoiceStatus.Paid else InvoiceStatus.PartiallyPaid)
  }

  /** The state after allocate_payment_to_invoice, for an invoice that exists. */
  function Allocate(s: Store, c: Candidate, newId: IdSource): Store {
    if c.invoice !in s.invoices || LiveOutstanding(s, c.invoice) <= 0 then s
    else
      var amount := Min(c.amount, LiveOutstanding(s, c.invoice));
      s.(allocations := s.allocations[newId(s.allocations) := Allocation(c.payment, c.invoice, amount)],
         invoices := s.invoices[c.invoice := PayInvoice(s.invoices[c.invoice], amount)])
  }

  datatype AllocationResult = Created | NoBalance | Failed

  /** raises: the database refuses the flush. */
  method AllocatePaymentToInvoice(db: Session<Store>, c: Candidate, raises: bool, newId: IdSource) returns (r: AllocationResult)
    modifies db`current
    ensures r.Failed? <==> c.invoice !in old(db.current.invoices) || raises
    ensures !r.Failed? ==> db.current == Allocate(old(db.current), c, newId)
    ensures !r.Failed? ==> (r.Created? <==> LiveOutstanding(old(db.current), c.invoice) > 0)
  {
    if c.invoice !in db.current.invoices {
      return Failed;
    }
    var live := LiveOutstanding(db.current, c.invoice);
    if raises {
      return Failed;
    }
    if live <= 0 {
      return NoBalance;
    }
    var amount := Min(c.amount, live);
    db.Write(db.current.(allocations :=
      db.current.allocations[newId(db.current.allocations) := Allocation(c.payment, c.invoice, amount)]));
    db.Write(db.current.(invoices :=
      db.current.invoices[c.invoice := PayInvoice(db.current.invoices[c.invoice], amount)]));
    return Created;
  }

  // ---- One run over the candidates ----

  /** No earlier candidate of this run targets the same invoice. */
  predicate FirstOfInvoice(cs: seq<Candidate>, i: nat)
    requires i < |cs|
  {
    forall j :: 0 <= j < i ==> cs[j].invoice != cs[i].invoice
  }

  /** The session after n candidates: a failure rolls the whole run back to its start. */
  function After(start: Store, cs: seq<Candidate>, raises: nat -> bool, newId: IdSource, n: nat): Store
    requires n <= |cs|
  {
    if n == 0 then start
    else
      var before := After(start, cs, raises, newId, n - 1);
      if !FirstOfInvoice(cs, n - 1) then before
      else if cs[n - 1].invoice !in before.invoices || raises(n - 1) then start
      else Allocate(before, cs[n - 1], newId)
  }

  predicate Fails(start: Store, cs: seq<Candidate>, raises: nat -> bool, newId: IdSource, i: nat)
    requires i < |cs|
  {
    FirstOfInvoice(cs, i) && (cs[i].invoice !in After(start, cs, raises, newId, i).invoices || raises(i))
  }

  /** Candidates from..n applied to the start state, each invoice's first target only. */
  function Applied(start: Store, cs: seq<Candidate>, newId: IdSource, from: nat, n: nat): Store
    requires from <= n <= |cs|
    decreases n - from
  {
    if n == from then start
    else
      var before := Applied(start, cs, newId, from, n - 1);
      if FirstOfInvoice(cs, n - 1) then Allocate(before, cs[n - 1], newId) else before
  }

  /** What a run keeps is exactly the work after its last failing candidate. */
  lemma {:induction false} KeepsWorkAfterLastFailure(start: Store, cs: seq<Candidate>, raises: nat -> bool, newId: IdSource, from: nat, n: nat)
    requires from <= n <= |cs|
    requires from > 0 ==> Fails(start, cs, raises, newId, from - 1)
    requires forall i :: from <= i < n ==> !Fails(start, cs, raises, newId, i)
    ensures After(start, cs, raises, newId, n) == Applied(start, cs, newId, from, n)
    decreases n - from
  {
    if n > from {
      KeepsWorkAfterLastFailure(start, cs, raises, newId, from, n - 1);
      assert !Fails(start, cs, raises, newId, n - 1);
    }
  }

  datatype Counts = Counts(created: nat, skipped: nat, errors: nat)

  function Counted(start: Store, cs: seq<Candidate>, raises: nat -> bool, newId: IdSource, execute: bool, n: nat): Counts
    requires n <= |cs|
  {
    if n == 0 then Counts(0, 0, 0)
    else
      var c := Counted(start, cs, raises, newId, execute, n - 1);
      var before := After(start, cs, raises, newId, n - 1);
      if !FirstOfInvoice(cs, n - 1) then c.(skipped := c.skipped + 1)
      else if !execute then c.(created := c.created + 1)
      else if Fails(start, cs, raises, newId, n - 1) then c.(errors := c.errors + 1)
      else if LiveOutstanding(before, cs[n - 1].invoice) > 0 then c.(created := c.created + 1)
      else c.(skipped := c.skipped + 1)
  }

  /** No earlier candidate has the invoice, it is there, nothing raises, and it is not paid in full yet. */
  predicate Succeeds(start: Store, cs: seq<Candidate>, raises: nat -> bool, newId: IdSource, i: nat)
    requires i < |cs|
  {
    && (forall j :: 0 <= j < i ==> cs[j].invoice != cs[i].invoice) && !raises(i)
    && cs[i].invoice in After(start, cs, raises, newId, i).invoices
    && After(start, cs, raises, newId, i).invoices[cs[i].invoice].paid < After(start, cs, raises, newId, i).invoices[cs[i].invoice].total
  }

  ghost predicate FailedPlaces(start: Store, cs: seq<Candidate>, raises: nat -> bool, newId: IdSource, n: nat, places: set<nat>)
    requires n <= |cs|
  {
    forall i: nat :: i in places <==> i < n && Fails(start, cs, raises, newId, i)
  }

  ghost predicate SuccessfulPlaces(start: Store, cs: seq<Candidate>, raises: nat -> bool, newId: IdSource, n: nat, places: set<nat>)
    requires n <= |cs|
  {
    forall i: nat :: i in places <==> i < n && Succeeds(start, cs, raises, newId, i)
  }

  ghost predicate FirstPlaces(cs: seq<Candidate>, n: nat, places: set<nat>)
    requires n <= |cs|
  {
    forall i: nat :: i in places <==> i < n && forall j :: 0 <= j < i ==> cs[j].invoice != cs[i].invoice
  }

  lemma CountedStep(start: Store, cs: seq<Candidate>, raises: nat -> bool, newId: IdSource, n: nat)
    requires n < |cs|
    ensures var c, d := Counted(start, cs, raises, newId, true, n), Counted(start, cs, raises, newId, true, n + 1);
      && d.errors == c.errors + (if Fails(start, cs, raises, newId, n) then 1 else 0)
      && d.created == c.created + (if Succeeds(start, cs, raises, newId, n) then 1 else 0)
      && d.created + d.skipped + d.errors == c.created + c.skipped + c.errors + 1
  {
  }

  /** Failing candidates are errors, allocations are created, everything else is skipped. */
  lemma {:induction false} CountsMean(start: Store, cs: seq<Candidate>, raises: nat -> bool, newId: IdSource, n: nat,
                                      failed: set<nat>, good: set<nat>)
    requires n <= |cs|
    requires FailedPlaces(start, cs, raises, newId, n, failed) && SuccessfulPlaces(start, cs, raises, newId, n, good)
    ensures var c := Counted(start, cs, raises, newId, true, n);
      c.errors == |failed| && c.created == |good| && c.created + c.skipped + c.errors == n
  {
    if n == 0 {
      assert failed == {} && good == {};
    } else {
      var m := n - 1;
      assert FailedPlaces(start, cs, raises, newId, m, failed - {m});
      assert SuccessfulPlaces(start, cs, raises, newId, m, good - {m});
      CountsMean(start, cs, raises, newId, m, failed - {m}, good - {m});
      CountedStep(start, cs, raises, newId, m);
      LastPlace(failed, m);
      LastPlace(good, m);
    }
  }

  /** A dry run counts the first candidate of each invoice as created and skips the others. */
  lemma {:induction false} DryCountsMean(start: Store, cs: seq<Candidate>, raises: nat -> bool, newId: IdSource, n: nat, firsts: set<nat>)
    requires n <= |cs| && FirstPlaces(cs, n, firsts)
    ensures var c := Counted(start, cs, raises, newId, false, n);
      c.created == |firsts| && c.created + c.skipped == n && c.errors == 0
  {
    if n == 0 {
      assert firsts == {};
    } else {
      var m := n - 1;
      assert FirstPlaces(cs, m, firsts - {m});
      DryCountsMean(start, cs, raises, newId, m, firsts - {m});
      LastPlace(firsts, m);
    }
  }

  /**
   The candidate loop of main, with its seen_invoices dictionary.  If the final
   commit fails, its exception leaves main and closing the session rolls back.
   */
  method RunAllocation(db: Session<Store>, cs: seq<Candidate>, raises: nat -> bool, newId: IdSource, execute: bool, commits: bool)
    returns (counts: Counts)
    requires db.current == db.durable
    modifies db
    ensures db.current == db.durable
    ensures db.durable == if execute && commits then After(old(db.current), cs, raises, newId, |cs|) else old(db.current)
    ensures execute ==> db.durable == RunOne(old(db.current), Execution(cs, raises, commits), newId)
    ensures counts == Counted(old(db.current), cs, raises, newId, execute, |cs|)
  {
    ghost var start := db.current;
    counts := Counts(0, 0, 0);
    var seen: map<Id, nat> := map[];
    for i := 0 to |cs|
      invariant db.durable == start
      invariant db.current == if execute then After(start, cs, raises, newId, i) else start
      invariant forall id :: id in seen <==> exists j :: 0 <= j < i && cs[j].invoice == id
      invariant forall id :: id in seen ==> seen[id] > 0
      invariant counts == Counted(start, cs, raises, newId, execute, i)
    {
      var c := cs[i];
      seen := seen[c.invoice := (if c.invoice in seen then seen[c.invoice] else 0) + 1];
      assert seen[c.invoice] > 1 <==> !FirstOfInvoice(cs, i);
      if seen[c.invoice] > 1 {
        counts := counts.(skipped := counts.skipped + 1);
        continue;
      }
      if execute {
        var r := AllocatePaymentToInvoice(db, c, raises(i), newId);
        match r {
          case Created => counts := counts.(created := counts.created + 1);
          case NoBalance => counts := counts.(skipped := counts.skipped + 1);
          case Failed =>
            counts := counts.(errors := counts.errors + 1);
            db.Rollback();
        }
      } else {
        counts := counts.(created := counts.created + 1);
      }
    }
    if execute && commits {
      db.Commit();
    } else {
      db.Rollback();
    }
  }

  // ---- What any number of runs keeps ----

  function NewAllocations(s: Store, t: Store): set<Id> {
    t.allocations.Keys - s.allocations.Keys
  }

  function NewTo(s: Store, t: Store, invoice: Id): set<Id> {
    set a | a in NewAllocations(s, t) && t.allocations[a].invoice == invoice
  }

  function AmountOf(t: Store): nat -> int {
    a => if a in t.allocations then t.allocations[a].amount else 0
  }

  ghost predicate KeepsAllocations(s: Store, t: Store) {
    && s.allocations.Keys <= t.allocations.Keys
    && forall a :: a in s.allocations ==> t.allocations[a] == s.allocations[a]
  }

  /** A new allocation is within its payment, which had no allocation before, and joins it to an invoice of its customer. */
  ghost predicate WithinPayment(s: Store, a: Allocation) {
    && a.payment in s.payments && Unallocated(s, a.payment)
    && 0 < a.amount <= s.payments[a.payment].amount
    && a.invoice in s.invoices && s.invoices[a.invoice].customer == s.payments[a.payment].customer
  }

  ghost predicate NewWithinPayments(s: Store, t: Store) {
    forall a :: a in NewAllocations(s, t) ==> WithinPayment(s, t.allocations[a])
  }

  ghost predicate OnePerPayment(s: Store, t: Store) {
    forall a, b ::
      a in NewAllocations(s, t) && b in NewAllocations(s, t) && t.allocations[a].payment == t.allocations[b].payment
      ==> a == b
  }

  ghost predicate AllocationsGrow(s: Store, t: Store) {
    KeepsAllocations(s, t) && NewWithinPayments(s, t) && OnePerPayment(s, t)
  }

  ghost predicate InvoiceGrows(s: Store, t: Store, i: Id)
    requires i in s.invoices && i in t.invoices
  {
    && t.invoices[i] == s.invoices[i].(paid := t.invoices[i].paid, status := t.invoices[i].status)
    && t.invoices[i].paid == s.invoices[i].paid + Sum(NewTo(s, t, i), AmountOf(t))
    && (t.invoices[i] == s.invoices[i] || s.invoices[i].paid < t.invoices[i].paid <= t.invoices[i].total)
  }

  /**
   t comes from s by allocating: a payment gets at most one allocation and only
   if it had none, no allocation exceeds its payment, and every invoice's
   amount_paid is its initial value plus its new allocations and never passes
   its total by them.
   */
  ghost predicate AllocatedFrom(s: Store, t: Store) {
    && t == s.(invoices := t.invoices, allocations := t.allocations)
    && AllocationsGrow(s, t)
    && t.invoices.Keys == s.invoices.Keys
    && forall i :: i in s.invoices ==> InvoiceGrows(s, t, i)
  }

  lemma AllocatedFromReflexive(s: Store)
    ensures AllocatedFrom(s, s)
  {
    forall i | i in s.invoices ensures InvoiceGrows(s, s, i) {
      assert NewTo(s, s, i) == {};
    }
  }

  lemma NewToCompose(s: Store, t: Store, u: Store, i: Id)
    requires KeepsAllocations(s, t) && KeepsAllocations(t, u)
    ensures NewTo(s, u, i) == NewTo(s, t, i) + NewTo(t, u, i)
    ensures NewTo(s, t, i) !! NewTo(t, u, i)
  {
  }

  lemma NewSumsCompose(s: Store, t: Store, u: Store, i: Id)
    requires KeepsAllocations(s, t) && KeepsAllocations(t, u)
    ensures Sum(NewTo(s, u, i), AmountOf(u)) == Sum(NewTo(s, t, i), AmountOf(t)) + Sum(NewTo(t, u, i), AmountOf(u))
  {
    NewToCompose(s, t, u, i);
    SumUnion(NewTo(s, t, i), NewTo(t, u, i), AmountOf(u));
    SumAgree(NewTo(s, t, i), AmountOf(t), AmountOf(u));
  }

  lemma UnallocatedBefore(s: Store, t: Store, payment: Id)
    requires KeepsAllocations(s, t) && Unallocated(t, payment)
    ensures Unallocated(s, payment)
  {
    forall a | a in s.allocations ensures s.allocations[a].payment != payment {
      assert a in t.allocations;
    }
  }

  lemma GrowthComposes(s: Store, t: Store, u: Store)
    requires AllocationsGrow(s, t) && AllocationsGrow(t, u) && t.payments == s.payments
    requires t.invoices.Keys == s.invoices.Keys && forall i :: i in s.invoices ==> t.invoices[i].customer == s.invoices[i].customer
    ensures AllocationsGrow(s, u)
  {
    forall a | a in NewAllocations(s, u) ensures WithinPayment(s, u.allocations[a]) {
      if a in t.allocations {
        assert a in NewAllocations(s, t);
      } else {
        assert a in NewAllocations(t, u);
        UnallocatedBefore(s, t, u.allocations[a].payment);
      }
    }
    forall a, b | a in NewAllocations(s, u) && b in NewAllocations(s, u)
                  && u.allocations[a].payment == u.allocations[b].payment
      ensures a == b
    {
      assert a in NewAllocations(s, t) || a in NewAllocations(t, u);
      assert b in NewAllocations(s, t) || b in NewAllocations(t, u);
    }
  }

  lemma AllocatedFromTransitive(s: Store, t: Store, u: Store)
    requires AllocatedFrom(s, t) && AllocatedFrom(t, u)
    ensures AllocatedFrom(s, u)
  {
    GrowthComposes(s, t, u);
    forall i | i in s.invoices ensures InvoiceGrows(s, u, i) {
      NewSumsCompose(s, t, u, i);
      assert InvoiceGrows(s, t, i) && InvoiceGrows(t, u, i);
    }
  }

  /** The candidate's payment is real, of the stated amount and the invoice's customer, and has no allocation. */
  ghost predicate Payable(s: Store, c: Candidate) {
    && c.payment in s.payments && c.amount == s.payments[c.payment].amount && c.amount > 0
    && c.invoice in s.invoices && s.invoices[c.invoice].customer == s.payments[c.payment].customer
    && Unallocated(s, c.payment)
  }

  lemma AllocateAllocations(s: Store, c: Candidate, newId: IdSource)
    requires Generates(newId) && Payable(s, c) && Allocate(s, c, newId) != s
    ensures AllocationsGrow(s, Allocate(s, c, newId))
    ensures NewAllocations(s, Allocate(s, c, newId)) == {newId(s.allocations)}
  {
    assert newId(s.allocations) !in s.allocations;
  }

  lemma AllocateInvoices(s: Store, c: Candidate, newId: IdSource, i: Id)
    requires Generates(newId) && Allocate(s, c, newId) != s && i in s.invoices && c.amount > 0
    requires NewAllocations(s, Allocate(s, c, newId)) == {newId(s.allocations)}
    ensures i in Allocate(s, c, newId).invoices && InvoiceGrows(s, Allocate(s, c, newId), i)
  {
    var t, id := Allocate(s, c, newId), newId(s.allocations);
    if i == c.invoice {
      assert NewTo(s, t, i) == {id};
      SumRemove({id}, AmountOf(t), id);
      assert {id} - {id} == {};
    } else {
      assert NewTo(s, t, i) == {};
    }
  }

  lemma AllocateGrows(s: Store, c: Candidate, newId: IdSource)
    requires Generates(newId) && Payable(s, c)
    ensures AllocatedFrom(s, Allocate(s, c, newId))
  {
    var t := Allocate(s, c, newId);
    if t == s {
      AllocatedFromReflexive(s);
    } else {
      AllocateAllocations(s, c, newId);
      forall i | i in s.invoices ensures i in t.invoices && InvoiceGrows(s, t, i) {
        AllocateInvoices(s, c, newId, i);
      }
    }
  }

  lemma AllocateLeavesOthers(s: Store, c: Candidate, newId: IdSource, other: Id)
    requires Generates(newId) && other != c.payment && Unallocated(s, other)
    ensures Unallocated(Allocate(s, c, newId), other)
  {
  }

  ghost predicate PayableList(s: Store, cs: seq<Candidate>, n: nat) {
    && (forall i :: n <= i < |cs| ==> Payable(s, cs[i]))
    && (forall i, j :: 0 <= i < j < |cs| ==> cs[i].payment != cs[j].payment)
  }

  lemma AllocateStep(s: Store, cs: seq<Candidate>, newId: IdSource, n: nat)
    requires Generates(newId) && n < |cs| && PayableList(s, cs, n)
    ensures AllocatedFrom(s, Allocate(s, cs[n], newId))
    ensures PayableList(Allocate(s, cs[n], newId), cs, n + 1)
  {
    AllocateGrows(s, cs[n], newId);
    forall i | n + 1 <= i < |cs| ensures Payable(Allocate(s, cs[n], newId), cs[i]) {
      AllocateLeavesOthers(s, cs[n], newId, cs[i].payment);
    }
  }

  lemma {:induction false} AppliedGrows(s: Store, cs: seq<Candidate>, newId: IdSource, from: nat, n: nat)
    requires Generates(newId) && from <= n <= |cs| && PayableList(s, cs, 0)
    ensures AllocatedFrom(s, Applied(s, cs, newId, from, n))
    ensures PayableList(Applied(s, cs, newId, from, n), cs, n)
    decreases n - from
  {
    if n == from {
      AllocatedFromReflexive(s);
    } else {
      AppliedGrows(s, cs, newId, from, n - 1);
      NextApplied(s, Applied(s, cs, newId, from, n - 1), cs, newId, n - 1);
    }
  }

  lemma NextApplied(s: Store, before: Store, cs: seq<Candidate>, newId: IdSource, n: nat)
    requires Generates(newId) && n < |cs| && AllocatedFrom(s, before) && PayableList(before, cs, n)
    ensures AllocatedFrom(s, if FirstOfInvoice(cs, n) then Allocate(before, cs[n], newId) else before)
    ensures PayableList(if FirstOfInvoice(cs, n) then Allocate(before, cs[n], newId) else before, cs, n + 1)
  {
    if FirstOfInvoice(cs, n) {
      AllocateStep(before, cs, newId, n);
      AllocatedFromTransitive(s, before, Allocate(before, cs[n], newId));
    }
  }

  /** The number of candidates up to and including the last failing one. */
  lemma {:induction false} LastFailure(start: Store, cs: seq<Candidate>, raises: nat -> bool, newId: IdSource, n: nat) returns (from: nat)
    requires n <= |cs|
    ensures from <= n && (from > 0 ==> Fails(start, cs, raises, newId, from - 1))
    ensures forall i :: from <= i < n ==> !Fails(start, cs, raises, newId, i)
  {
    if n == 0 {
      from := 0;
    } else if Fails(start, cs, raises, newId, n - 1) {
      from := n;
    } else {
      from := LastFailure(start, cs, raises, newId, n - 1);
    }
  }

  /** One execution of the script. */
  datatype Execution = Execution(candidates: seq<Candidate>, raises: nat -> bool, commits: bool)

  function RunOne(s: Store, e: Execution, newId: IdSource): Store {
    if e.commits then After(s, e.candidates, e.raises, newId, |e.candidates|) else s
  }

  function RunAll(s: Store, runs: seq<Execution>, newId: IdSource): Store
    decreases |runs|
  {
    if runs == [] then s
    else RunAll(RunOne(s, runs[0], newId), runs[1..], newId)
  }

  /** Each run works on an answer to the query at its own start; the filters may differ from run to run. */
  ghost predicate RunsAnswered(s: Store, runs: seq<Execution>, newId: IdSource)
    decreases |runs|
  {
    runs == []
    || ((exists years, limit :: IsListing(s, years, limit, runs[0].candidates))
        && RunsAnswered(RunOne(s, runs[0], newId), runs[1..], newId))
  }

  lemma RunGrows(s: Store, cs: seq<Candidate>, raises: nat -> bool, newId: IdSource, years: Years, limit: Option<nat>)
    requires Generates(newId) && IsListing(s, years, limit, cs)
    ensures AllocatedFrom(s, After(s, cs, raises, newId, |cs|))
  {
    ListingFacts(s, years, limit, cs);
    var from := LastFailure(s, cs, raises, newId, |cs|);
    KeepsWorkAfterLastFailure(s, cs, raises, newId, from, |cs|);
    assert PayableList(s, cs, 0);
    AppliedGrows(s, cs, newId, from, |cs|);
  }

  /** Conservation over any number of runs, whatever fails in them. */
  lemma {:induction false} RunsConserve(s: Store, runs: seq<Execution>, newId: IdSource)
    requires Generates(newId) && RunsAnswered(s, runs, newId)
    ensures AllocatedFrom(s, RunAll(s, runs, newId))
    decreases |runs|
  {
    if runs == [] {
      AllocatedFromReflexive(s);
    } else {
      var cs := runs[0].candidates;
      var years, limit :| IsListing(s, years, limit, cs);
      var t := RunOne(s, runs[0], newId);
      RunGrows(s, cs, runs[0].raises, newId, years, limit);
      AllocatedFromReflexive(s);
      RunsConserve(t, runs[1..], newId);
      AllocatedFromTransitive(s, t, RunAll(t, runs[1..], newId));
    }
  }

  // ---- Dry run against execution ----

  function DryAmount(c: Candidate): int {
    Min(c.amount, c.outstanding)
  }

  function DryStatus(c: Candidate): InvoiceStatus {
    if c.total - c.outstanding + c.amount >= c.total - AMOUNT_TOLERANCE
    then InvoiceStatus.Paid else InvoiceStatus.PartiallyPaid
  }

  /** It is PAID iff the payment falls short of the balance by at most 0.01, and else PARTIALLY_PAID. */
  lemma DryStatusMeans(c: Candidate)
    ensures DryStatus(c) == InvoiceStatus.Paid <==> c.outstanding - c.amount <= 10_000
    ensures DryStatus(c) == InvoiceStatus.PartiallyPaid <==> c.outstanding - c.amount > 10_000
  {
  }

  ghost predicate NoErrors(raises: nat -> bool) {
    forall i: nat :: !raises(i)
  }

  /** The invoice of a candidate still to come, or of a repeated one, is as the query saw it or already treated. */
  lemma {:induction false} UntouchedUntilFirst(s: Store, cs: seq<Candidate>, raises: nat -> bool, newId: IdSource, n: nat, i: Id)
    requires n <= |cs| && NoErrors(raises) && i in s.invoices
    requires forall k :: 0 <= k < |cs| ==> cs[k].invoice in s.invoices
    ensures After(s, cs, raises, newId, n).invoices.Keys == s.invoices.Keys
    ensures (forall k :: 0 <= k < n ==> cs[k].invoice != i) ==> After(s, cs, raises, newId, n).invoices[i] == s.invoices[i]
  {
    if n > 0 {
      UntouchedUntilFirst(s, cs, raises, newId, n - 1, i);
    }
  }

  lemma {:induction false} TreatedOnce(s: Store, cs: seq<Candidate>, raises: nat -> bool, newId: IdSource, n: nat, k: nat)
    requires k < n <= |cs| && NoErrors(raises) && FirstOfInvoice(cs, k)
    requires forall j :: 0 <= j < |cs| ==> cs[j].invoice in s.invoices
    requires cs[k].outstanding == LiveOutstanding(s, cs[k].invoice) > 0
    ensures cs[k].invoice in After(s, cs, raises, newId, n).invoices
    ensures After(s, cs, raises, newId, n).invoices[cs[k].invoice] == PayInvoice(s.invoices[cs[k].invoice], DryAmount(cs[k]))
  {
    UntouchedUntilFirst(s, cs, raises, newId, n - 1, cs[k].invoice);
    if k < n - 1 {
      TreatedOnce(s, cs, raises, newId, n - 1, k);
      assert cs[n - 1].invoice == cs[k].invoice ==> !FirstOfInvoice(cs, n - 1);
    }
  }

  /**
   In a run without errors the first candidate of each invoice is allocated with
   the amount the dry run announces; the announced status is the real one iff
   the payment covers the outstanding balance.
   */
  lemma DryRunAgrees(s: Store, years: Years, limit: Option<nat>, cs: seq<Candidate>, raises: nat -> bool, newId: IdSource, k: nat)
    requires IsListing(s, years, limit, cs) && NoErrors(raises) && k < |cs| && FirstOfInvoice(cs, k)
    requires s.invoices[cs[k].invoice].paid >= 0
    ensures cs[k].invoice in After(s, cs, raises, newId, |cs|).invoices
    ensures var i := After(s, cs, raises, newId, |cs|).invoices[cs[k].invoice];
      && i.paid == s.invoices[cs[k].invoice].paid + DryAmount(cs[k])
      && (i.status == DryStatus(cs[k]) <==> cs[k].amount >= cs[k].outstanding)
  {
    ListingFacts(s, years, limit, cs);
    assert forall j :: 0 <= j < |cs| ==> cs[j].invoice in MatchingInvoices(s, s.payments[cs[j].payment]);
    TreatedOnce(s, cs, raises, newId, |cs|, k);
    assert AmountsMatch(cs[k].total, cs[k].amount);
  }

  /** With whole-kobo amounts every allocation pays its invoice in full, as announced. */
  lemma WholeKoboPaysInFull(s: Store, years: Years, limit: Option<nat>, cs: seq<Candidate>, raises: nat -> bool, newId: IdSource, k: nat)
    requires IsListing(s, years, limit, cs) && NoErrors(raises) && k < |cs| && FirstOfInvoice(cs, k)
    requires s.invoices[cs[k].invoice].paid >= 0
    requires cs[k].amount % KOBO == 0 && cs[k].total % KOBO == 0
    ensures cs[k].invoice in After(s, cs, raises, newId, |cs|).invoices
    ensures var i := After(s, cs, raises, newId, |cs|).invoices[cs[k].invoice];
      i.status == InvoiceStatus.Paid == DryStatus(cs[k]) && i.paid == i.total
  {
    ListingFacts(s, years, limit, cs);
    assert cs[k].invoice in MatchingInvoices(s, s.payments[cs[k].payment]);
    assert AmountsMatch(cs[k].total, cs[k].amount);
    assert cs[k].total == cs[k].amount;
    DryRunAgrees(s, years, limit, cs, raises, newId, k);
    assert forall j :: 0 <= j < |cs| ==> cs[j].invoice in MatchingInvoices(s, s.payments[cs[j].payment]);
    TreatedOnce(s, cs, raises, newId, |cs|, k);
  }

  /** Error-free execution and dry run report the same numbers. */
  lemma {:induction false} DryRunCountsAgree(s: Store, cs: seq<Candidate>, raises: nat -> bool, newId: IdSource, n: nat)
    requires n <= |cs| && NoErrors(raises)
    requires forall j :: 0 <= j < |cs| ==> cs[j].invoice in s.invoices && LiveOutstanding(s, cs[j].invoice) > 0
    ensures Counted(s, cs, raises, newId, true, n) == Counted(s, cs, raises, newId, false, n)
    ensures Counted(s, cs, raises, newId, true, n).created + Counted(s, cs, raises, newId, true, n).skipped == n
    ensures Counted(s, cs, raises, newId, true, n).errors == 0
  {
    if n > 0 {
      DryRunCountsAgree(s, cs, raises, newId, n - 1);
      UntouchedUntilFirst(s, cs, raises, newId, n - 1, cs[n - 1].invoice);
    }
  }

  /** A store with one cleared payment, half a kobo short of its customer's one open invoice. */
  function HalfKoboShort(): Store {
    var c := Customer(5, "CUST-00001", "acme", None, None, 1, None);
    var p := Payment(7, 99_995_000, 0, 0, PaymentStatus.Cleared, None, None, None, None);
    var i := Invoice(7, 100_000_000, 0, 0, 0, InvoiceStatus.Posted, None, None, None, None);
    Store(map[7 := c], map[1 := p], map[2 := i], map[], map[], map[], map[], {}, map[], map[], map[])
  }

  lemma HalfKoboListing(c: Candidate)
    requires c == Candidate(1, 99_995_000, 2, 100_000_000, 100_000_000)
    ensures IsListing(HalfKoboShort(), AllYears, None, [c])
  {
    var s := HalfKoboShort();
    assert MatchingInvoices(s, s.payments[1]) == {2};
    assert IsCandidate(s, AllYears, c);
    forall d | IsCandidate(s, AllYears, d) ensures d in [c] {
      CandidateDetermined(s, AllYears, c, d);
      assert d == c;
    }
    assert IsFullListing(s, AllYears, [c]) && Limited([c], None) == [c];
  }

  /**
   A sub-kobo shortfall, for every execution without errors: the query lists the
   payment, the dry run announces PAID, and the invoice ends PARTIALLY_PAID.
   */
  lemma SubKoboDisagrees(raises: nat -> bool, newId: IdSource) returns (s: Store, c: Candidate)
    requires NoErrors(raises)
    ensures IsListing(s, AllYears, None, [c]) && DryStatus(c) == InvoiceStatus.Paid
    ensures c.invoice in After(s, [c], raises, newId, 1).invoices
    ensures After(s, [c], raises, newId, 1).invoices[c.invoice].status == InvoiceStatus.PartiallyPaid
  {
    s, c := HalfKoboShort(), Candidate(1, 99_995_000, 2, 100_000_000, 100_000_000);
    HalfKoboListing(c);
    TreatedOnce(s, [c], raises, newId, 1, 0);
  }
}
