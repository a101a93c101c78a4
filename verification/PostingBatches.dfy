/**
 What a posting batch makes durable: process_batch of
 scripts/backfill_inventory_gl_postings.py (a savepoint per item) and
 _process_batch of scripts/backfill_gl_postings.py (bare rollback), over every
 sequence of posting outcomes and commit outcomes.
 */
module PostingBatches {
  import opened Basics
  import opened Sessions

  const COMMIT_EVERY := 50

  /** The state of the database is the log of the writes it holds, in order. */
  type Log<W> = seq<W>

  datatype Verdict = Posted | Refused | Raised

  /** One call of a posting service: what it wrote to the session, and how it ended. */
  datatype Call<W> = Call(verdict: Verdict, writes: seq<W>)

  /**
   An inventory transaction; zero-cost ones are skipped without a call.  releases
   tells whether the savepoint of a successful call can be released.
   */
  datatype Item<W> = Item(zeroCost: bool, call: Call<W>, releases: bool)

  // ---- A session as a sequence of events ----

  datatype Event<W> = Write(writes: seq<W>) | Commit | Undo

  datatype State<W> = State(current: Log<W>, durable: Log<W>)

  function Apply<W>(s: State<W>, e: Event<W>): State<W> {
    match e
    case Write(writes) => State(s.current + writes, s.durable)
    case Commit => State(s.current, s.current)
    case Undo => State(s.durable, s.durable)
  }

  function Run<W>(s: State<W>, events: seq<Event<W>>): State<W>
    decreases |events|
  {
    if events == [] then s else Run(Apply(s, events[0]), events[1..])
  }

  /** What comes first, leaving writes aside, is a commit. */
  predicate Settles<W>(events: seq<Event<W>>)
    decreases |events|
  {
    events != [] && (events[0].Commit? || (events[0].Write? && Settles(events[1..])))
  }

  /** The writes followed by a commit before any rollback. */
  function Kept<W>(events: seq<Event<W>>): Log<W>
    decreases |events|
  {
    if events == [] then []
    else if events[0].Write? && Settles(events[1..]) then events[0].writes + Kept(events[1..])
    else Kept(events[1..])
  }

  lemma {:induction false} SettlesIff<W>(events: seq<Event<W>>)
    ensures Settles(events)
       <==> exists c :: 0 <= c < |events| && events[c].Commit? && forall j :: 0 <= j < c ==> !events[j].Undo?
    decreases |events|
  {
    if events != [] && events[0].Write? {
      SettlesIff(events[1..]);
      if Settles(events[1..]) {
        var c :| 0 <= c < |events[1..]| && events[1..][c].Commit? && forall j :: 0 <= j < c ==> !events[1..][j].Undo?;
        forall j | 0 <= j < c + 1 ensures !events[j].Undo? {
          if j > 0 { assert events[j] == events[1..][j - 1]; }
        }
        assert events[c + 1].Commit?;
      }
      if c :| 0 <= c < |events| && events[c].Commit? && forall j :: 0 <= j < c ==> !events[j].Undo? {
        assert events[1..][c - 1].Commit? && forall j :: 0 <= j < c - 1 ==> !events[1..][j].Undo?;
      }
    }
  }

  lemma Regroup<W>(a: seq<W>, b: seq<W>, c: seq<W>)
    ensures (a + b) + c == a + (b + c)
  {
  }

  lemma {:induction false} RunDurable<W>(s: State<W>, events: seq<Event<W>>)
    ensures Run(s, events).durable == (if Settles(events) then s.current else s.durable) + Kept(events)
    decreases |events|
  {
    if events == [] {
    } else {
      RunDurable(Apply(s, events[0]), events[1..]);
      if events[0].Write? {
        Regroup(s.current, events[0].writes, Kept(events[1..]));
      }
    }
  }

  /** Whatever succeeds or fails, a write becomes durable iff the next commit or rollback after it is a commit. */
  lemma DurableIsKept<W>(start: Log<W>, events: seq<Event<W>>)
    ensures Run(State(start, start), events).durable == start + Kept(events)
  {
    RunDurable(State(start, start), events);
  }

  lemma KeptCons<W>(e: Event<W>, rest: seq<Event<W>>)
    ensures Settles([e] + rest) <==> e.Commit? || (e.Write? && Settles(rest))
    ensures Kept([e] + rest) == if e.Write? && Settles(rest) then e.writes + Kept(rest) else Kept(rest)
  {
    assert ([e] + rest)[1..] == rest;
  }

  lemma {:induction false} RunAppend<W>(s: State<W>, xs: seq<Event<W>>, ys: seq<Event<W>>)
    ensures Run(s, xs + ys) == Run(Run(s, xs), ys)
    decreases |xs|
  {
    if xs == [] {
      assert xs + ys == ys;
    } else {
      assert (xs + ys)[1..] == xs[1..] + ys;
      RunAppend(Apply(s, xs[0]), xs[1..], ys);
    }
  }

  function Attempt<W>(commits: bool): Event<W> {
    if commits then Commit else Undo
  }

  method TryCommit<W>(db: Session<Log<W>>, commits: bool)
    modifies db
    ensures State(db.current, db.durable) == Apply(State(old(db.current), old(db.durable)), Attempt<W>(commits))
    ensures db.savepoints == []
  {
    if commits {
      db.Commit();
    } else {
      db.Rollback();
    }
  }

  // ---- Inventory: a savepoint per item ----

  predicate Persists<W>(item: Item<W>) {
    !item.zeroCost && item.call.verdict == Posted && item.releases
  }

  /** The call succeeded, and then its savepoint could not be released. */
  predicate ReleaseFails<W>(item: Item<W>) {
    !item.zeroCost && item.call.verdict == Posted && !item.releases
  }

  /** The events of item number n (from 1); a skipped item reaches no commit either. */
  function InventoryEvents<W>(item: Item<W>, n: nat, commits: nat -> bool): seq<Event<W>> {
    if item.zeroCost then []
    else (if Persists(item) then [Write(item.call.writes)] else [])
         + (if n % COMMIT_EVERY == 0 then [Attempt(commits(n))] else [])
  }

  /** commits(n) is the outcome of the commit after item n, commits(0) that of the last one. */
  function InventoryTrace<W>(items: seq<Item<W>>, n: nat, commits: nat -> bool): seq<Event<W>>
    decreases |items|
  {
    if items == [] then [Attempt(commits(0))]
    else InventoryEvents(items[0], n + 1, commits) + InventoryTrace(items[1..], n + 1, commits)
  }

  datatype Counts = Counts(posted: nat, failed: nat, skipped: nat)

  /** A failing release comes after posted += 1 and before failed += 1. */
  function CountOf<W>(item: Item<W>): Counts {
    if item.zeroCost then Counts(0, 0, 1)
    else if item.call.verdict == Posted then Counts(1, if item.releases then 0 else 1, 0)
    else Counts(0, 1, 0)
  }

  function Tally<W>(items: seq<Item<W>>): Counts
    decreases |items|
  {
    if items == [] then Counts(0, 0, 0)
    else
      var rest, last := Tally(items[..|items| - 1]), CountOf(items[|items| - 1]);
      Counts(rest.posted + last.posted, rest.failed + last.failed, rest.skipped + last.skipped)
  }

  method ProcessInventoryItem<W>(db: Session<Log<W>>, item: Item<W>, n: nat, commits: nat -> bool) returns (count: Counts)
    requires db.savepoints == []
    modifies db
    ensures db.savepoints == []
    ensures State(db.current, db.durable)
         == Run(State(old(db.current), old(db.durable)), InventoryEvents(item, n, commits))
    ensures count == CountOf(item)
  {
    if item.zeroCost {
      return Counts(0, 0, 1);
    }
    ghost var s := State(db.current, db.durable);
    db.BeginNested();
    db.Write(db.current + item.call.writes);
    match item.call.verdict {
      case Posted =>
        count := Counts(1, 0, 0);
        if item.releases {
          db.ReleaseSavepoint();
        } else {
          count := count.(failed := 1);
          db.RollbackToSavepoint();
        }
      case Refused =>
        count := Counts(0, 1, 0);
        db.RollbackToSavepoint();
      case Raised =>
        count := Counts(0, 1, 0);
        db.RollbackToSavepoint();
    }
    ghost var posting := if Persists(item) then [Write(item.call.writes)] else [];
    assert State(db.current, db.durable) == Run(s, posting);
    if n % COMMIT_EVERY == 0 {
      TryCommit(db, commits(n));
      RunAppend(s, posting, [Attempt(commits(n))]);
    } else {
      assert posting + [] == posting;
    }
  }

  method ProcessInventoryBatch<W>(db: Session<Log<W>>, items: seq<Item<W>>, commits: nat -> bool) returns (counts: Counts)
    requires db.savepoints == []
    modifies db
    ensures State(db.current, db.durable)
         == Run(State(old(db.current), old(db.durable)), InventoryTrace(items, 0, commits))
    ensures counts == Tally(items)
  {
    ghost var s := State(db.current, db.durable);
    counts := Counts(0, 0, 0);
    for n := 0 to |items|
      invariant db.savepoints == []
      invariant Run(State(db.current, db.durable), InventoryTrace(items[n..], n, commits))
             == Run(s, InventoryTrace(items, 0, commits))
      invariant counts == Tally(items[..n])
    {
      assert items[n..][1..] == items[n + 1..] && items[..n + 1][..n] == items[..n];
      RunAppend(State(db.current, db.durable), InventoryEvents(items[n], n + 1, commits), InventoryTrace(items[n + 1..], n + 1, commits));
      var count := ProcessInventoryItem(db, items[n], n + 1, commits);
      counts := Counts(counts.posted + count.posted, counts.failed + count.failed, counts.skipped + count.skipped);
    }
    assert items[..|items|] == items;
    TryCommit(db, commits(0));
  }

  function FailedReleases<W>(items: seq<Item<W>>): nat
    decreases |items|
  {
    if items == [] then 0
    else FailedReleases(items[..|items| - 1]) + if ReleaseFails(items[|items| - 1]) then 1 else 0
  }

  ghost predicate PostedPlaces<W>(items: seq<Item<W>>, places: set<nat>) {
    forall i: nat :: i in places <==> i < |items| && !items[i].zeroCost && items[i].call.verdict == Posted
  }

  ghost predicate FreePlaces<W>(items: seq<Item<W>>, places: set<nat>) {
    forall i: nat :: i in places <==> i < |items| && items[i].zeroCost
  }

  lemma PlacesBefore<W>(items: seq<Item<W>>, posted: set<nat>, free: set<nat>)
    requires items != [] && PostedPlaces(items, posted) && FreePlaces(items, free)
    ensures PostedPlaces(items[..|items| - 1], posted - {|items| - 1})
    ensures FreePlaces(items[..|items| - 1], free - {|items| - 1})
  {
  }

  /** Counted as posted is what the service posted, as skipped what costs nothing. */
  lemma {:induction false} TallyCounts<W>(items: seq<Item<W>>, posted: set<nat>, free: set<nat>)
    requires PostedPlaces(items, posted) && FreePlaces(items, free)
    ensures Tally(items).posted == |posted| && Tally(items).skipped == |free|
    decreases |items|
  {
    if items == [] {
      assert posted == {} && free == {};
    } else {
      var n := |items| - 1;
      PlacesBefore(items, posted, free);
      TallyCounts(items[..n], posted - {n}, free - {n});
      LastPlace(posted, n);
      LastPlace(free, n);
    }
  }

  /** An item whose release fails is counted twice; without one the three counters add up to the total. */
  lemma {:induction false} TallyIsTotal<W>(items: seq<Item<W>>)
    ensures Tally(items).posted + Tally(items).failed + Tally(items).skipped == |items| + FailedReleases(items)
    ensures FailedReleases(items) == 0 <==> forall i :: 0 <= i < |items| ==> !ReleaseFails(items[i])
    decreases |items|
  {
    if items == [] {
    } else {
      var n := |items| - 1;
      TallyIsTotal(items[..n]);
      assert forall i :: 0 <= i < n ==> items[..n][i] == items[i];
    }
  }

  /** The number of the commit that decides on item k: of the next item that reaches one, or 0 for the last. */
  function NextCommit<W>(items: seq<Item<W>>, k: nat): nat
    requires k <= |items|
    decreases |items| - k
  {
    if k == |items| then 0
    else if !items[k].zeroCost && (k + 1) % COMMIT_EVERY == 0 then k + 1
    else NextCommit(items, k + 1)
  }

  /** A commit is attempted after item j: it costs something and its place is a multiple of fifty. */
  predicate AttemptsAfter<W>(items: seq<Item<W>>, j: nat)
    requires j < |items|
  {
    !items[j].zeroCost && (j + 1) % 50 == 0
  }

  /** In numbers: the first such item from k on decides, and the last commit if there is none. */
  lemma {:induction false} NextCommitMeans<W>(items: seq<Item<W>>, k: nat)
    requires k <= |items|
    ensures NextCommit(items, k) == 0 ==> forall j: nat :: k <= j < |items| ==> !AttemptsAfter(items, j)
    ensures NextCommit(items, k) > 0 ==>
      && k < NextCommit(items, k) <= |items| && AttemptsAfter(items, NextCommit(items, k) - 1)
      && forall j: nat :: k <= j < NextCommit(items, k) - 1 ==> !AttemptsAfter(items, j)
    decreases |items| - k
  {
    if k < |items| {
      NextCommitMeans(items, k + 1);
    }
  }

  /** The writes, from item k on, of the successful items whose commit goes through, in order. */
  function CommittedWrites<W>(items: seq<Item<W>>, k: nat, commits: nat -> bool): Log<W>
    requires k <= |items|
    decreases |items| - k
  {
    if k == |items| then []
    else if !items[k].zeroCost && items[k].call.verdict == Posted && items[k].releases && commits(NextCommit(items, k))
    then items[k].call.writes + CommittedWrites(items, k + 1, commits)
    else CommittedWrites(items, k + 1, commits)
  }

  lemma AttemptFirst<W>(commits: bool, rest: seq<Event<W>>)
    ensures Settles([Attempt(commits)] + rest) <==> commits
    ensures Kept([Attempt(commits)] + rest) == Kept(rest)
  {
    KeptCons(Attempt<W>(commits), rest);
  }

  lemma LastAttempt<W>(commits: bool)
    ensures Settles<W>([Attempt(commits)]) <==> commits
    ensures Kept<W>([Attempt(commits)]) == []
  {
    var last: seq<Event<W>> := [Attempt(commits)];
    AttemptFirst<W>(commits, []);
    assert last + [] == last;
  }

  /** What the events of item number n add to those after them. */
  lemma InventoryHead<W>(item: Item<W>, rest: seq<Event<W>>, n: nat, commits: nat -> bool)
    ensures var all := InventoryEvents(item, n, commits) + rest;
      && (Settles(all) <==> if !item.zeroCost && n % COMMIT_EVERY == 0 then commits(n) else Settles(rest))
      && Kept(all) == if Persists(item) && Settles(all) then item.call.writes + Kept(rest) else Kept(rest)
  {
    var attempts := !item.zeroCost && n % COMMIT_EVERY == 0;
    var tail := if attempts then [Attempt(commits(n))] + rest else rest;
    AttemptFirst(commits(n), rest);
    if Persists(item) {
      KeptCons(Write(item.call.writes), tail);
      assert InventoryEvents(item, n, commits) + rest == [Write(item.call.writes)] + tail;
    } else {
      assert InventoryEvents(item, n, commits) + rest == tail;
    }
  }

  /**
   Per-item savepoints: an item's writes are kept iff it succeeded, its savepoint
   was released, and the next commit the loop attempts goes through.
   */
  lemma {:induction false} InventoryKeepsSuccesses<W>(items: seq<Item<W>>, k: nat, commits: nat -> bool)
    requires k <= |items|
    ensures Settles(InventoryTrace(items[k..], k, commits)) <==> commits(NextCommit(items, k))
    ensures Kept(InventoryTrace(items[k..], k, commits)) == CommittedWrites(items, k, commits)
    decreases |items| - k
  {
    if k == |items| {
      LastAttempt<W>(commits(0));
      assert InventoryTrace(items[k..], k, commits) == [Attempt(commits(0))];
    } else {
      assert items[k..][1..] == items[k + 1..];
      InventoryKeepsSuccesses(items, k + 1, commits);
      InventoryHead(items[k], InventoryTrace(items[k + 1..], k + 1, commits), k + 1, commits);
    }
  }

  // ---- Generic backfill: bare rollback ----

  function GlEvents<W>(call: Call<W>, n: nat, commits: nat -> bool): seq<Event<W>> {
    [if call.verdict == Raised then Undo else Write(call.writes)]
    + (if n % COMMIT_EVERY == 0 then [Attempt(commits(n))] else [])
  }

  function GlTrace<W>(calls: seq<Call<W>>, n: nat, commits: nat -> bool): seq<Event<W>>
    decreases |calls|
  {
    if calls == [] then [Attempt(commits(0))]
    else GlEvents(calls[0], n + 1, commits) + GlTrace(calls[1..], n + 1, commits)
  }

  function Verdicts<W>(calls: seq<Call<W>>, v: Verdict): nat
    decreases |calls|
  {
    if calls == [] then 0
    else Verdicts(calls[..|calls| - 1], v) + if calls[|calls| - 1].verdict == v then 1 else 0
  }

  /** The call's partial writes stay in the session until its own rollback, if it raises. */
  method ProcessGlItem<W>(db: Session<Log<W>>, call: Call<W>, n: nat, commits: nat -> bool)
    modifies db
    ensures State(db.current, db.durable) == Run(State(old(db.current), old(db.durable)), GlEvents(call, n, commits))
  {
    ghost var s := State(db.current, db.durable);
    ghost var posting := [if call.verdict == Raised then Undo else Write(call.writes)];
    db.Write(db.current + call.writes);
    if call.verdict == Raised {
      db.Rollback();
    }
    assert State(db.current, db.durable) == Run(s, posting);
    if n % COMMIT_EVERY == 0 {
      TryCommit(db, commits(n));
      RunAppend(s, posting, [Attempt(commits(n))]);
    } else {
      assert posting + [] == posting;
    }
  }

  /** Each count is the number of places with that verdict. */
  lemma {:induction false} VerdictsCount<W>(calls: seq<Call<W>>, v: Verdict, places: set<nat>)
    requires forall i: nat :: i in places <==> i < |calls| && calls[i].verdict == v
    ensures Verdicts(calls, v) == |places|
    decreases |calls|
  {
    if calls == [] {
      assert places == {};
    } else {
      var n := |calls| - 1;
      VerdictsCount(calls[..n], v, places - {n});
      assert places == if calls[n].verdict == v then places - {n} + {n} else places - {n};
    }
  }

  method ProcessGlBatch<W>(db: Session<Log<W>>, calls: seq<Call<W>>, commits: nat -> bool) returns (posted: nat, failed: nat)
    modifies db
    ensures State(db.current, db.durable) == Run(State(old(db.current), old(db.durable)), GlTrace(calls, 0, commits))
    ensures posted == Verdicts(calls, Posted) && failed == Verdicts(calls, Raised)
  {
    ghost var s := State(db.current, db.durable);
    posted, failed := 0, 0;
    for n := 0 to |calls|
      invariant Run(State(db.current, db.durable), GlTrace(calls[n..], n, commits)) == Run(s, GlTrace(calls, 0, commits))
      invariant posted == Verdicts(calls[..n], Posted) && failed == Verdicts(calls[..n], Raised)
    {
      assert calls[n..][1..] == calls[n + 1..] && calls[..n + 1][..n] == calls[..n];
      RunAppend(State(db.current, db.durable), GlEvents(calls[n], n + 1, commits), GlTrace(calls[n + 1..], n + 1, commits));
      ProcessGlItem(db, calls[n], n + 1, commits);
      if calls[n].verdict == Posted {
        posted := posted + 1;
      } else if calls[n].verdict == Raised {
        failed := failed + 1;
      }
    }
    assert calls[..|calls|] == calls;
    TryCommit(db, commits(0));
  }

  /** Items k and j are committed together. */
  predicate SameBlock(k: nat, j: nat) {
    k / COMMIT_EVERY == j / COMMIT_EVERY
  }

  /** The number of the commit that decides on item k of n: the end of its block of 50, or 0 for the last. */
  function BlockCommit(n: nat, k: nat): nat {
    var end := (k / COMMIT_EVERY + 1) * COMMIT_EVERY;
    if end <= n then end else 0
  }

  /** Neither item k nor any later item of its block of 50 raised, and the block's commit went through. */
  predicate GlSurvives<W>(calls: seq<Call<W>>, k: nat, commits: nat -> bool)
    requires k < |calls|
  {
    && commits(BlockCommit(|calls|, k))
    && forall j :: k <= j < |calls| && SameBlock(k, j) ==> calls[j].verdict != Raised
  }

  function SurvivingWrites<W>(calls: seq<Call<W>>, k: nat, commits: nat -> bool): Log<W>
    requires k <= |calls|
    decreases |calls| - k
  {
    if k == |calls| then []
    else if GlSurvives(calls, k, commits) then calls[k].writes + SurvivingWrites(calls, k + 1, commits)
    else SurvivingWrites(calls, k + 1, commits)
  }

  lemma BlockCommitStep(n: nat, k: nat)
    requires k < n
    ensures (k + 1) % COMMIT_EVERY == 0 ==> BlockCommit(n, k) == k + 1
    ensures (k + 1) % COMMIT_EVERY != 0 && k + 1 == n ==> BlockCommit(n, k) == 0
    ensures (k + 1) % COMMIT_EVERY != 0 ==> BlockCommit(n, k + 1) == BlockCommit(n, k)
  {
  }

  lemma GlSurvivesStep<W>(calls: seq<Call<W>>, k: nat, commits: nat -> bool)
    requires k < |calls|
    ensures GlSurvives(calls, k, commits) <==>
      && calls[k].verdict != Raised
      && if (k + 1) % COMMIT_EVERY == 0 then commits(k + 1)
         else if k + 1 == |calls| then commits(0) else GlSurvives(calls, k + 1, commits)
  {
    BlockCommitStep(|calls|, k);
    if (k + 1) % COMMIT_EVERY == 0 {
      assert forall j :: k < j < |calls| ==> !SameBlock(k, j);
    } else {
      assert forall j :: SameBlock(k, j) <==> SameBlock(k + 1, j);
    }
    assert SameBlock(k, k);
  }

  /** What the events of call number n add to those after them. */
  lemma GlHead<W>(call: Call<W>, rest: seq<Event<W>>, n: nat, commits: nat -> bool)
    ensures var all := GlEvents(call, n, commits) + rest;
      && (Settles(all) <==> call.verdict != Raised && if n % COMMIT_EVERY == 0 then commits(n) else Settles(rest))
      && Kept(all) == if Settles(all) then call.writes + Kept(rest) else Kept(rest)
  {
    var tail := if n % COMMIT_EVERY == 0 then [Attempt(commits(n))] + rest else rest;
    AttemptFirst(commits(n), rest);
    var own := if call.verdict == Raised then Undo else Write(call.writes);
    KeptCons(own, tail);
    assert GlEvents(call, n, commits) + rest == [own] + tail;
  }

  /**
   Bare rollback: an item's writes are kept iff neither it nor any later item of
   its block of 50 raised and the block's commit went through.
   */
  lemma {:induction false} GlKeepsBlocksAfterLastRaise<W>(calls: seq<Call<W>>, k: nat, commits: nat -> bool)
    requires k <= |calls|
    ensures Kept(GlTrace(calls[k..], k, commits)) == SurvivingWrites(calls, k, commits)
    ensures Settles(GlTrace(calls[k..], k, commits)) <==> if k == |calls| then commits(0) else GlSurvives(calls, k, commits)
    decreases |calls| - k
  {
    if k == |calls| {
      LastAttempt<W>(commits(0));
      assert GlTrace(calls[k..], k, commits) == [Attempt(commits(0))];
    } else {
      assert calls[k..][1..] == calls[k + 1..];
      GlKeepsBlocksAfterLastRaise(calls, k + 1, commits);
      GlSurvivesStep(calls, k, commits);
      GlHead(calls[k], GlTrace(calls[k + 1..], k + 1, commits), k + 1, commits);
    }
  }

  /** In numbers: items are committed by fifties, counted from the first, and what is left over at the end. */
  lemma GlSurvivesMeans<W>(calls: seq<Call<W>>, k: nat, commits: nat -> bool)
    requires k < |calls|
    ensures GlSurvives(calls, k, commits) <==>
      && (forall j :: k <= j < |calls| && j / 50 == k / 50 ==> calls[j].verdict != Raised)
      && commits(if k / 50 * 50 + 50 <= |calls| then k / 50 * 50 + 50 else 0)
  {
    assert forall j: nat :: SameBlock(k, j) <==> j / 50 == k / 50;
  }

  /**
   "One failure never cascades" holds forward only: a raising item loses exactly
   the surviving items before it in its own block.
   */
  lemma FailureCascadesBackward<W>(calls: seq<Call<W>>, r: nat, k: nat, commits: nat -> bool)
    requires r < |calls| && k < |calls| && k != r && calls[r].verdict == Raised
    ensures var calm := calls[r := calls[r].(verdict := Refused)];
      GlSurvives(calls, k, commits) <==> GlSurvives(calm, k, commits) && !(k < r && SameBlock(k, r))
  {
  }

  /** Two items, the first posts and the second raises: the inventory version keeps the first, the generic one nothing. */
  lemma VersionsDiffer<W>(w: W, commits: nat -> bool)
    requires commits(0)
    ensures SurvivingWrites([Call(Posted, [w]), Call(Raised, [])], 0, commits) == []
    ensures CommittedWrites([Item(false, Call(Posted, [w]), true), Item(false, Call(Raised, []), true)], 0, commits) == [w]
  {
    var calls := [Call(Posted, [w]), Call(Raised, [])];
    var items := [Item(false, calls[0], true), Item(false, calls[1], true)];
    assert SameBlock(0, 1) && calls[1].verdict == Raised;
    assert !GlSurvives(calls, 0, commits) && SameBlock(1, 1) && !GlSurvives(calls, 1, commits);
    assert SurvivingWrites(calls, 2, commits) == [];
    assert NextCommit(items, 2) == 0 && NextCommit(items, 1) == 0;
    assert CommittedWrites(items, 2, commits) == [];
    assert CommittedWrites(items, 1, commits) == [];
    assert Persists(items[0]) && CommittedWrites(items, 0, commits) == items[0].call.writes + CommittedWrites(items, 1, commits);
  }
}
