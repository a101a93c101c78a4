/** The while-True chunk loop of scripts/backfill_gl_postings.py for one entity type. */
module ChunkLoop {
  import opened Basics
  import opened PostingBatches

  /** One chunk: the records the query returned, how posting each of them ended, and how each commit ended. */
  datatype Chunk = Chunk(ids: seq<Id>, verdicts: seq<Verdict>, commits: nat -> bool)

  /** A LIMIT query over the records still missing: as many as fit, without repeats. */
  ghost predicate AnswersMissing(missing: set<Id>, limit: nat, c: Chunk) {
    && |c.verdicts| == |c.ids|
    && |c.ids| == (if |missing| <= limit then |missing| else limit)
    && (forall i :: 0 <= i < |c.ids| ==> c.ids[i] in missing)
    && NoRepeats(c.ids)
  }

  /** A posted record writes its own journal link; nothing else makes it stop missing. */
  function CallsOf(c: Chunk): seq<Call<Id>>
    requires |c.verdicts| == |c.ids|
  {
    seq(|c.ids|, i requires 0 <= i < |c.ids| =>
      Call(c.verdicts[i], if c.verdicts[i] == Posted then [c.ids[i]] else []))
  }

  /** The records the chunk leaves posted in the database. */
  function Persisted(c: Chunk): set<Id>
    requires |c.verdicts| == |c.ids|
  {
    set id | id in Kept(GlTrace(CallsOf(c), 0, c.commits))
  }

  lemma {:induction false} SurvivingIds(c: Chunk, k: nat, id: Id)
    requires |c.verdicts| == |c.ids| && k <= |c.ids|
    ensures id in SurvivingWrites(CallsOf(c), k, c.commits)
       <==> exists i :: k <= i < |c.ids| && c.ids[i] == id && c.verdicts[i] == Posted && GlSurvives(CallsOf(c), i, c.commits)
    decreases |c.ids| - k
  {
    if k < |c.ids| {
      SurvivingIds(c, k + 1, id);
      assert CallsOf(c)[k].writes == if c.verdicts[k] == Posted then [c.ids[k]] else [];
    }
  }

  /** A record stays posted iff its call posted it, no call of its block raised from then on, and the block was committed. */
  lemma PersistedIff(c: Chunk, id: Id)
    requires |c.verdicts| == |c.ids|
    ensures id in Persisted(c)
       <==> exists i :: 0 <= i < |c.ids| && c.ids[i] == id && c.verdicts[i] == Posted && GlSurvives(CallsOf(c), i, c.commits)
  {
    assert CallsOf(c)[0..] == CallsOf(c);
    GlKeepsBlocksAfterLastRaise(CallsOf(c), 0, c.commits);
    SurvivingIds(c, 0, id);
  }

  /** The persisted records are the ones _process_batch leaves in the database. */
  lemma PersistedMatchesBatch(c: Chunk, start: Log<Id>, id: Id)
    requires |c.verdicts| == |c.ids|
    ensures id in Run(State(start, start), GlTrace(CallsOf(c), 0, c.commits)).durable <==> id in start || id in Persisted(c)
  {
    DurableIsKept(start, GlTrace(CallsOf(c), 0, c.commits));
  }

  predicate AllFailed(c: Chunk) {
    forall i :: 0 <= i < |c.verdicts| ==> c.verdicts[i] == Raised
  }

  /** posted == 0 and failed == total, or an empty or partial chunk. */
  predicate Stops(c: Chunk, limit: nat) {
    |c.ids| == 0 || AllFailed(c) || |c.ids| < limit
  }

  datatype Loop = Running(missing: set<Id>) | Stopped(missing: set<Id>)

  type Poster = (nat, set<Id>) -> Chunk

  ghost predicate IsPoster(post: Poster, limit: nat) {
    forall n: nat, missing :: AnswersMissing(missing, limit, post(n, missing))
  }

  function Step(l: Loop, n: nat, limit: nat, post: Poster): Loop {
    match l
    case Stopped(_) => l
    case Running(missing) =>
      var c := post(n, missing);
      if |c.verdicts| != |c.ids| then Stopped(missing)
      else if Stops(c, limit) then Stopped(missing - Persisted(c)) else Running(missing - Persisted(c))
  }

  function After(missing: set<Id>, n: nat, limit: nat, post: Poster): Loop {
    if n == 0 then Running(missing) else Step(After(missing, n - 1, limit, post), n - 1, limit, post)
  }

  /** Every full chunk that does not stop the loop leaves some record posted. */
  ghost predicate Progresses(post: Poster, limit: nat) {
    forall n: nat, missing :: AnswersMissing(missing, limit, post(n, missing)) && !Stops(post(n, missing), limit)
                              ==> Persisted(post(n, missing)) != {}
  }

  ghost predicate AlwaysPosts(post: Poster) {
    forall n: nat, missing :: AllPosted(post(n, missing))
  }

  /** Every call posts and every commit goes through. */
  predicate AllPosted(c: Chunk) {
    && (forall i :: 0 <= i < |c.verdicts| ==> c.verdicts[i] == Posted)
    && forall i :: 0 <= i < |c.ids| ==> c.commits(BlockCommit(|c.ids|, i))
  }

  lemma PersistedAreMissing(missing: set<Id>, limit: nat, c: Chunk)
    requires AnswersMissing(missing, limit, c)
    ensures Persisted(c) <= missing
  {
    forall id | id in Persisted(c) ensures id in missing {
      PersistedIff(c, id);
    }
  }

  lemma ProperShrink(missing: set<Id>, gone: set<Id>)
    requires gone <= missing && gone != {}
    ensures |missing - gone| < |missing|
  {
    assert missing == (missing - gone) + gone;
    assert |missing| == |missing - gone| + |gone|;
  }

  /** The loop, with its termination: the missing records strictly decrease. */
  method RunChunks(missing: set<Id>, limit: nat, post: Poster) returns (left: set<Id>, rounds: nat)
    requires IsPoster(post, limit) && Progresses(post, limit)
    ensures rounds <= |missing| + 1
    ensures After(missing, rounds, limit, post) == Stopped(left)
    ensures left <= missing
    ensures limit > 0 && AlwaysPosts(post) ==> left == {}
  {
    left, rounds := missing, 0;
    while true
      invariant left <= missing
      invariant After(missing, rounds, limit, post) == Running(left)
      invariant rounds + |left| <= |missing|
      decreases |left|
    {
      var c := post(rounds, left);
      assert AnswersMissing(left, limit, c);
      PersistedAreMissing(left, limit, c);
      ghost var before := left;
      left := left - Persisted(c);
      rounds := rounds + 1;
      if Stops(c, limit) {
        if limit > 0 && AllPosted(c) {
          AllPostedPersist(before, limit, c);
        }
        break;
      }
      ProperShrink(before, Persisted(c));
    }
  }

  lemma AllPostedPersist(missing: set<Id>, limit: nat, c: Chunk)
    requires AnswersMissing(missing, limit, c) && Stops(c, limit) && limit > 0
    requires AllPosted(c)
    ensures missing - Persisted(c) == {}
  {
    var ids := Elements(c.ids);
    ElementsSize(c.ids);
    assert |c.verdicts| > 0 ==> c.verdicts[0] == Posted;
    assert |c.ids| == |missing|;
    SubsetSize(ids, missing);
    forall id | id in c.ids ensures id in Persisted(c) {
      var i :| 0 <= i < |c.ids| && c.ids[i] == id;
      assert GlSurvives(CallsOf(c), i, c.commits);
      PersistedIff(c, id);
    }
  }

  // ---- When a round ends the loop ----

  /** Nothing found, or fewer records than asked for, or every call raised. */
  predicate LastChunk(ids: seq<Id>, verdicts: seq<Verdict>, limit: nat) {
    |ids| == 0 || |ids| < limit || forall i :: 0 <= i < |verdicts| ==> verdicts[i] == Raised
  }

  /** A running loop ends after a round iff the round's chunk is such a last one. */
  lemma RoundEndsIff(missing: set<Id>, n: nat, limit: nat, post: Poster)
    requires IsPoster(post, limit) && After(missing, n, limit, post).Running?
    ensures var c := post(n, After(missing, n, limit, post).missing);
      After(missing, n + 1, limit, post).Stopped? <==> LastChunk(c.ids, c.verdicts, limit)
  {
    var left := After(missing, n, limit, post).missing;
    assert AnswersMissing(left, limit, post(n, left));
    NextState(missing, n, limit, post);
  }

  lemma NextState(missing: set<Id>, n: nat, limit: nat, post: Poster)
    ensures After(missing, n + 1, limit, post) == Step(After(missing, n, limit, post), n, limit, post)
  {
  }

  lemma NothingRaisedStays(c: Chunk)
    requires |c.verdicts| == |c.ids| && forall i :: 0 <= i < |c.verdicts| ==> c.verdicts[i] == Raised
    ensures Persisted(c) == {}
  {
    forall id ensures id !in Persisted(c) {
      PersistedIff(c, id);
    }
  }

  /** A chunk of failures ends it, however full it is and whatever its records: all of them stay missing. */
  lemma FailedChunkEnds(missing: set<Id>, n: nat, limit: nat, post: Poster)
    requires IsPoster(post, limit) && After(missing, n, limit, post).Running?
    requires var c := post(n, After(missing, n, limit, post).missing);
      forall i :: 0 <= i < |c.verdicts| ==> c.verdicts[i] == Raised
    ensures After(missing, n + 1, limit, post) == Stopped(After(missing, n, limit, post).missing)
  {
    var left := After(missing, n, limit, post).missing;
    var c := post(n, left);
    assert AnswersMissing(left, limit, c);
    NothingRaisedStays(c);
    NextState(missing, n, limit, post);
    assert left - Persisted(c) == left;
  }

  /** The records one round takes off: those that stay posted, by PersistedIff. */
  lemma RoundLeaves(missing: set<Id>, n: nat, limit: nat, post: Poster, id: Id)
    requires IsPoster(post, limit) && After(missing, n, limit, post).Running?
    ensures var before := After(missing, n, limit, post).missing;
      var c := post(n, before);
      && |c.verdicts| == |c.ids|
      && (id in After(missing, n + 1, limit, post).missing
          <==> id in before && !exists i :: 0 <= i < |c.ids| && c.ids[i] == id && c.verdicts[i] == Posted
                                            && GlSurvives(CallsOf(c), i, c.commits))
  {
    var before := After(missing, n, limit, post).missing;
    assert AnswersMissing(before, limit, post(n, before));
    PersistedIff(post(n, before), id);
    NextState(missing, n, limit, post);
  }

  /** A chunk holds at most the limit, and everything missing when it holds less. */
  lemma ChunkSize(missing: set<Id>, limit: nat, c: Chunk)
    ensures AnswersMissing(missing, limit, c) <==>
      && |c.verdicts| == |c.ids| && NoRepeats(c.ids) && (forall id :: id in c.ids ==> id in missing)
      && |c.ids| <= limit && (|c.ids| < limit ==> forall id :: id in missing ==> id in c.ids)
  {
    var ids := Elements(c.ids);
    if NoRepeats(c.ids) && forall id :: id in c.ids ==> id in missing {
      ElementsSize(c.ids);
      SubsetSize(ids, missing);
      if forall id :: id in missing ==> id in c.ids {
        assert missing == ids;
      }
    }
  }

  // ---- When the loop never ends ----

  /** A poster whose answer depends on the missing records only, as a deterministic service gives. */
  ghost predicate Deterministic(post: Poster) {
    forall n: nat, m: nat, missing :: post(n, missing) == post(m, missing)
  }

  /** A full chunk that is not all failures, and whose work is lost. */
  ghost predicate Stuck(missing: set<Id>, limit: nat, post: Poster) {
    |post(0, missing).verdicts| == |post(0, missing).ids|
    && !Stops(post(0, missing), limit) && Persisted(post(0, missing)) == {}
  }

  /** No round changes the loop's state l any more. */
  ghost predicate Fixed(l: Loop, limit: nat, post: Poster) {
    forall m: nat :: Step(l, m, limit, post) == l
  }

  lemma FixedNext(missing: set<Id>, n: nat, limit: nat, post: Poster, l: Loop)
    requires After(missing, n, limit, post) == l && Fixed(l, limit, post)
    ensures After(missing, n + 1, limit, post) == l
  {
    NextState(missing, n, limit, post);
  }

  lemma {:induction false} FixedForever(missing: set<Id>, n: nat, k: nat, limit: nat, post: Poster, l: Loop)
    requires n <= k && After(missing, n, limit, post) == l && Fixed(l, limit, post)
    ensures After(missing, k, limit, post) == l
    decreases k - n
  {
    if n < k {
      FixedNext(missing, n, limit, post, l);
      FixedForever(missing, n + 1, k, limit, post, l);
    }
  }

  lemma StuckIsFixed(missing: set<Id>, limit: nat, post: Poster)
    requires Deterministic(post) && Stuck(missing, limit, post)
    ensures Fixed(Running(missing), limit, post)
  {
    forall m: nat ensures Step(Running(missing), m, limit, post) == Running(missing) {
      assert post(m, missing) == post(0, missing);
      assert missing - {} == missing;
    }
  }

  lemma StoppedForever(missing: set<Id>, n: nat, more: nat, limit: nat, post: Poster)
    requires After(missing, n, limit, post).Stopped?
    ensures After(missing, n + more, limit, post) == After(missing, n, limit, post)
  {
    FixedForever(missing, n, n + more, limit, post, After(missing, n, limit, post));
  }

  ghost predicate StuckAt(missing: set<Id>, n: nat, limit: nat, post: Poster) {
    After(missing, n, limit, post).Running? && Stuck(After(missing, n, limit, post).missing, limit, post)
  }

  ghost predicate EndsAt(missing: set<Id>, n: nat, limit: nat, post: Poster) {
    After(missing, n, limit, post).Stopped?
  }

  lemma RoundShrinks(missing: set<Id>, n: nat, limit: nat, post: Poster)
    requires Deterministic(post) && IsPoster(post, limit) && !StuckAt(missing, n, limit, post)
    requires After(missing, n, limit, post).Running? && After(missing, n + 1, limit, post).Running?
    ensures |After(missing, n + 1, limit, post).missing| < |After(missing, n, limit, post).missing|
  {
    var before := After(missing, n, limit, post).missing;
    var c := post(n, before);
    assert c == post(0, before);
    assert AnswersMissing(before, limit, c);
    PersistedAreMissing(before, limit, c);
    ProperShrink(before, Persisted(c));
  }

  /** While no chunk is stuck, each round takes at least one record off. */
  lemma {:induction false} ShrinksWhileRunning(missing: set<Id>, n: nat, limit: nat, post: Poster)
    requires Deterministic(post) && IsPoster(post, limit)
    requires forall k: nat :: !StuckAt(missing, k, limit, post)
    ensures EndsAt(missing, n, limit, post) || n + |After(missing, n, limit, post).missing| <= |missing|
  {
    if n > 0 {
      var m := n - 1;
      ShrinksWhileRunning(missing, m, limit, post);
      if EndsAt(missing, m, limit, post) {
        StoppedForever(missing, m, 1, limit, post);
      } else if !EndsAt(missing, m + 1, limit, post) {
        RoundShrinks(missing, m, limit, post);
      }
    }
  }

  lemma StuckAtIsFixed(missing: set<Id>, n: nat, limit: nat, post: Poster)
    requires Deterministic(post) && StuckAt(missing, n, limit, post)
    ensures Fixed(After(missing, n, limit, post), limit, post) && !EndsAt(missing, n, limit, post)
  {
    StuckIsFixed(After(missing, n, limit, post).missing, limit, post);
  }

  lemma FixedNeverEnds(missing: set<Id>, n: nat, k: nat, limit: nat, post: Poster)
    requires Fixed(After(missing, n, limit, post), limit, post) && !EndsAt(missing, n, limit, post)
    ensures !EndsAt(missing, k, limit, post)
  {
    if k >= n {
      FixedForever(missing, n, k, limit, post, After(missing, n, limit, post));
    } else if EndsAt(missing, k, limit, post) {
      StoppedForever(missing, k, n - k, limit, post);
    }
  }

  lemma StuckNeverEnds(missing: set<Id>, n: nat, k: nat, limit: nat, post: Poster)
    requires Deterministic(post) && StuckAt(missing, n, limit, post)
    ensures !EndsAt(missing, k, limit, post)
  {
    StuckAtIsFixed(missing, n, limit, post);
    FixedNeverEnds(missing, n, k, limit, post);
  }

  /**
   With a deterministic service the guard against endless loops is exact only for
   stuck chunks: the loop ends iff it never meets a full chunk that is not all
   failures and leaves nothing posted.
   */
  lemma EndsIffNeverStuck(missing: set<Id>, limit: nat, post: Poster)
    requires Deterministic(post) && IsPoster(post, limit)
    ensures (exists n: nat :: EndsAt(missing, n, limit, post)) <==> (forall n: nat :: !StuckAt(missing, n, limit, post))
  {
    if n: nat :| StuckAt(missing, n, limit, post) {
      forall k: nat ensures !EndsAt(missing, k, limit, post) {
        StuckNeverEnds(missing, n, k, limit, post);
      }
    } else {
      ShrinksWhileRunning(missing, |missing| + 1, limit, post);
    }
  }

  // ---- Any service at all ----

  /** Round n meets a full chunk that is not all failures and persists nothing. */
  ghost predicate StuckRound(missing: set<Id>, n: nat, limit: nat, post: Poster) {
    && After(missing, n, limit, post).Running?
    && |post(n, After(missing, n, limit, post).missing).verdicts| == |post(n, After(missing, n, limit, post).missing).ids|
    && !Stops(post(n, After(missing, n, limit, post).missing), limit)
    && Persisted(post(n, After(missing, n, limit, post).missing)) == {}
  }

  ghost predicate Endless(missing: set<Id>, limit: nat, post: Poster) {
    forall n: nat :: !EndsAt(missing, n, limit, post)
  }

  ghost function LeftAfter(missing: set<Id>, n: nat, limit: nat, post: Poster): nat {
    |After(missing, n, limit, post).missing|
  }

  lemma RoundNeverGrows(missing: set<Id>, n: nat, limit: nat, post: Poster)
    requires IsPoster(post, limit) && Endless(missing, limit, post)
    ensures LeftAfter(missing, n + 1, limit, post) <= LeftAfter(missing, n, limit, post)
    ensures !StuckRound(missing, n, limit, post) ==>
      LeftAfter(missing, n + 1, limit, post) < LeftAfter(missing, n, limit, post)
  {
    var before := After(missing, n, limit, post).missing;
    var c := post(n, before);
    assert !EndsAt(missing, n, limit, post) && !EndsAt(missing, n + 1, limit, post);
    assert AnswersMissing(before, limit, c);
    PersistedAreMissing(before, limit, c);
    assert After(missing, n + 1, limit, post).missing == before - Persisted(c);
    SubsetSize(before - Persisted(c), before);
    if Persisted(c) != {} { ProperShrink(before, Persisted(c)); }
  }

  ghost predicate ShrinksAt(size: nat -> nat, stuck: nat -> bool, m: nat) {
    size(m + 1) <= size(m) && (!stuck(m) ==> size(m + 1) < size(m))
  }

  ghost predicate ShrinksUnless(size: nat -> nat, stuck: nat -> bool) {
    forall m: nat :: ShrinksAt(size, stuck, m)
  }

  lemma {:induction false} NeverGrows(size: nat -> nat, stuck: nat -> bool, n: nat, k: nat)
    requires ShrinksUnless(size, stuck) && n <= k
    ensures size(k) <= size(n)
    decreases k - n
  {
    if n < k {
      NeverGrows(size, stuck, n, k - 1);
      assert ShrinksAt(size, stuck, k - 1);
    }
  }

  /** A size that shrinks in every round but the stuck ones leaves only stuck rounds in the end. */
  lemma {:induction false} StuckInTheEnd(size: nat -> nat, stuck: nat -> bool, n: nat) returns (k: nat)
    requires ShrinksUnless(size, stuck)
    ensures forall m: nat :: m >= k ==> stuck(m)
    decreases size(n)
  {
    if m: nat :| m >= n && !stuck(m) {
      NeverGrows(size, stuck, n, m);
      assert ShrinksAt(size, stuck, m);
      k := StuckInTheEnd(size, stuck, m + 1);
    } else {
      k := n;
    }
  }

  /** Every round from n on is stuck. */
  ghost predicate StuckFrom(missing: set<Id>, n: nat, limit: nat, post: Poster) {
    forall m: nat :: m >= n ==> StuckRound(missing, m, limit, post)
  }

  ghost function Sizes(missing: set<Id>, limit: nat, post: Poster): nat -> nat {
    (n: nat) => LeftAfter(missing, n, limit, post)
  }

  ghost function StuckRounds(missing: set<Id>, limit: nat, post: Poster): nat -> bool {
    (n: nat) => StuckRound(missing, n, limit, post)
  }

  lemma RoundShrinksAt(missing: set<Id>, m: nat, limit: nat, post: Poster)
    requires IsPoster(post, limit) && Endless(missing, limit, post)
    ensures ShrinksAt(Sizes(missing, limit, post), StuckRounds(missing, limit, post), m)
  {
    RoundNeverGrows(missing, m, limit, post);
  }

  lemma RoundsShrink(missing: set<Id>, limit: nat, post: Poster)
    requires IsPoster(post, limit) && Endless(missing, limit, post)
    ensures ShrinksUnless(Sizes(missing, limit, post), StuckRounds(missing, limit, post))
  {
    forall m: nat ensures ShrinksAt(Sizes(missing, limit, post), StuckRounds(missing, limit, post), m) {
      RoundShrinksAt(missing, m, limit, post);
    }
  }

  /** A loop that never ends is stuck from some round on: it cannot shrink for ever. */
  lemma EventuallyStuck(missing: set<Id>, limit: nat, post: Poster) returns (k: nat)
    requires IsPoster(post, limit) && Endless(missing, limit, post)
    ensures StuckFrom(missing, k, limit, post)
  {
    var size, stuck := Sizes(missing, limit, post), StuckRounds(missing, limit, post);
    RoundsShrink(missing, limit, post);
    k := StuckInTheEnd(size, stuck, 0);
    forall m: nat | m >= k ensures StuckRound(missing, m, limit, post) {
      assert stuck(m);
    }
  }

  /** Whatever the service answers from round to round, the loop ends iff it is not stuck for good. */
  lemma EndsIffNotStuckForGood(missing: set<Id>, limit: nat, post: Poster)
    requires IsPoster(post, limit)
    ensures (exists n: nat :: EndsAt(missing, n, limit, post)) <==> !(exists n: nat :: StuckFrom(missing, n, limit, post))
  {
    if n: nat :| EndsAt(missing, n, limit, post) {
      forall k: nat ensures !StuckFrom(missing, k, limit, post) {
        var m := if k <= n then n else k;
        StoppedForever(missing, n, m - n, limit, post);
        assert !StuckRound(missing, m, limit, post);
      }
    } else {
      var k := EventuallyStuck(missing, limit, post);
    }
  }

  ghost predicate NothingPersists(c: Chunk)
    requires |c.verdicts| == |c.ids|
  {
    forall i :: 0 <= i < |c.ids| && c.verdicts[i] == Posted ==> !GlSurvives(CallsOf(c), i, c.commits)
  }

  lemma NothingPersistsIff(c: Chunk)
    requires |c.verdicts| == |c.ids|
    ensures Persisted(c) == {} <==> NothingPersists(c)
  {
    forall i | 0 <= i < |c.ids| && c.verdicts[i] == Posted && GlSurvives(CallsOf(c), i, c.commits)
      ensures c.ids[i] in Persisted(c)
    {
      PersistedIff(c, c.ids[i]);
    }
    forall id | id in Persisted(c) ensures !NothingPersists(c) {
      PersistedIff(c, id);
    }
  }

  /** A stuck chunk, whatever its commits do: two records, the first posts, the second raises and takes the first with it. */
  lemma GuardMissesThis(a: Id, b: Id, commits: nat -> bool)
    requires a != b
    ensures var c := Chunk([a, b], [Posted, Raised], commits);
      AnswersMissing({a, b}, 2, c) && !Stops(c, 2) && Persisted(c) == {}
  {
    var c := Chunk([a, b], [Posted, Raised], commits);
    assert c.verdicts[0] != Raised;
    assert SameBlock(0, 1) && CallsOf(c)[1].verdict == Raised;
    NothingPersistsIff(c);
    assert |{a, b}| == 2;
  }

  /** Another: every call returns false, so nothing posts and nothing fails. */
  lemma GuardMissesRefusals(a: Id, commits: nat -> bool)
    ensures var c := Chunk([a], [Refused], commits);
      AnswersMissing({a}, 1, c) && !Stops(c, 1) && Persisted(c) == {}
  {
    var c := Chunk([a], [Refused], commits);
    assert c.verdicts[0] == Refused;
    NothingPersistsIff(c);
  }

  /** A third: every call posts, and the commit fails. */
  lemma GuardMissesCommitFailures(a: Id, commits: nat -> bool)
    requires !commits(0)
    ensures var c := Chunk([a], [Posted], commits);
      AnswersMissing({a}, 1, c) && !Stops(c, 1) && Persisted(c) == {}
  {
    var c := Chunk([a], [Posted], commits);
    assert c.verdicts[0] == Posted;
    assert BlockCommit(1, 0) == 0;
    NothingPersistsIff(c);
  }

  /** The service posts every record, and no commit ever goes through. */
  ghost predicate LosesEverything(post: Poster) {
    forall n: nat, missing :: LostChunk(post(n, missing))
  }

  ghost predicate LostChunk(c: Chunk) {
    && (forall i :: 0 <= i < |c.verdicts| ==> c.verdicts[i] == Posted)
    && forall k: nat :: !c.commits(k)
  }

  lemma LostChunkStays(missing: set<Id>, limit: nat, c: Chunk)
    requires AnswersMissing(missing, limit, c) && LostChunk(c) && 0 < limit <= |missing|
    ensures !Stops(c, limit) && Persisted(c) == {}
  {
    assert c.verdicts[0] == Posted;
    NothingPersistsIff(c);
  }

  lemma LostRound(missing: set<Id>, m: nat, limit: nat, post: Poster)
    requires IsPoster(post, limit) && LosesEverything(post) && 0 < limit <= |missing|
    ensures Step(Running(missing), m, limit, post) == Running(missing)
  {
    var c := post(m, missing);
    assert AnswersMissing(missing, limit, c) && LostChunk(c);
    LostChunkStays(missing, limit, c);
    assert missing - Persisted(c) == missing;
  }

  /** With a full chunk's worth of records missing such a run goes on for ever, although nothing counts as failed. */
  lemma LostCommitsNeverEnd(missing: set<Id>, n: nat, limit: nat, post: Poster)
    requires IsPoster(post, limit) && LosesEverything(post) && 0 < limit <= |missing|
    ensures After(missing, n, limit, post) == Running(missing)
  {
    forall m: nat ensures Step(Running(missing), m, limit, post) == Running(missing) {
      LostRound(missing, m, limit, post);
    }
    FixedForever(missing, 0, n, limit, post, Running(missing));
  }
}
