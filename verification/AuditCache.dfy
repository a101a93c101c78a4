/**
 _load_audit_settings of app/main.py: a time-limited cache whose check and whose
 write are two separate critical sections, with the database read between them
 unlocked, under every interleaving of callers and settings writers.
 */
module AuditCache {
  import opened Basics

  const TTL: real := 30.0

  /** The module globals; a timestamp of 0.0 counts as none, as it does in Python. */
  datatype Cache<V> = Empty | Cached(value: V, at: real)

  /** First critical section. */
  function Lookup<V>(cache: Cache<V>, now: real): Option<V> {
    if cache.Cached? && cache.at != 0.0 && now - cache.at < TTL then Some(cache.value) else None
  }

  class SettingsCache<V> {
    var cache: Cache<V>

    constructor ()
      ensures cache == Empty
    {
      cache := Empty;
    }

    method Check(now: real) returns (hit: Option<V>)
      ensures hit == Lookup(cache, now)
    {
      hit := None;
      if cache.Cached? {
        if cache.at != 0.0 && now - cache.at < TTL {
          hit := Some(cache.value);
        }
      }
    }

    /** Second critical section: the call's own start time becomes the timestamp. */
    method Store(value: V, now: real)
      modifies this
      ensures cache == Cached(value, now)
    {
      cache := Cached(value, now);
    }

    /** One call with nobody else running; parsed is what the database read parses to. */
    method Load(now: real, parsed: V) returns (value: V)
      modifies this
      ensures value == match Lookup(old(cache), now) case Some(v) => v case None => parsed
      ensures cache == if Lookup(old(cache), now).Some? then old(cache) else Cached(parsed, now)
    {
      var hit := Check(now);
      if hit.Some? {
        return hit.value;
      }
      Store(parsed, now);
      return parsed;
    }
  }

  // ---- All interleavings ----

  /** The audit rows as committed at a time. */
  datatype Version<R> = Version(at: real, rows: R)

  datatype Call<V> =
    | Started(now: real)
    | Loading(now: real)
    | Loaded(now: real, value: V)
    | Returned(now: real, value: V)

  datatype State<R, V> = State(clock: real, history: seq<Version<R>>, cache: Cache<V>, calls: map<Id, Call<V>>)

  /** One atomic step; a step that is not enabled leaves the state alone. */
  datatype Step<R> = Tick(to: real) | WriteSettings(rows: R) | Begin(id: Id) | CheckCache(id: Id) | ReadRows(id: Id) | StoreCache(id: Id)

  function Next<R, V>(s: State<R, V>, step: Step<R>, parse: R -> V): State<R, V> {
    match step
    case Tick(to) => if s.clock <= to then s.(clock := to) else s
    case WriteSettings(rows) => s.(history := s.history + [Version(s.clock, rows)])
    case Begin(id) => if id in s.calls then s else s.(calls := s.calls[id := Started(s.clock)])
    case CheckCache(id) =>
      if id in s.calls && s.calls[id].Started? then
        match Lookup(s.cache, s.calls[id].now)
        case Some(v) => s.(calls := s.calls[id := Returned(s.calls[id].now, v)])
        case None => s.(calls := s.calls[id := Loading(s.calls[id].now)])
      else s
    case ReadRows(id) =>
      if id in s.calls && s.calls[id].Loading? && s.history != [] then
        s.(calls := s.calls[id := Loaded(s.calls[id].now, parse(s.history[|s.history| - 1].rows))])
      else s
    case StoreCache(id) =>
      if id in s.calls && s.calls[id].Loaded? then
        s.(cache := Cached(s.calls[id].value, s.calls[id].now),
           calls := s.calls[id := Returned(s.calls[id].now, s.calls[id].value)])
      else s
  }

  function Run<R, V>(s: State<R, V>, steps: seq<Step<R>>, parse: R -> V): State<R, V>
    decreases |steps|
  {
    if steps == [] then s else Run(Next(s, steps[0], parse), steps[1..], parse)
  }

  function Start<R, V>(clock: real, rows: R): State<R, V> {
    State(clock, [Version(clock, rows)], Empty, map[])
  }

  /** Version k was the database's contents at instant t. */
  ghost predicate CurrentAt<R>(history: seq<Version<R>>, k: nat, t: real) {
    k < |history| && history[k].at <= t && (k + 1 < |history| ==> t <= history[k + 1].at)
  }

  /** v is what the database parsed to at instant t. */
  ghost predicate TrueAt<R, V>(history: seq<Version<R>>, parse: R -> V, t: real, v: V) {
    exists k: nat :: CurrentAt(history, k, t) && parse(history[k].rows) == v
  }

  /** v was true at some instant from lo to hi. */
  ghost predicate TrueDuring<R, V>(history: seq<Version<R>>, parse: R -> V, lo: real, hi: real, v: V) {
    exists t: real :: lo <= t <= hi && TrueAt(history, parse, t, v)
  }

  /** v was true at some instant less than the cache's lifetime before the call began, or since. */
  ghost predicate Fresh<R, V>(history: seq<Version<R>>, parse: R -> V, now: real, clock: real, v: V) {
    exists t: real :: now - TTL < t <= clock && TrueAt(history, parse, t, v)
  }

  ghost predicate GoodHistory<R>(history: seq<Version<R>>, clock: real) {
    && history != []
    && (forall i, j :: 0 <= i < j < |history| ==> history[i].at <= history[j].at)
    && history[|history| - 1].at <= clock
  }

  ghost predicate GoodCall<R, V>(s: State<R, V>, parse: R -> V, c: Call<V>) {
    && c.now <= s.clock
    && (c.Loaded? ==> TrueDuring(s.history, parse, c.now, s.clock, c.value))
    && (c.Returned? ==> Fresh(s.history, parse, c.now, s.clock, c.value))
  }

  ghost predicate Inv<R, V>(s: State<R, V>, parse: R -> V) {
    && GoodHistory(s.history, s.clock)
    && (s.cache.Cached? ==> TrueDuring(s.history, parse, s.cache.at, s.clock, s.cache.value))
    && (forall id :: id in s.calls ==> GoodCall(s, parse, s.calls[id]))
  }

  lemma TrueAtSurvives<R, V>(history: seq<Version<R>>, parse: R -> V, t: real, v: V, clock: real, rows: R)
    requires TrueAt(history, parse, t, v) && t <= clock
    ensures TrueAt(history + [Version(clock, rows)], parse, t, v)
  {
    var k: nat :| CurrentAt(history, k, t) && parse(history[k].rows) == v;
    assert CurrentAt(history + [Version(clock, rows)], k, t);
  }

  /** Time passing and settings being written invalidate no earlier truth. */
  lemma CallSurvives<R, V>(s: State<R, V>, t: State<R, V>, parse: R -> V, c: Call<V>)
    requires GoodCall(s, parse, c) && s.clock <= t.clock
    requires t.history == s.history || exists rows :: t.history == s.history + [Version(s.clock, rows)]
    ensures GoodCall(t, parse, c)
  {
    if c.Loaded? {
      var u: real :| c.now <= u <= s.clock && TrueAt(s.history, parse, u, c.value);
      if t.history != s.history {
        var rows :| t.history == s.history + [Version(s.clock, rows)];
        TrueAtSurvives(s.history, parse, u, c.value, s.clock, rows);
      }
    }
    if c.Returned? {
      var u: real :| c.now - TTL < u <= s.clock && TrueAt(s.history, parse, u, c.value);
      if t.history != s.history {
        var rows :| t.history == s.history + [Version(s.clock, rows)];
        TrueAtSurvives(s.history, parse, u, c.value, s.clock, rows);
      }
    }
  }

  lemma EnvironmentKeepsInv<R, V>(s: State<R, V>, t: State<R, V>, parse: R -> V)
    requires Inv(s, parse) && s.clock <= t.clock && t.cache == s.cache && t.calls == s.calls
    requires t.history == s.history || exists rows :: t.history == s.history + [Version(s.clock, rows)]
    ensures Inv(t, parse)
  {
    forall id | id in t.calls ensures GoodCall(t, parse, t.calls[id]) {
      CallSurvives(s, t, parse, s.calls[id]);
    }
    if s.cache.Cached? {
      var u: real :| s.cache.at <= u <= s.clock && TrueAt(s.history, parse, u, s.cache.value);
      if t.history != s.history {
        var rows :| t.history == s.history + [Version(s.clock, rows)];
        TrueAtSurvives(s.history, parse, u, s.cache.value, s.clock, rows);
      }
    }
  }

  lemma CallerKeepsInv<R, V>(s: State<R, V>, step: Step<R>, parse: R -> V)
    requires Inv(s, parse) && !step.Tick? && !step.WriteSettings?
    ensures Inv(Next(s, step, parse), parse)
  {
    var t := Next(s, step, parse);
    assert t.history == s.history && t.clock == s.clock;
    if step.id in t.calls && t != s {
      var id := step.id;
      if step.ReadRows? {
        var last := |s.history| - 1;
        assert CurrentAt(s.history, last, s.clock);
        assert TrueAt(s.history, parse, s.clock, t.calls[id].value);
      } else if step.CheckCache? && t.calls[id].Returned? {
        var u: real :| s.cache.at <= u <= s.clock && TrueAt(s.history, parse, u, s.cache.value);
        assert s.calls[id].now - TTL < u;
      } else if step.StoreCache? {
        var c := s.calls[id];
        var u: real :| c.now <= u <= s.clock && TrueAt(s.history, parse, u, c.value);
        assert c.now - TTL < u;
      }
      assert GoodCall(t, parse, t.calls[id]);
      forall other | other in t.calls && other != id ensures GoodCall(t, parse, t.calls[other]) {
        assert GoodCall(s, parse, s.calls[other]);
      }
    }
  }

  lemma StepKeepsInv<R, V>(s: State<R, V>, step: Step<R>, parse: R -> V)
    requires Inv(s, parse)
    ensures Inv(Next(s, step, parse), parse)
  {
    match step
    case Tick(_) => EnvironmentKeepsInv(s, Next(s, step, parse), parse);
    case WriteSettings(_) => EnvironmentKeepsInv(s, Next(s, step, parse), parse);
    case _ => CallerKeepsInv(s, step, parse);
  }

  lemma {:induction false} RunKeepsInv<R, V>(s: State<R, V>, steps: seq<Step<R>>, parse: R -> V)
    requires Inv(s, parse)
    ensures Inv(Run(s, steps, parse), parse)
    decreases |steps|
  {
    if steps == [] {
    } else {
      StepKeepsInv(s, steps[0], parse);
      RunKeepsInv(Next(s, steps[0], parse), steps[1..], parse);
    }
  }

  /**
   For every interleaving: the settings a call returns are what the database
   parsed to at some instant later than the call's start minus 30 seconds.
   */
  lemma ReturnedSettingsAreFresh<R, V>(clock: real, rows: R, steps: seq<Step<R>>, parse: R -> V, id: Id)
    requires id in Run(Start(clock, rows), steps, parse).calls && Run(Start(clock, rows), steps, parse).calls[id].Returned?
    ensures var s := Run(Start(clock, rows), steps, parse);
      Fresh(s.history, parse, s.calls[id].now, s.clock, s.calls[id].value)
  {
    RunKeepsInv(Start(clock, rows), steps, parse);
  }

  /** A change that is 30 seconds old when a call begins, and not superseded since, is what the call returns. */
  lemma OldWritesAreVisible<R, V>(clock: real, rows: R, steps: seq<Step<R>>, parse: R -> V, id: Id)
    requires id in Run(Start(clock, rows), steps, parse).calls && Run(Start(clock, rows), steps, parse).calls[id].Returned?
    requires var s := Run(Start(clock, rows), steps, parse);
      s.history != [] && s.history[|s.history| - 1].at + TTL <= s.calls[id].now
    ensures var s := Run(Start(clock, rows), steps, parse);
      s.history != [] && s.calls[id].value == parse(s.history[|s.history| - 1].rows)
  {
    var s := Run(Start(clock, rows), steps, parse);
    RunKeepsInv(Start(clock, rows), steps, parse);
    var c := s.calls[id];
    var t: real :| c.now - TTL < t <= s.clock && TrueAt(s.history, parse, t, c.value);
    var k: nat :| CurrentAt(s.history, k, t) && parse(s.history[k].rows) == c.value;
  }

  /**
   The bound does not come from the cache moving forward: a slow loader can put
   an older value and an earlier timestamp over a newer entry.
   */
  lemma SlowLoaderOverwrites() returns (steps: seq<Step<int>>)
    ensures |steps| > 1
    ensures Run(Start<int, int>(1.0, 10), steps[..|steps| - 1], (r: int) => r).cache == Cached(20, 2.0)
    ensures Run(Start<int, int>(1.0, 10), steps, (r: int) => r).cache == Cached(10, 1.0)
  {
    var parse := (r: int) => r;
    var s0 := Start<int, int>(1.0, 10);
    var xs0: seq<Step<int>> := [];
    var xs3, s3 := Three(s0, xs0, s0, Begin(0), CheckCache(0), ReadRows(0), parse);
    assert s3.calls[0] == Loaded(1.0, 10);
    var xs6, s6 := Three(s0, xs3, s3, Tick(2.0), WriteSettings(20), Begin(1), parse);
    var xs9, s9 := Three(s0, xs6, s6, CheckCache(1), ReadRows(1), StoreCache(1), parse);
    assert s9.cache == Cached(20, 2.0) && s9.calls[0] == Loaded(1.0, 10);
    steps := xs9 + [StoreCache(0)];
    RunSnoc(s0, xs9, StoreCache(0), parse);
    assert steps[..|steps| - 1] == xs9;
  }

  lemma Three<R, V>(start: State<R, V>, xs: seq<Step<R>>, s: State<R, V>, a: Step<R>, b: Step<R>, c: Step<R>, parse: R -> V)
    returns (ys: seq<Step<R>>, t: State<R, V>)
    requires Run(start, xs, parse) == s
    ensures ys == xs + [a] + [b] + [c]
    ensures t == Next(Next(Next(s, a, parse), b, parse), c, parse) == Run(start, ys, parse)
  {
    RunSnoc(start, xs, a, parse);
    RunSnoc(start, xs + [a], b, parse);
    RunSnoc(start, xs + [a] + [b], c, parse);
    ys, t := xs + [a] + [b] + [c], Next(Next(Next(s, a, parse), b, parse), c, parse);
  }

  lemma {:induction false} RunSnoc<R, V>(s: State<R, V>, xs: seq<Step<R>>, x: Step<R>, parse: R -> V)
    ensures Run(s, xs + [x], parse) == Next(Run(s, xs, parse), x, parse)
    decreases |xs|
  {
    if xs == [] {
      assert (xs + [x])[1..] == [];
    } else {
      assert (xs + [x])[1..] == xs[1..] + [x];
      RunSnoc(Next(s, xs[0], parse), xs[1..], x, parse);
    }
  }

  /** In numbers: an entry is used for less than thirty seconds after its timestamp, and never with the timestamp zero. */
  lemma LookupMeans<V>(cache: Cache<V>, now: real)
    ensures Lookup(cache, now).Some? <==> cache.Cached? && cache.at != 0.0 && now < cache.at + 30.0
    ensures Lookup(cache, now).Some? ==> Lookup(cache, now).value == cache.value
  {
  }

  /** Without anything in between, a call's steps are one load: a hit returns the entry, a miss reads, stores and returns. */
  lemma StepsAreLoad<R, V>(s: State<R, V>, id: Id, parse: R -> V)
    requires id in s.calls && s.calls[id].Started? && s.history != []
    ensures var t := Run(s, [CheckCache(id), ReadRows(id), StoreCache(id)], parse);
      var now, parsed := s.calls[id].now, parse(s.history[|s.history| - 1].rows);
      && t.history == s.history && t.clock == s.clock
      && match Lookup(s.cache, now)
         case Some(v) => t.calls == s.calls[id := Returned(now, v)] && t.cache == s.cache
         case None => t.calls == s.calls[id := Returned(now, parsed)] && t.cache == Cached(parsed, now)
  {
    var steps: seq<Step<R>> := [CheckCache(id), ReadRows(id), StoreCache(id)];
    var s1 := Next(s, CheckCache(id), parse);
    var s2 := Next(s1, ReadRows(id), parse);
    var s3 := Next(s2, StoreCache(id), parse);
    assert steps[1..] == [ReadRows(id), StoreCache(id)];
    assert steps[1..][1..] == [StoreCache(id)];
    assert steps[1..][1..][1..] == [];
    assert Run(s, steps, parse) == Run(s1, steps[1..], parse);
    assert Run(s1, steps[1..], parse) == Run(s2, steps[1..][1..], parse);
    assert Run(s2, [StoreCache(id)], parse) == Run(s3, steps[1..][1..][1..], parse) == s3;
  }

  /** No later step, of this call or any other, changes what a call returned. */
  lemma {:induction false} ReturnedStays<R, V>(s: State<R, V>, steps: seq<Step<R>>, parse: R -> V, id: Id)
    requires id in s.calls && s.calls[id].Returned?
    ensures id in Run(s, steps, parse).calls && Run(s, steps, parse).calls[id] == s.calls[id]
    decreases |steps|
  {
    if steps != [] {
      var t := Next(s, steps[0], parse);
      assert id in t.calls && t.calls[id] == s.calls[id];
      ReturnedStays(t, steps[1..], parse, id);
    }
  }
}
