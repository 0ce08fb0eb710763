/** The measuring harness of TYP.py: `test_cache_performance` replays an
    access sequence against any cache with the `BaseCache` interface, and
    `multiple_run_test` averages the hit ratios of several runs. The nine
    classes the harness can drive (the three TYP.py caches and the six
    wrappers) are gathered in `Backend`; their abstract states in `Machine`. */
module Harness {
  import opened Common
  import CacheModel
  import TypCache
  import Dicts
  import MinLru
  import MinFifo
  import MinLifo
  import DetailedLifo
  import DetailedFifo
  import DetailedLru
  import Wrapper
  import opened Sequences

  /** The state of a cache as the harness sees it: the `BaseCache` counters and
      the state of the structure behind them. */
  datatype Machine =
    | BaseM(s: CacheModel.CacheState)
    | MinLruM(h: nat, m: nat, dict: Dicts.Dict, capacity: int)
    | MinFifoM(h: nat, m: nat, list: seq<(string, Value)>, maxSize: int)
    | MinLifoM(h: nat, m: nat, queue: seq<(string, Value)>, limit: Option<int>)
    | DetailedLifoM(h: nat, m: nat, list: seq<(string, Value)>, maxSize: int)
    | DetailedFifoM(h: nat, m: nat, fifo: DetailedFifo.FifoState, capacity: int)
    | DetailedLruM(h: nat, m: nat, dict: Dicts.Dict, capacity: int)

  function Hits(x: Machine): nat {
    if x.BaseM? then x.s.hits else x.h
  }

  function Misses(x: Machine): nat {
    if x.BaseM? then x.s.misses else x.m
  }

  /** The invariants the classes keep between calls. */
  ghost predicate MValid(x: Machine) {
    match x
    case BaseM(s) => CacheModel.Valid(s)
    case MinLruM(_, _, d, _) => Dicts.Valid(d)
    case DetailedLruM(_, _, d, _) => Dicts.Valid(d)
    case _ => true
  }

  /** `cache.get(key)` on any of the nine classes. */
  function MGet(x: Machine, key: string): (Machine, Option<Value>) {
    match x
    case BaseM(s) =>
      var (s', r) := CacheModel.Get(s, key);
      (BaseM(s'), r)
    case MinLruM(h, m, d, c) =>
      var (d', r) := MinLru.GetDict(d, key);
      var t := Wrapper.Tally(h, m, r);
      (MinLruM(t.0, t.1, d', c), r)
    case MinFifoM(h, m, l, c) =>
      var r := Lookup(l, key);
      var t := Wrapper.Tally(h, m, r);
      (MinFifoM(t.0, t.1, l, c), r)
    case MinLifoM(h, m, q, c) =>
      var r := LookupLast(q, key);
      var t := Wrapper.Tally(h, m, r);
      (MinLifoM(t.0, t.1, q, c), r)
    case DetailedLifoM(h, m, l, c) =>
      var r := Lookup(l, key);
      var t := Wrapper.Tally(h, m, r);
      (DetailedLifoM(t.0, t.1, l, c), r)
    case DetailedFifoM(h, m, f, c) =>
      var r := if key in f.cache then Some(f.cache[key]) else None;
      var t := Wrapper.Tally(h, m, r);
      (DetailedFifoM(t.0, t.1, f, c), r)
    case DetailedLruM(h, m, d, c) =>
      var (d', v) := DetailedLru.GetDict(d, key);
      var r := Wrapper.FromSentinel(v);
      var t := Wrapper.Tally(h, m, r);
      (DetailedLruM(t.0, t.1, d', c), r)
  }

  /** `cache.put(key, value, size)` on any of the nine classes; only the
      TYP.py caches look at `size`. */
  function MPut(x: Machine, key: string, value: Value, size: int): (Machine, Outcome) {
    match x
    case BaseM(s) =>
      (match CacheModel.Put(s, key, value, size)
       case Ok(s') => (BaseM(s'), Pass)
       case Err(e) => (x, Fail(e)))
    case MinLruM(h, m, d, c) =>
      var (o, d') := MinLru.PutDict(d, key, value, c);
      (MinLruM(h, m, d', c), o)
    case MinFifoM(h, m, l, c) =>
      (MinFifoM(h, m, MinFifo.PutList(l, key, value, c), c), Pass)
    case MinLifoM(h, m, q, c) =>
      var (o, q') := MinLifo.PutQueue(q, key, value, c);
      (MinLifoM(h, m, q', c), o)
    case DetailedLifoM(h, m, l, c) =>
      (DetailedLifoM(h, m, DetailedLifo.PutPairs(l, key, value, c), c), Pass)
    case DetailedFifoM(h, m, f, c) =>
      var (o, f') := DetailedFifo.PutState(f, key, value, c);
      (DetailedFifoM(h, m, f', c), o)
    case DetailedLruM(h, m, d, c) =>
      var (o, d') := DetailedLru.PutDict(d, key, value, c);
      (DetailedLruM(h, m, d', c), o)
  }

  /** Every get counts exactly one hit or one miss, a hit exactly when it
      answers a value; a put leaves the counters alone. Both keep the
      invariants. */
  lemma StepCounts(x: Machine, key: string, value: Value, size: int)
    ensures var (y, r) := MGet(x, key);
            && Hits(y) == Hits(x) + (if r.Some? then 1 else 0)
            && Misses(y) == Misses(x) + (if r.None? then 1 else 0)
    ensures Hits(MPut(x, key, value, size).0) == Hits(x)
    ensures Misses(MPut(x, key, value, size).0) == Misses(x)
    ensures MValid(x) ==> MValid(MGet(x, key).0)
    ensures MValid(x) ==> MValid(MPut(x, key, value, size).0)
  {
    match x
    case BaseM(s) =>
      if MValid(x) {
        CacheModel.GetValid(s, key);
        if size <= s.maxSize {
          CacheModel.PutValid(s, key, value, size);
        }
      }
    case MinLruM(_, _, d, c) =>
      if MValid(x) {
        MinLru.GetMovesToEnd(d, key);
        MinLru.PutKeepsInvariant(d, key, value, c);
      }
    case DetailedLruM(_, _, d, c) =>
      if MValid(x) {
        DetailedLru.GetMovesToEnd(d, key);
        DetailedLru.PutKeepsInvariant(d, key, value, c);
      }
    case _ =>
  }

  /** What the harness asked of the cache, in order. */
  datatype Call = GetCall(key: string, answer: Option<Value>) | PutCall(key: string, value: Value, size: int)

  /** The end state of a replay, whether a put raised, and the calls made. */
  datatype Run = Run(machine: Machine, outcome: Outcome, calls: seq<Call>)

  /** The loop of `test_cache_performance` (TYP.py:180-183): a get for every
      access, and a put when the get answered `None`. An exception raised by a
      put ends the replay. */
  function Replay(x: Machine, a: seq<Access>): Run
    decreases |a|
  {
    if a == [] then Run(x, Pass, [])
    else
      var (x1, r) := MGet(x, a[0].key);
      if r.Some? then
        var rest := Replay(x1, a[1..]);
        Run(rest.machine, rest.outcome, [GetCall(a[0].key, r)] + rest.calls)
      else
        var (x2, o) := MPut(x1, a[0].key, a[0].value, a[0].size);
        var here := [GetCall(a[0].key, r), PutCall(a[0].key, a[0].value, a[0].size)];
        if o.Fail? then Run(x2, o, here)
        else
          var rest := Replay(x2, a[1..]);
          Run(rest.machine, rest.outcome, here + rest.calls)
  }

  /** The keys of the gets among the calls. */
  function GetKeys(calls: seq<Call>): seq<string> {
    if calls == [] then []
    else (if calls[0].GetCall? then [calls[0].key] else []) + GetKeys(calls[1..])
  }

  /** The number of puts among the calls. */
  function PutCount(calls: seq<Call>): nat {
    if calls == [] then 0
    else (if calls[0].PutCall? then 1 else 0) + PutCount(calls[1..])
  }

  /** The keys of the accesses, in order. */
  function Keys(a: seq<Access>): seq<string> {
    if a == [] then [] else [a[0].key] + Keys(a[1..])
  }

  lemma {:induction false} GetKeysAppend(c: seq<Call>, d: seq<Call>)
    ensures GetKeys(c + d) == GetKeys(c) + GetKeys(d)
    ensures PutCount(c + d) == PutCount(c) + PutCount(d)
  {
    if c == [] {
      assert c + d == d;
    } else {
      assert (c + d)[0] == c[0];
      assert (c + d)[1..] == c[1..] + d;
      GetKeysAppend(c[1..], d);
      var head := if c[0].GetCall? then [c[0].key] else [];
      assert GetKeys(c + d) == head + (GetKeys(c[1..]) + GetKeys(d));
      assert head + (GetKeys(c[1..]) + GetKeys(d)) == (head + GetKeys(c[1..])) + GetKeys(d);
    }
  }

  /** A replay that raises nothing makes exactly one get per access, for the
      accesses' keys in order, and counts exactly one hit or miss for each:
      on a fresh cache `hits + misses == len(sequence)`. It makes one put per
      miss. */
  lemma {:induction false} ReplayCounts(x: Machine, a: seq<Access>)
    requires Replay(x, a).outcome == Pass
    ensures GetKeys(Replay(x, a).calls) == Keys(a)
    ensures Hits(Replay(x, a).machine) + Misses(Replay(x, a).machine) == Hits(x) + Misses(x) + |a|
    ensures Misses(Replay(x, a).machine) == Misses(x) + PutCount(Replay(x, a).calls)
    decreases |a|
  {
    if a != [] {
      var (x1, r) := MGet(x, a[0].key);
      StepCounts(x, a[0].key, a[0].value, a[0].size);
      if r.Some? {
        ReplayCounts(x1, a[1..]);
        GetKeysAppend([GetCall(a[0].key, r)], Replay(x1, a[1..]).calls);
      } else {
        var (x2, o) := MPut(x1, a[0].key, a[0].value, a[0].size);
        StepCounts(x1, a[0].key, a[0].value, a[0].size);
        ReplayCounts(x2, a[1..]);
        var here := [GetCall(a[0].key, r), PutCall(a[0].key, a[0].value, a[0].size)];
        GetKeysAppend(here, Replay(x2, a[1..]).calls);
        assert GetKeys(here) == [a[0].key] by {
          assert here[1..] == [PutCall(a[0].key, a[0].value, a[0].size)];
        }
        assert PutCount(here) == 1 by {
          assert here[1..] == [PutCall(a[0].key, a[0].value, a[0].size)];
        }
      }
    }
  }

  /** Every put comes right after a get of the same key that answered
      `None`. */
  ghost predicate PutsFollowMisses(c: seq<Call>) {
    forall j :: 0 <= j < |c| && c[j].PutCall? ==> j > 0 && c[j - 1] == GetCall(c[j].key, None)
  }

  lemma PutsFollowMissesPrefix(here: seq<Call>, rest: seq<Call>)
    requires PutsFollowMisses(here) && PutsFollowMisses(rest)
    requires |here| > 0 && here[|here| - 1].GetCall? ==> here[|here| - 1].answer.Some?
    requires |rest| > 0 ==> rest[0].GetCall?
    ensures PutsFollowMisses(here + rest)
  {
    var c := here + rest;
    forall j | 0 <= j < |c| && c[j].PutCall? ensures j > 0 && c[j - 1] == GetCall(c[j].key, None) {
      if j >= |here| {
        assert c[j] == rest[j - |here|];
        assert rest[j - |here|].PutCall?;
        assert c[j - 1] == rest[j - |here| - 1];
      }
    }
  }

  /** Every put the harness makes comes right after a get of the same key that
      answered `None`, and every replay starts with a get. */
  lemma {:induction false} PutOnlyAfterMiss(x: Machine, a: seq<Access>)
    ensures PutsFollowMisses(Replay(x, a).calls)
    ensures |Replay(x, a).calls| > 0 ==> Replay(x, a).calls[0].GetCall?
    decreases |a|
  {
    if a != [] {
      var (x1, r) := MGet(x, a[0].key);
      if r.Some? {
        PutOnlyAfterMiss(x1, a[1..]);
        PutsFollowMissesPrefix([GetCall(a[0].key, r)], Replay(x1, a[1..]).calls);
      } else {
        var (x2, o) := MPut(x1, a[0].key, a[0].value, a[0].size);
        var here := [GetCall(a[0].key, r), PutCall(a[0].key, a[0].value, a[0].size)];
        assert PutsFollowMisses(here);
        if o.Pass? {
          PutOnlyAfterMiss(x2, a[1..]);
          PutsFollowMissesPrefix(here, Replay(x2, a[1..]).calls);
        }
      }
    }
  }

  /** The hit ratio a replay ends with, or the exception it raised
      (TYP.py:175-184). */
  function RunRatio(x: Machine, a: seq<Access>): Result<real> {
    var run := Replay(x, a);
    if run.outcome.Fail? then Err(run.outcome.error)
    else Ok(CacheModel.HitRatio(Hits(run.machine), Misses(run.machine)))
  }

  lemma RunRatioBounded(x: Machine, a: seq<Access>)
    requires RunRatio(x, a).Ok?
    ensures 0.0 <= RunRatio(x, a).value <= 1.0
  {
  }

  /** On a fresh cache the ratio of a replay that raises nothing is the share
      of the accesses that hit. */
  lemma FreshRatio(x: Machine, a: seq<Access>)
    requires Hits(x) == 0 && Misses(x) == 0 && |a| > 0
    requires Replay(x, a).outcome == Pass
    ensures Hits(Replay(x, a).machine) + Misses(Replay(x, a).machine) == |a|
    ensures RunRatio(x, a) == Ok(Hits(Replay(x, a).machine) as real / |a| as real)
  {
    ReplayCounts(x, a);
  }

  // ---------------------------------------------------------------------
  // The objects.

  /** One object of any of the classes the harness can drive. */
  datatype Backend =
    | Base(c: TypCache.Cache)
    | MinimalLru(minLru: Wrapper.MinimalLruWrapper)
    | MinimalFifo(minFifo: Wrapper.MinimalFifoWrapper)
    | MinimalLifo(minLifo: Wrapper.MinimalLifoWrapper)
    | DetailedLifoB(detLifo: Wrapper.DetailedLifoWrapper)
    | DetailedFifoB(detFifo: Wrapper.DetailedFifoWrapper)
    | DetailedLruB(detLru: Wrapper.DetailedLruWrapper)

  function Footprint(b: Backend): set<object> {
    match b
    case Base(c) => {c}
    case MinimalLru(w) => {w, w.inner}
    case MinimalFifo(w) => {w, w.inner}
    case MinimalLifo(w) => {w, w.inner}
    case DetailedLifoB(w) => {w, w.inner}
    case DetailedFifoB(w) => {w, w.inner}
    case DetailedLruB(w) => {w, w.inner}
  }

  /** The state of the object as a `Machine`. */
  function Abstract(b: Backend): Machine
    reads Footprint(b)
  {
    match b
    case Base(c) => BaseM(c.State())
    case MinimalLru(w) => MinLruM(w.hits, w.misses, w.inner.State(), w.inner.capacity)
    case MinimalFifo(w) => MinFifoM(w.hits, w.misses, w.inner.cache, w.inner.maxSize)
    case MinimalLifo(w) => MinLifoM(w.hits, w.misses, w.inner.queue, w.inner.capacity)
    case DetailedLifoB(w) => DetailedLifoM(w.hits, w.misses, w.inner.cache, w.inner.maxSize)
    case DetailedFifoB(w) => DetailedFifoM(w.hits, w.misses, w.inner.State(), w.inner.capacity)
    case DetailedLruB(w) => DetailedLruM(w.hits, w.misses, w.inner.State(), w.inner.capacity)
  }

  ghost predicate BValid(b: Backend)
    reads Footprint(b)
  {
    match b
    case Base(c) => c.Valid()
    case MinimalLru(w) => w.Valid()
    case DetailedLruB(w) => w.Valid()
    case _ => true
  }

  /** `cache.get(key)`, dispatched to the object's class. */
  method BackendGet(b: Backend, key: string) returns (r: Option<Value>)
    requires BValid(b)
    modifies Footprint(b)
    ensures (Abstract(b), r) == MGet(old(Abstract(b)), key)
    ensures BValid(b)
  {
    match b
    case Base(c) => r := c.Get(key);
    case MinimalLru(w) => r := w.Get(key);
    case MinimalFifo(w) => r := w.Get(key);
    case MinimalLifo(w) => r := w.Get(key);
    case DetailedLifoB(w) => r := w.Get(key);
    case DetailedFifoB(w) => r := w.Get(key);
    case DetailedLruB(w) => r := w.Get(key);
  }

  /** `cache.put(key, value, size)`, dispatched to the object's class. */
  method BackendPut(b: Backend, key: string, value: Value, size: int) returns (o: Outcome)
    requires BValid(b)
    modifies Footprint(b)
    ensures (Abstract(b), o) == MPut(old(Abstract(b)), key, value, size)
    ensures BValid(b)
  {
    match b
    case Base(c) => o := c.Put(key, value, size);
    case MinimalLru(w) => o := w.Put(key, value, size);
    case MinimalFifo(w) => w.Put(key, value, size); o := Pass;
    case MinimalLifo(w) => o := w.Put(key, value, size);
    case DetailedLifoB(w) => w.Put(key, value, size); o := Pass;
    case DetailedFifoB(w) => o := w.Put(key, value, size);
    case DetailedLruB(w) => o := w.Put(key, value, size);
  }

  /** `cache.get_hit_ratio()`. */
  function BackendHitRatio(b: Backend): (r: real)
    reads Footprint(b)
    ensures r == CacheModel.HitRatio(Hits(Abstract(b)), Misses(Abstract(b)))
  {
    match b
    case Base(c) => c.GetHitRatio()
    case MinimalLru(w) => w.GetHitRatio()
    case MinimalFifo(w) => w.GetHitRatio()
    case MinimalLifo(w) => w.GetHitRatio()
    case DetailedLifoB(w) => w.GetHitRatio()
    case DetailedFifoB(w) => w.GetHitRatio()
    case DetailedLruB(w) => w.GetHitRatio()
  }

  /** `test_cache_performance` (TYP.py:175-184): the object ends in the state
      of the replay, and the answer is the replay's ratio or its exception. */
  method TestCachePerformance(b: Backend, accessSequence: seq<Access>) returns (r: Result<real>)
    requires BValid(b)
    modifies Footprint(b)
    ensures Abstract(b) == Replay(old(Abstract(b)), accessSequence).machine
    ensures r == RunRatio(old(Abstract(b)), accessSequence)
    ensures BValid(b)
  {
    ghost var run := Replay(Abstract(b), accessSequence);
    for i := 0 to |accessSequence|
      invariant BValid(b)
      invariant Replay(Abstract(b), accessSequence[i..]) == Run(run.machine, run.outcome, Replay(Abstract(b), accessSequence[i..]).calls)
    {
      var access := accessSequence[i];
      assert accessSequence[i..][1..] == accessSequence[i + 1..];
      var result := BackendGet(b, access.key);
      if result.None? {
        var o := BackendPut(b, access.key, access.value, access.size);
        if o.Fail? {
          return Err(o.error);
        }
      }
    }
    return Ok(BackendHitRatio(b));
  }

  // ---------------------------------------------------------------------
  // Several runs.

  /** The class `multiple_run_test` is given. */
  datatype CacheClass =
    | TypClass(policy: CacheModel.Policy)
    | MinimalLruClass | MinimalFifoClass | MinimalLifoClass
    | DetailedLifoClass | DetailedFifoClass | DetailedLruClass

  /** The state of `cache_class(cache_size)`. */
  function Fresh(k: CacheClass, cacheSize: int): (x: Machine)
    ensures Hits(x) == 0 && Misses(x) == 0
  {
    match k
    case TypClass(p) => BaseM(CacheModel.Empty(p, cacheSize))
    case MinimalLruClass => MinLruM(0, 0, Dicts.Empty(), cacheSize)
    case MinimalFifoClass => MinFifoM(0, 0, [], cacheSize)
    case MinimalLifoClass => MinLifoM(0, 0, [], Some(cacheSize))
    case DetailedLifoClass => DetailedLifoM(0, 0, [], if cacheSize < 0 then 0 else cacheSize)
    case DetailedFifoClass => DetailedFifoM(0, 0, DetailedFifo.FifoState(map[], []), cacheSize)
    case DetailedLruClass => DetailedLruM(0, 0, Dicts.Empty(), cacheSize)
  }

  /** `cache_class(cache_size)`: a new object in the fresh state. */
  method NewBackend(k: CacheClass, cacheSize: int) returns (b: Backend)
    ensures fresh(Footprint(b)) && Abstract(b) == Fresh(k, cacheSize) && BValid(b)
  {
    match k
    case TypClass(p) =>
      var c := new TypCache.Cache(p, cacheSize);
      b := Base(c);
    case MinimalLruClass =>
      var w := new Wrapper.MinimalLruWrapper(cacheSize);
      b := MinimalLru(w);
    case MinimalFifoClass =>
      var w := new Wrapper.MinimalFifoWrapper(cacheSize);
      b := MinimalFifo(w);
    case MinimalLifoClass =>
      var w := new Wrapper.MinimalLifoWrapper(cacheSize);
      b := MinimalLifo(w);
    case DetailedLifoClass =>
      var w := new Wrapper.DetailedLifoWrapper(cacheSize);
      b := DetailedLifoB(w);
    case DetailedFifoClass =>
      var w := new Wrapper.DetailedFifoWrapper(cacheSize);
      b := DetailedFifoB(w);
    case DetailedLruClass =>
      var w := new Wrapper.DetailedLruWrapper(cacheSize);
      b := DetailedLruB(w);
  }

  /** The ratios of the runs over the given sequences, each on a fresh cache,
      or the first exception. */
  function Ratios(k: CacheClass, cacheSize: int, sequences: seq<seq<Access>>): Result<seq<real>>
    decreases |sequences|
  {
    if sequences == [] then Ok([])
    else
      match Ratios(k, cacheSize, sequences[..|sequences| - 1])
      case Err(e) => Err(e)
      case Ok(xs) =>
        match RunRatio(Fresh(k, cacheSize), sequences[|sequences| - 1])
        case Err(e) => Err(e)
        case Ok(x) => Ok(xs + [x])
  }

  function Sum(xs: seq<real>): real {
    if xs == [] then 0.0 else Sum(xs[..|xs| - 1]) + xs[|xs| - 1]
  }

  /** `statistics.mean`, which raises on no data. */
  function Mean(xs: seq<real>): Result<real> {
    if xs == [] then Err(StatisticsError) else Ok(Sum(xs) / |xs| as real)
  }

  /** `multiple_run_test` (TYP.py:237-255). The sequence the generator returned
      in each run is a parameter: the generators draw at random. */
  method MultipleRunTest(k: CacheClass, sequences: seq<seq<Access>>, cacheSize: int) returns (r: Result<real>)
    ensures Ratios(k, cacheSize, sequences).Err? ==> r == Err(Ratios(k, cacheSize, sequences).error)
    ensures Ratios(k, cacheSize, sequences).Ok? ==> r == Mean(Ratios(k, cacheSize, sequences).value)
  {
    var hitRatios: seq<real> := [];
    for run := 0 to |sequences|
      invariant Ratios(k, cacheSize, sequences[..run]) == Ok(hitRatios)
    {
      assert sequences[..run + 1][..run] == sequences[..run];
      var cache := NewBackend(k, cacheSize);
      var ratio := TestCachePerformance(cache, sequences[run]);
      if ratio.Err? {
        PrefixError(k, cacheSize, sequences, run + 1);
        return Err(ratio.error);
      }
      hitRatios := hitRatios + [ratio.value];
    }
    assert sequences[..|sequences|] == sequences;
    return Mean(hitRatios);
  }

  /** A run that raises makes the whole test raise the same, or an earlier,
      exception. */
  lemma {:induction false} PrefixError(k: CacheClass, cacheSize: int, sequences: seq<seq<Access>>, n: nat)
    requires n <= |sequences| && Ratios(k, cacheSize, sequences[..n]).Err?
    ensures Ratios(k, cacheSize, sequences).Err?
    ensures Ratios(k, cacheSize, sequences).error == Ratios(k, cacheSize, sequences[..n]).error
    decreases |sequences| - n
  {
    if n < |sequences| {
      var s := sequences[..n + 1];
      assert s[..n] == sequences[..n];
      PrefixError(k, cacheSize, sequences, n + 1);
    } else {
      assert sequences[..n] == sequences;
    }
  }

  /** The mean of several copies of one ratio is that ratio. */
  lemma {:induction false} MeanOfCopies(xs: seq<real>, x: real)
    requires |xs| > 0 && forall i :: 0 <= i < |xs| ==> xs[i] == x
    ensures Mean(xs) == Ok(x)
  {
    SumOfCopies(xs, x);
    var n := |xs| as real;
    assert Sum(xs) / n == x by {
      assert Sum(xs) == n * x;
    }
  }

  lemma {:induction false} SumOfCopies(xs: seq<real>, x: real)
    requires forall i :: 0 <= i < |xs| ==> xs[i] == x
    ensures Sum(xs) == |xs| as real * x
  {
    if xs != [] {
      SumOfCopies(xs[..|xs| - 1], x);
    }
  }

  /** Ratios in [0, 1] average to a value in [0, 1]. */
  lemma {:induction false} SumBounds(xs: seq<real>)
    requires forall i :: 0 <= i < |xs| ==> 0.0 <= xs[i] <= 1.0
    ensures 0.0 <= Sum(xs) <= |xs| as real
  {
    if xs != [] {
      SumBounds(xs[..|xs| - 1]);
    }
  }

  /** `Ratios` holds one ratio per run, the ratio of that run's replay on a
      fresh cache. */
  lemma {:induction false} RatiosPointwise(k: CacheClass, cacheSize: int, sequences: seq<seq<Access>>)
    requires Ratios(k, cacheSize, sequences).Ok?
    ensures |Ratios(k, cacheSize, sequences).value| == |sequences|
    ensures forall i :: 0 <= i < |sequences| ==>
              && RunRatio(Fresh(k, cacheSize), sequences[i]).Ok?
              && Ratios(k, cacheSize, sequences).value[i] == RunRatio(Fresh(k, cacheSize), sequences[i]).value
    decreases |sequences|
  {
    if sequences != [] {
      var init := sequences[..|sequences| - 1];
      var last := sequences[|sequences| - 1];
      RatiosPointwise(k, cacheSize, init);
      var ys := Ratios(k, cacheSize, init).value;
      var y := RunRatio(Fresh(k, cacheSize), last);
      var xs := ys + [y.value];
      assert Ratios(k, cacheSize, sequences) == Ok(xs);
      forall i | 0 <= i < |init|
        ensures RunRatio(Fresh(k, cacheSize), sequences[i]).Ok?
        ensures xs[i] == RunRatio(Fresh(k, cacheSize), sequences[i]).value
      {
        assert sequences[i] == init[i];
        assert xs[i] == ys[i];
      }
    }
  }

  /** Every run's ratio is in [0, 1], so `multiple_run_test` answers a mean in
      [0, 1] when no run raises. */
  lemma RatiosBounded(k: CacheClass, cacheSize: int, sequences: seq<seq<Access>>)
    requires Ratios(k, cacheSize, sequences).Ok?
    ensures forall i :: 0 <= i < |Ratios(k, cacheSize, sequences).value| ==>
              0.0 <= Ratios(k, cacheSize, sequences).value[i] <= 1.0
    ensures |sequences| > 0 ==> 0.0 <= Mean(Ratios(k, cacheSize, sequences).value).value <= 1.0
  {
    RatiosPointwise(k, cacheSize, sequences);
    var xs := Ratios(k, cacheSize, sequences).value;
    forall i | 0 <= i < |xs| ensures 0.0 <= xs[i] <= 1.0 {
      RunRatioBounded(Fresh(k, cacheSize), sequences[i]);
    }
    if xs != [] {
      SumBounds(xs);
      ShareBounded(Sum(xs), |xs| as real);
    }
  }

  lemma ShareBounded(s: real, n: real)
    requires 0.0 <= s <= n && n > 0.0
    ensures 0.0 <= s / n <= 1.0
  {
    assert s / n * n == s;
  }

  /** With the cyclic generator every run replays the same sequence, so the
      mean is the ratio of a single run. */
  lemma CyclicRunsAgree(k: CacheClass, cacheSize: int, sequences: seq<seq<Access>>, s: seq<Access>)
    requires |sequences| > 0 && forall i :: 0 <= i < |sequences| ==> sequences[i] == s
    requires RunRatio(Fresh(k, cacheSize), s).Ok?
    ensures Ratios(k, cacheSize, sequences).Ok?
    ensures Mean(Ratios(k, cacheSize, sequences).value) == RunRatio(Fresh(k, cacheSize), s)
  {
    AllRunsOk(k, cacheSize, sequences, s);
    RatiosPointwise(k, cacheSize, sequences);
    MeanOfCopies(Ratios(k, cacheSize, sequences).value, RunRatio(Fresh(k, cacheSize), s).value);
  }

  lemma {:induction false} AllRunsOk(k: CacheClass, cacheSize: int, sequences: seq<seq<Access>>, s: seq<Access>)
    requires forall i :: 0 <= i < |sequences| ==> sequences[i] == s
    requires RunRatio(Fresh(k, cacheSize), s).Ok?
    ensures Ratios(k, cacheSize, sequences).Ok?
    decreases |sequences|
  {
    if sequences != [] {
      AllRunsOk(k, cacheSize, sequences[..|sequences| - 1], s);
    }
  }

  // ---------------------------------------------------------------------
  // The end-to-end scenario: a cache of size 3 replaying the cyclic sequence
  // of nine accesses over three items of size 1.

  /** A miss on a key that fits beside the resident items stores it in `s'`
      without evicting anything, and the replay goes on from that state. */
  lemma MissStep(s: CacheModel.CacheState, a: seq<Access>) returns (s': CacheModel.CacheState)
    requires CacheModel.Valid(s) && |a| > 0 && a[0].key !in s.items
    requires a[0].size <= s.maxSize && s.currentSize + a[0].size <= s.maxSize
    ensures CacheModel.Valid(s') && s'.items.Keys == s.items.Keys + {a[0].key}
    ensures s'.currentSize == s.currentSize + a[0].size
    ensures s'.hits == s.hits && s'.misses == s.misses + 1 && s'.maxSize == s.maxSize
    ensures Replay(BaseM(s), a).machine == Replay(BaseM(s'), a[1..]).machine
    ensures Replay(BaseM(s), a).outcome == Replay(BaseM(s'), a[1..]).outcome
  {
    var s1 := s.(misses := s.misses + 1);
    assert CacheModel.Get(s, a[0].key) == (s1, None);
    CacheModel.PutFits(s1, a[0].key, a[0].value, a[0].size);
    CacheModel.InsertValid(s1, a[0].key, a[0].value, a[0].size);
    s' := CacheModel.Insert(s1, a[0].key, a[0].value, a[0].size);
  }

  /** Accesses whose keys are all resident all hit: nothing is put, and each
      counts one hit. */
  lemma {:induction false} AllResidentHits(s: CacheModel.CacheState, a: seq<Access>)
    requires CacheModel.Valid(s)
    requires forall i :: 0 <= i < |a| ==> a[i].key in s.items
    ensures Replay(BaseM(s), a).outcome == Pass
    ensures Hits(Replay(BaseM(s), a).machine) == s.hits + |a|
    ensures Misses(Replay(BaseM(s), a).machine) == s.misses
    decreases |a|
  {
    if a != [] {
      var (s1, r) := CacheModel.Get(s, a[0].key);
      CacheModel.GetValid(s, a[0].key);
      forall i | 0 <= i < |a[1..]| ensures a[1..][i].key in s1.items {
        assert a[1..][i] == a[i + 1];
      }
      AllResidentHits(s1, a[1..]);
    }
  }

  /** Two misses in a row on keys that both fit, from `s` to `s'`. */
  lemma TwoMisses(s: CacheModel.CacheState, a: seq<Access>) returns (s': CacheModel.CacheState)
    requires CacheModel.Valid(s) && |a| > 1 && a[0].key != a[1].key
    requires a[0].key !in s.items && a[1].key !in s.items
    requires 0 <= s.currentSize && 0 <= a[0].size && 0 <= a[1].size
    requires s.currentSize + a[0].size + a[1].size <= s.maxSize
    ensures CacheModel.Valid(s') && s'.items.Keys == s.items.Keys + {a[0].key, a[1].key}
    ensures s'.currentSize == s.currentSize + a[0].size + a[1].size
    ensures s'.hits == s.hits && s'.misses == s.misses + 2 && s'.maxSize == s.maxSize
    ensures Replay(BaseM(s), a).machine == Replay(BaseM(s'), a[2..]).machine
    ensures Replay(BaseM(s), a).outcome == Replay(BaseM(s'), a[2..]).outcome
  {
    var s1 := MissStep(s, a);
    var a1 := a[1..];
    assert a1[0] == a[1] && a1[1..] == a[2..];
    s' := MissStep(s1, a1);
  }

  /** The first pass over the three items, in a cache of size 3: three misses,
      each stored without an eviction. */
  lemma FirstPassMisses(p: CacheModel.Policy, a: seq<Access>, k0: string, k1: string, k2: string)
      returns (s: CacheModel.CacheState)
    requires |a| == 9 && a[0].key == k0 && a[1].key == k1 && a[2].key == k2
    requires k0 != k1 && k1 != k2 && k0 != k2
    requires a[0].size == 1 && a[1].size == 1 && a[2].size == 1
    ensures CacheModel.Valid(s) && s.items.Keys == {k0, k1, k2}
    ensures s.hits == 0 && s.misses == 3
    ensures Replay(BaseM(s), a[3..]).machine == Replay(Fresh(TypClass(p), 3), a).machine
    ensures Replay(BaseM(s), a[3..]).outcome == Replay(Fresh(TypClass(p), 3), a).outcome
  {
    var s0 := CacheModel.Empty(p, 3);
    CacheModel.EmptyValid(p, 3);
    var s1 := MissStep(s0, a);
    var a1 := a[1..];
    assert a1[0] == a[1] && a1[1] == a[2] && a1[2..] == a[3..];
    s := TwoMisses(s1, a1);
  }

  /** The keys and sizes of the cyclic sequence of `n_items = 3`,
      `cycle_length = 9`, `item_size = 1`. */
  lemma CyclicKeys(a: seq<Access>)
    requires |a| == 9
    requires forall i :: 0 <= i < 3 ==> a[i] == FirstPass(i, 1)
    requires forall i :: 3 <= i < 9 ==> a[i] == Access(ItemKey(i % 3), ItemValue(i), 1)
    ensures a[0].key == ItemKey(0) && a[1].key == ItemKey(1) && a[2].key == ItemKey(2)
    ensures a[0].size == 1 && a[1].size == 1 && a[2].size == 1
    ensures ItemKey(0) != ItemKey(1) && ItemKey(1) != ItemKey(2) && ItemKey(0) != ItemKey(2)
    ensures forall i :: 3 <= i < 9 ==> a[i].key in {ItemKey(0), ItemKey(1), ItemKey(2)}
  {
    ItemKeyInjective(0, 1);
    ItemKeyInjective(0, 2);
    ItemKeyInjective(1, 2);
    assert a[0] == FirstPass(0, 1) && a[1] == FirstPass(1, 1) && a[2] == FirstPass(2, 1);
    forall i | 3 <= i < 9 ensures a[i].key in {ItemKey(0), ItemKey(1), ItemKey(2)} {
      assert a[i].key == ItemKey(i % 3);
    }
  }

  /** After the first pass the remaining six accesses all hit. */
  lemma SecondPassHits(s: CacheModel.CacheState, a: seq<Access>, k0: string, k1: string, k2: string)
    requires CacheModel.Valid(s) && s.items.Keys == {k0, k1, k2} && |a| == 9
    requires forall i :: 3 <= i < 9 ==> a[i].key in {k0, k1, k2}
    ensures Replay(BaseM(s), a[3..]).outcome == Pass
    ensures Hits(Replay(BaseM(s), a[3..]).machine) == s.hits + 6
    ensures Misses(Replay(BaseM(s), a[3..]).machine) == s.misses
  {
    forall i | 0 <= i < |a[3..]| ensures a[3..][i].key in s.items {
      assert a[3..][i] == a[i + 3];
    }
    AllResidentHits(s, a[3..]);
  }

  /** The scenario: capacity 3 and the cyclic sequence of `n_items = 3`,
      `cycle_length = 9`, `item_size = 1`, as `create_cyclic_sequence`
      promises it. Under every policy the first pass misses three times and
      the six accesses after it all hit: hits = 6, misses = 3, ratio 6/9. */
  lemma EndToEnd(p: CacheModel.Policy, a: seq<Access>)
    requires |a| == 9
    requires forall i :: 0 <= i < 3 ==> a[i] == FirstPass(i, 1)
    requires forall i :: 3 <= i < 9 ==> a[i] == Access(ItemKey(i % 3), ItemValue(i), 1)
    ensures Replay(Fresh(TypClass(p), 3), a).outcome == Pass
    ensures Hits(Replay(Fresh(TypClass(p), 3), a).machine) == 6
    ensures Misses(Replay(Fresh(TypClass(p), 3), a).machine) == 3
    ensures RunRatio(Fresh(TypClass(p), 3), a) == Ok(6.0 / 9.0)
  {
    CyclicKeys(a);
    var s := FirstPassMisses(p, a, ItemKey(0), ItemKey(1), ItemKey(2));
    SecondPassHits(s, a, ItemKey(0), ItemKey(1), ItemKey(2));
  }
}
