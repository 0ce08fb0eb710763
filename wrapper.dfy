/** wrapper.py: the six adapters that put the small caches behind the
    `BaseCache` interface of TYP.py. Each keeps the fields it inherits from
    `BaseCache`, counts hits and misses in `get`, and forwards `put` to its
    inner cache, ignoring the size. The inherited `items` and `current_size`
    are never touched, so they stay empty and zero. */
module Wrapper {
  import opened Common
  import CacheModel
  import Dicts
  import MinLru
  import MinFifo
  import MinLifo
  import DetailedLifo
  import DetailedFifo
  import DetailedLru

  /** The counters after a wrapper `get` whose answer is `r`: a hit exactly
      when the answer is not `None` (wrapper.py:40-44 and the five copies of
      that test). */
  function Tally(hits: nat, misses: nat, r: Option<Value>): (c: (nat, nat))
    ensures c.0 + c.1 == hits + misses + 1
    ensures r.Some? <==> c.0 == hits + 1
    ensures r.None? <==> c.1 == misses + 1
  {
    if r.None? then (hits, misses + 1) else (hits + 1, misses)
  }

  /** `DetailedLRUWrapper.get` (wrapper.py:245-250) turns the -1 that the inner
      cache answers on a miss into `None`. */
  function FromSentinel(v: Value): (r: Option<Value>)
    ensures r.None? <==> v == Int(-1)
    ensures r.Some? ==> r.value == v
  {
    if v == Int(-1) then None else Some(v)
  }

  class MinimalLruWrapper {
    var maxSize: int
    var currentSize: int
    var hits: nat
    var misses: nat
    var items: map<string, CacheModel.CacheItem>
    const inner: MinLru.LruCache

    ghost predicate Valid()
      reads this, inner
    {
      inner.Valid()
    }

    /** wrapper.py:18-26: the inner cache gets capacity `max_size`. */
    constructor (maxSize: int)
      ensures this.maxSize == maxSize && currentSize == 0 && hits == 0 && misses == 0 && items == map[]
      ensures fresh(inner) && inner.capacity == maxSize && inner.State() == Dicts.Empty() && Valid()
    {
      this.maxSize := maxSize;
      currentSize := 0;
      hits := 0;
      misses := 0;
      items := map[];
      inner := new MinLru.LruCache(maxSize);
    }

    /** wrapper.py:28-44. */
    method Get(key: string) returns (r: Option<Value>)
      requires Valid()
      modifies this, inner
      ensures (inner.State(), r) == MinLru.GetDict(old(inner.State()), key)
      ensures (hits, misses) == Tally(old(hits), old(misses), r)
      ensures maxSize == old(maxSize) && currentSize == old(currentSize) && items == old(items)
      ensures inner.capacity == old(inner.capacity) && Valid()
    {
      r := inner.Get(key);
      if r.None? {
        misses := misses + 1;
      } else {
        hits := hits + 1;
      }
    }

    /** wrapper.py:46-55: `size` is ignored; an exception of the inner cache
        propagates. */
    method Put(key: string, value: Value, size: int) returns (o: Outcome)
      requires Valid()
      modifies inner
      ensures (o, inner.State()) == MinLru.PutDict(old(inner.State()), key, value, inner.capacity)
      ensures inner.capacity == old(inner.capacity) && Valid()
      ensures o != Fail(ValueError)
    {
      o := inner.Put(key, value);
    }

    /** `get_hit_ratio` inherited from `BaseCache` (TYP.py:75-81). */
    function GetHitRatio(): (r: real)
      reads this
      ensures 0.0 <= r <= 1.0
      ensures hits + misses > 0 ==> r * (hits + misses) as real == hits as real
    {
      CacheModel.HitRatio(hits, misses)
    }
  }

  class MinimalFifoWrapper {
    var maxSize: int
    var currentSize: int
    var hits: nat
    var misses: nat
    var items: map<string, CacheModel.CacheItem>
    const inner: MinFifo.FifoCache

    /** wrapper.py:83-91: the inner cache gets `max_size`. */
    constructor (maxSize: int)
      ensures this.maxSize == maxSize && currentSize == 0 && hits == 0 && misses == 0 && items == map[]
      ensures fresh(inner) && inner.maxSize == maxSize && inner.cache == []
    {
      this.maxSize := maxSize;
      currentSize := 0;
      hits := 0;
      misses := 0;
      items := map[];
      inner := new MinFifo.FifoCache(maxSize);
    }

    /** wrapper.py:93-110. */
    method Get(key: string) returns (r: Option<Value>)
      modifies this
      ensures r == Lookup(inner.cache, key)
      ensures (hits, misses) == Tally(old(hits), old(misses), r)
      ensures maxSize == old(maxSize) && currentSize == old(currentSize) && items == old(items)
    {
      r := inner.Get(key);
      if r.None? {
        misses := misses + 1;
        return None;
      } else {
        hits := hits + 1;
        return r;
      }
    }

    /** wrapper.py:112-121: `size` is ignored. */
    method Put(key: string, value: Value, size: int)
      modifies inner
      ensures inner.cache == MinFifo.PutList(old(inner.cache), key, value, inner.maxSize)
      ensures inner.maxSize == old(inner.maxSize)
    {
      inner.Put(key, value);
    }

    /** `get_hit_ratio` inherited from `BaseCache` (TYP.py:75-81). */
    function GetHitRatio(): (r: real)
      reads this
      ensures 0.0 <= r <= 1.0
      ensures hits + misses > 0 ==> r * (hits + misses) as real == hits as real
    {
      CacheModel.HitRatio(hits, misses)
    }
  }

  class MinimalLifoWrapper {
    var maxSize: int
    var currentSize: int
    var hits: nat
    var misses: nat
    var items: map<string, CacheModel.CacheItem>
    const inner: MinLifo.LifoCache

    /** wrapper.py:140-142: the inner cache gets the capacity `max_size`,
        never `None`. */
    constructor (maxSize: int)
      ensures this.maxSize == maxSize && currentSize == 0 && hits == 0 && misses == 0 && items == map[]
      ensures fresh(inner) && inner.capacity == Some(maxSize) && inner.queue == []
    {
      this.maxSize := maxSize;
      currentSize := 0;
      hits := 0;
      misses := 0;
      items := map[];
      inner := new MinLifo.LifoCache(Some(maxSize));
    }

    /** wrapper.py:144-151. */
    method Get(key: string) returns (r: Option<Value>)
      modifies this
      ensures r == LookupLast(inner.queue, key)
      ensures (hits, misses) == Tally(old(hits), old(misses), r)
      ensures maxSize == old(maxSize) && currentSize == old(currentSize) && items == old(items)
    {
      r := inner.Get(key);
      if r.None? {
        misses := misses + 1;
        return None;
      } else {
        hits := hits + 1;
        return r;
      }
    }

    /** wrapper.py:153-154: `size` is ignored; an exception of the inner cache
        propagates. */
    method Put(key: string, value: Value, size: int) returns (o: Outcome)
      modifies inner
      ensures (o, inner.queue) == MinLifo.PutQueue(old(inner.queue), key, value, inner.capacity)
      ensures inner.capacity == old(inner.capacity)
      ensures o != Fail(ValueError)
    {
      o := inner.Put(key, value);
    }

    /** `get_hit_ratio` inherited from `BaseCache` (TYP.py:75-81). */
    function GetHitRatio(): (r: real)
      reads this
      ensures 0.0 <= r <= 1.0
      ensures hits + misses > 0 ==> r * (hits + misses) as real == hits as real
    {
      CacheModel.HitRatio(hits, misses)
    }
  }

  class DetailedLifoWrapper {
    var maxSize: int
    var currentSize: int
    var hits: nat
    var misses: nat
    var items: map<string, CacheModel.CacheItem>
    const inner: DetailedLifo.LifoCache

    /** wrapper.py:173-175: the inner cache gets `max_size`, clamped to zero
        when negative. */
    constructor (maxSize: int)
      ensures this.maxSize == maxSize && currentSize == 0 && hits == 0 && misses == 0 && items == map[]
      ensures fresh(inner) && inner.maxSize == (if maxSize < 0 then 0 else maxSize) && inner.cache == []
    {
      this.maxSize := maxSize;
      currentSize := 0;
      hits := 0;
      misses := 0;
      items := map[];
      inner := new DetailedLifo.LifoCache(maxSize);
    }

    /** wrapper.py:177-184. */
    method Get(key: string) returns (r: Option<Value>)
      modifies this
      ensures r == Lookup(inner.cache, key)
      ensures (hits, misses) == Tally(old(hits), old(misses), r)
      ensures maxSize == old(maxSize) && currentSize == old(currentSize) && items == old(items)
    {
      r := inner.Get(key);
      if r.None? {
        misses := misses + 1;
        return None;
      } else {
        hits := hits + 1;
        return r;
      }
    }

    /** wrapper.py:186-187: `size` is ignored. */
    method Put(key: string, value: Value, size: int)
      modifies inner
      ensures inner.cache == DetailedLifo.PutPairs(old(inner.cache), key, value, inner.maxSize)
      ensures inner.maxSize == old(inner.maxSize)
    {
      inner.Put(key, value);
    }

    /** `get_hit_ratio` inherited from `BaseCache` (TYP.py:75-81). */
    function GetHitRatio(): (r: real)
      reads this
      ensures 0.0 <= r <= 1.0
      ensures hits + misses > 0 ==> r * (hits + misses) as real == hits as real
    {
      CacheModel.HitRatio(hits, misses)
    }
  }

  class DetailedFifoWrapper {
    var maxSize: int
    var currentSize: int
    var hits: nat
    var misses: nat
    var items: map<string, CacheModel.CacheItem>
    const inner: DetailedFifo.FifoCache

    /** wrapper.py:206-208: the inner cache gets capacity `max_size`. */
    constructor (maxSize: int)
      ensures this.maxSize == maxSize && currentSize == 0 && hits == 0 && misses == 0 && items == map[]
      ensures fresh(inner) && inner.capacity == maxSize && inner.State() == DetailedFifo.FifoState(map[], [])
    {
      this.maxSize := maxSize;
      currentSize := 0;
      hits := 0;
      misses := 0;
      items := map[];
      inner := new DetailedFifo.FifoCache(maxSize);
    }

    /** wrapper.py:210-217. */
    method Get(key: string) returns (r: Option<Value>)
      modifies this
      ensures r == inner.Get(key)
      ensures (hits, misses) == Tally(old(hits), old(misses), r)
      ensures maxSize == old(maxSize) && currentSize == old(currentSize) && items == old(items)
    {
      r := inner.Get(key);
      if r.None? {
        misses := misses + 1;
        return None;
      } else {
        hits := hits + 1;
        return r;
      }
    }

    /** wrapper.py:219-220: `size` is ignored; an exception of the inner cache
        propagates. */
    method Put(key: string, value: Value, size: int) returns (o: Outcome)
      modifies inner
      ensures (o, inner.State()) == DetailedFifo.PutState(old(inner.State()), key, value, inner.capacity)
      ensures inner.capacity == old(inner.capacity)
      ensures o != Fail(ValueError)
    {
      o := inner.Put(key, value);
    }

    /** `get_hit_ratio` inherited from `BaseCache` (TYP.py:75-81). */
    function GetHitRatio(): (r: real)
      reads this
      ensures 0.0 <= r <= 1.0
      ensures hits + misses > 0 ==> r * (hits + misses) as real == hits as real
    {
      CacheModel.HitRatio(hits, misses)
    }
  }

  class DetailedLruWrapper {
    var maxSize: int
    var currentSize: int
    var hits: nat
    var misses: nat
    var items: map<string, CacheModel.CacheItem>
    const inner: DetailedLru.LruCache

    ghost predicate Valid()
      reads this, inner
    {
      inner.Valid()
    }

    /** wrapper.py:239-241: the inner cache gets capacity `max_size`. */
    constructor (maxSize: int)
      ensures this.maxSize == maxSize && currentSize == 0 && hits == 0 && misses == 0 && items == map[]
      ensures fresh(inner) && inner.capacity == maxSize && inner.State() == Dicts.Empty() && Valid()
    {
      this.maxSize := maxSize;
      currentSize := 0;
      hits := 0;
      misses := 0;
      items := map[];
      inner := new DetailedLru.LruCache(maxSize);
    }

    /** wrapper.py:243-250: the inner -1 counts as a miss and is answered as
        `None`. */
    method Get(key: string) returns (r: Option<Value>)
      requires Valid()
      modifies this, inner
      ensures inner.State() == DetailedLru.GetDict(old(inner.State()), key).0
      ensures r == FromSentinel(DetailedLru.GetDict(old(inner.State()), key).1)
      ensures (hits, misses) == Tally(old(hits), old(misses), r)
      ensures maxSize == old(maxSize) && currentSize == old(currentSize) && items == old(items)
      ensures inner.capacity == old(inner.capacity) && Valid()
    {
      var result := inner.Get(key);
      if result == Int(-1) {
        misses := misses + 1;
        return None;
      } else {
        hits := hits + 1;
        return Some(result);
      }
    }

    /** wrapper.py:252-253: `size` is ignored; an exception of the inner cache
        propagates. */
    method Put(key: string, value: Value, size: int) returns (o: Outcome)
      requires Valid()
      modifies inner
      ensures (o, inner.State()) == DetailedLru.PutDict(old(inner.State()), key, value, inner.capacity)
      ensures inner.capacity == old(inner.capacity) && Valid()
      ensures o != Fail(ValueError)
    {
      o := inner.Put(key, value);
    }

    /** `get_hit_ratio` inherited from `BaseCache` (TYP.py:75-81). */
    function GetHitRatio(): (r: real)
      reads this
      ensures 0.0 <= r <= 1.0
      ensures hits + misses > 0 ==> r * (hits + misses) as real == hits as real
    {
      CacheModel.HitRatio(hits, misses)
    }
  }

  /** The -1 sentinel is ambiguous: a resident key whose stored value is the
      integer -1 is reported by `DetailedLRUWrapper.get` as a miss, answered
      `None`, although the inner cache held it and moved it to the end. */
  lemma StoredMinusOneReadsAsMiss(d: Dicts.Dict, key: string, hits: nat, misses: nat)
    requires Dicts.Valid(d) && key in d.values && d.values[key] == Int(-1)
    ensures FromSentinel(DetailedLru.GetDict(d, key).1) == None
    ensures Tally(hits, misses, FromSentinel(DetailedLru.GetDict(d, key).1)) == (hits, misses + 1)
    ensures DetailedLru.GetDict(d, key).0.order == Remove(d.order, key) + [key]
  {
    DetailedLru.GetMovesToEnd(d, key);
  }
}
