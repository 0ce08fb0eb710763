/** detailedFIFO.py: a dict from keys to values beside a deque of the keys in
    arrival order. A put into a full cache pops the oldest key off the deque
    and deletes it from the dict. A key that is put again is appended to the
    deque a second time, which the eviction step does not expect. */
module DetailedFifo {
  import opened Common

  datatype FifoState = FifoState(cache: map<string, Value>, keys: seq<string>)

  /** `self.cache[key] = value; self.keys.append(key)` (detailedFIFO.py:16-17). */
  function Store(s: FifoState, key: string, value: Value): FifoState {
    FifoState(s.cache[key := value], s.keys + [key])
  }

  /** The outcome and the new state of `put(key, value)` (detailedFIFO.py:11-17).
      With the deque as long as the capacity, `popleft` raises `IndexError` when
      the deque is empty, and `del` raises `KeyError` when the popped key has
      already left the dict; the popped key is then gone from the deque. */
  function PutState(s: FifoState, key: string, value: Value, capacity: int): (Outcome, FifoState) {
    if |s.keys| == capacity then
      if |s.keys| == 0 then (Fail(IndexError), s)
      else if s.keys[0] !in s.cache then (Fail(KeyError), s.(keys := s.keys[1..]))
      else (Pass, Store(FifoState(s.cache - {s.keys[0]}, s.keys[1..]), key, value))
    else (Pass, Store(s, key, value))
  }

  /** The state the class keeps while every put brings a new key: the deque
      lists the dict's keys once each, and is no longer than the capacity. */
  ghost predicate Valid(s: FifoState, capacity: int) {
    && NoDup(s.keys)
    && (forall k :: k in s.keys <==> k in s.cache)
    && |s.keys| <= capacity
  }

  class FifoCache {
    var capacity: int
    var cache: map<string, Value>
    var keys: seq<string>

    function State(): FifoState
      reads this
    {
      FifoState(cache, keys)
    }

    /** `FifoCache(capacity)` (detailedFIFO.py:6-9). */
    constructor (capacity: int)
      ensures this.capacity == capacity && cache == map[] && keys == []
    {
      this.capacity := capacity;
      cache := map[];
      keys := [];
    }

    /** `put` (detailedFIFO.py:11-17). */
    method Put(key: string, value: Value) returns (r: Outcome)
      modifies this
      ensures (r, State()) == PutState(old(State()), key, value, capacity)
      ensures capacity == old(capacity)
    {
      if |keys| == capacity {
        if |keys| == 0 {
          return Fail(IndexError);
        }
        var oldest := keys[0];
        keys := keys[1..];
        if oldest !in cache {
          return Fail(KeyError);
        }
        cache := cache - {oldest};
      }
      cache := cache[key := value];
      keys := keys + [key];
      return Pass;
    }

    /** `get` (detailedFIFO.py:19-21): `dict.get`, `None` for an absent key. */
    function Get(key: string): (r: Option<Value>)
      reads this
      ensures r.Some? <==> key in cache
      ensures r.Some? ==> r.value == cache[key]
    {
      if key in cache then Some(cache[key]) else None
    }

    /** `size` (detailedFIFO.py:23-25): the length of the deque, which counts a
        key as often as it was put. */
    function Size(): (n: nat)
      reads this
      ensures n == |keys|
    {
      |keys|
    }
  }

  /** The empty cache is in the invariant for every capacity that is not
      negative. */
  lemma EmptyValid(capacity: int)
    requires capacity >= 0
    ensures Valid(FifoState(map[], []), capacity)
  {
  }

  /** Dropping the head of a duplicate-free deque removes exactly that key. */
  lemma PopLeft(keys: seq<string>)
    requires NoDup(keys) && |keys| > 0
    ensures NoDup(keys[1..])
    ensures forall k :: k in keys[1..] <==> k in keys && k != keys[0]
  {
    assert keys == [keys[0]] + keys[1..];
  }

  /** While every put brings a new key and the capacity is positive, put
      succeeds, keeps the invariant, and in a full cache evicts exactly the
      oldest key. */
  lemma PutNewKey(s: FifoState, key: string, value: Value, capacity: int)
    requires Valid(s, capacity) && capacity >= 1 && key !in s.cache
    ensures PutState(s, key, value, capacity).0 == Pass
    ensures Valid(PutState(s, key, value, capacity).1, capacity)
    ensures PutState(s, key, value, capacity).1.cache[key] == value
    ensures |s.keys| == capacity ==>
              && PutState(s, key, value, capacity).1.keys == s.keys[1..] + [key]
              && PutState(s, key, value, capacity).1.cache.Keys == s.cache.Keys - {s.keys[0]} + {key}
    ensures |s.keys| < capacity ==>
              && PutState(s, key, value, capacity).1.keys == s.keys + [key]
              && PutState(s, key, value, capacity).1.cache.Keys == s.cache.Keys + {key}
  {
    if |s.keys| == capacity {
      PopLeft(s.keys);
      assert s.keys[0] in s.cache;
      NoDupAppend(s.keys[1..], key);
    } else {
      NoDupAppend(s.keys, key);
    }
  }

  /** Putting a resident key into a cache with room appends the key to the
      deque a second time: the deque stops being duplicate-free and the size
      grows although the dict does not. */
  lemma RePutDuplicatesKey(s: FifoState, key: string, value: Value, capacity: int)
    requires Valid(s, capacity) && key in s.cache && |s.keys| < capacity
    ensures PutState(s, key, value, capacity) == (Pass, FifoState(s.cache[key := value], s.keys + [key]))
    ensures !NoDup(PutState(s, key, value, capacity).1.keys)
    ensures PutState(s, key, value, capacity).1.cache.Keys == s.cache.Keys
  {
    var t := s.keys + [key];
    NoDupLastNotInit(t);
  }

  /** A duplicate-free sequence does not end with an element it already
      holds. */
  lemma {:induction false} NoDupLastNotInit(t: seq<string>)
    requires |t| > 0 && t[|t| - 1] in t[..|t| - 1]
    ensures !NoDup(t)
  {
    if NoDup(t) {
      RemoveLast(t);
      assert false;
    }
  }

  /** With capacity 2, the puts `a`, `a`, `b`, `c` of distinct keys end in a
      `KeyError`: the third put evicts `a` through its first deque entry, and
      the fourth pops the second `a` entry, whose key the dict no longer
      holds. */
  lemma DuplicateEntryRaisesKeyError(a: string, b: string, c: string, v: Value)
    requires a != b && b != c && a != c
    ensures var s1 := PutState(FifoState(map[], []), a, v, 2);
            var s2 := PutState(s1.1, a, v, 2);
            var s3 := PutState(s2.1, b, v, 2);
            var s4 := PutState(s3.1, c, v, 2);
            && s1.0 == Pass && s2.0 == Pass && s3.0 == Pass
            && s3.1 == FifoState(map[b := v], [a, b])
            && s4.0 == Fail(KeyError)
  {
    var s1 := PutState(FifoState(map[], []), a, v, 2);
    assert s1.1 == FifoState(map[a := v], [a]);
    var s2 := PutState(s1.1, a, v, 2);
    assert s2.1 == FifoState(map[a := v], [a, a]);
    var s3 := PutState(s2.1, b, v, 2);
    assert s2.1.keys[1..] == [a];
    assert map[a := v] - {a} == map[];
    assert s3.1 == FifoState(map[b := v], [a, b]);
  }

  /** Puts of one key alone never raise: while every deque entry names that
      key and the dict holds it, the entry a full cache pops names a key the
      dict still holds. */
  lemma SameKeyPutsPass(s: FifoState, key: string, value: Value, capacity: int)
    requires capacity >= 1 && |s.keys| <= capacity
    requires forall i :: 0 <= i < |s.keys| ==> s.keys[i] == key
    requires |s.keys| > 0 ==> key in s.cache
    ensures PutState(s, key, value, capacity).0 == Pass
    ensures var t := PutState(s, key, value, capacity).1;
            && |t.keys| <= capacity && 0 < |t.keys|
            && (forall i :: 0 <= i < |t.keys| ==> t.keys[i] == key)
            && key in t.cache && t.cache[key] == value
  {
    if |s.keys| == capacity {
      assert s.keys[0] == key;
    }
  }

  /** A capacity of zero makes the first put raise `IndexError`: the deque is
      as long as the capacity but empty. */
  lemma ZeroCapacityRaisesIndexError(key: string, value: Value)
    ensures PutState(FifoState(map[], []), key, value, 0) == (Fail(IndexError), FifoState(map[], []))
  {
  }
}
