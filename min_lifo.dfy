/** minLIFO.py: a list of (key, value) pairs, newest last, with an optional
    capacity. A put into a full list replaces the newest pair; keys are never
    deduplicated, and `get` finds the newest pair for a key. */
module MinLifo {
  import opened Common

  /** The outcome and the list after `put(key, value)` (minLIFO.py:12-15).
      `pop` on the empty list raises `IndexError`, which happens at the first
      put when the capacity is zero or negative. */
  function PutQueue(q: seq<(string, Value)>, key: string, value: Value, capacity: Option<int>): (Outcome, seq<(string, Value)>) {
    if capacity.Some? && |q| >= capacity.value then
      if |q| == 0 then (Fail(IndexError), q)
      else (Pass, q[..|q| - 1] + [(key, value)])
    else (Pass, q + [(key, value)])
  }

  class LifoCache {
    var queue: seq<(string, Value)>
    /** `None` for a cache without a limit, the default. */
    var capacity: Option<int>

    /** `LifoCache(capacity=None)` (minLIFO.py:2-4). */
    constructor (capacity: Option<int>)
      ensures queue == [] && this.capacity == capacity
    {
      queue := [];
      this.capacity := capacity;
    }

    /** `get` (minLIFO.py:6-10): the value of the newest pair with the key. */
    method Get(key: string) returns (r: Option<Value>)
      ensures r == LookupLast(queue, key)
    {
      r := ScanLast(queue, key);
    }

    /** `put` (minLIFO.py:12-15). */
    method Put(key: string, value: Value) returns (r: Outcome)
      modifies this
      ensures (r, queue) == PutQueue(old(queue), key, value, capacity)
      ensures capacity == old(capacity)
    {
      if capacity.Some? && |queue| >= capacity.value {
        if |queue| == 0 {
          return Fail(IndexError);
        }
        queue := queue[..|queue| - 1];
      }
      queue := queue + [(key, value)];
      return Pass;
    }

    /** `size` (minLIFO.py:17-18): the number of pairs, duplicates included. */
    function Size(): (n: nat)
      reads this
      ensures n == |queue|
    {
      |queue|
    }
  }

  /** After a successful put the key looks up to the new value, and the list
      ends with the new pair. */
  lemma PutThenGet(q: seq<(string, Value)>, key: string, value: Value, capacity: Option<int>)
    requires PutQueue(q, key, value, capacity).0 == Pass
    ensures LookupLast(PutQueue(q, key, value, capacity).1, key) == Some(value)
    ensures var t := PutQueue(q, key, value, capacity).1; |t| > 0 && t[|t| - 1] == (key, value)
  {
  }

  /** A put succeeds exactly when there is no capacity, the capacity is not
      reached, or the list is not empty. */
  lemma PutFailsIff(q: seq<(string, Value)>, key: string, value: Value, capacity: Option<int>)
    ensures PutQueue(q, key, value, capacity).0 == Fail(IndexError) <==>
              capacity.Some? && capacity.value <= 0 && q == []
    ensures PutQueue(q, key, value, capacity).0.Fail? ==> PutQueue(q, key, value, capacity).1 == q
  {
  }

  /** With a positive capacity the list never grows beyond it; a full list
      keeps its length and loses its newest pair, every older pair staying
      where it was. */
  lemma FullPutReplacesNewest(q: seq<(string, Value)>, key: string, value: Value, c: int)
    requires c >= 1 && |q| == c
    ensures PutQueue(q, key, value, Some(c)).0 == Pass
    ensures |PutQueue(q, key, value, Some(c)).1| == c
    ensures forall i :: 0 <= i < c - 1 ==> PutQueue(q, key, value, Some(c)).1[i] == q[i]
    ensures PutQueue(q, key, value, Some(c)).1[c - 1] == (key, value)
  {
  }

  /** The list stays within a positive capacity. */
  lemma PutBounded(q: seq<(string, Value)>, key: string, value: Value, c: int)
    requires c >= 1 && |q| <= c
    ensures |PutQueue(q, key, value, Some(c)).1| <= c
  {
  }

  /** Without a capacity every put appends: the list keeps every earlier pair,
      including older pairs for the same key. */
  lemma UnboundedPutAppends(q: seq<(string, Value)>, key: string, value: Value)
    ensures PutQueue(q, key, value, None) == (Pass, q + [(key, value)])
    ensures |PutQueue(q, key, value, None).1| == |q| + 1
  {
  }

  /** A put leaves the lookup of another key as it was, unless the pair it
      replaced was that key's newest one. */
  lemma {:induction false} PutLeavesOtherKeys(q: seq<(string, Value)>, key: string, value: Value, capacity: Option<int>, k: string)
    requires k != key && PutQueue(q, key, value, capacity).0 == Pass
    requires capacity.Some? && |q| >= capacity.value ==> q[|q| - 1].0 != k
    ensures LookupLast(PutQueue(q, key, value, capacity).1, k) == LookupLast(q, k)
  {
    var t := PutQueue(q, key, value, capacity).1;
    var p := t[..|t| - 1];
    assert t == p + [(key, value)];
    assert LookupLast(t, k) == LookupLast(p, k);
    if capacity.Some? && |q| >= capacity.value {
      assert p == q[..|q| - 1];
      assert LookupLast(q, k) == LookupLast(p, k);
    } else {
      assert p == q;
    }
  }
}
