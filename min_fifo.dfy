/** minFIFO.py: a list of (key, value) pairs, newest first. A put removes the
    old pair for the key, inserts the new pair at the front, and drops the
    last pair, the oldest, when the list is longer than `max_size`. */
module MinFifo {
  import opened Common

  /** The list after `put(key, value)` (minFIFO.py:12-19). */
  function PutList(s: seq<(string, Value)>, key: string, value: Value, maxSize: int): seq<(string, Value)> {
    var t := [(key, value)] + WithoutKey(s, key);
    if |t| > maxSize then t[..|t| - 1] else t
  }

  class FifoCache {
    var cache: seq<(string, Value)>
    var maxSize: int

    /** `FifoCache(max_size)` (minFIFO.py:2-4). */
    constructor (maxSize: int)
      ensures cache == [] && this.maxSize == maxSize
    {
      cache := [];
      this.maxSize := maxSize;
    }

    /** `get` (minFIFO.py:6-10): the value of the first, newest, pair with the
        key. */
    method Get(key: string) returns (r: Option<Value>)
      ensures r == Lookup(cache, key)
    {
      r := ScanFirst(cache, key);
    }

    /** `put` (minFIFO.py:12-19). */
    method Put(key: string, value: Value)
      modifies this
      ensures cache == PutList(old(cache), key, value, maxSize)
      ensures maxSize == old(maxSize)
    {
      cache := DeleteFirst(cache, key);
      cache := [(key, value)] + cache;
      if |cache| > maxSize {
        cache := cache[..|cache| - 1];
      }
    }
  }

  /** Put keeps the keys distinct, whatever `max_size` is, and keeps the list
      within a `max_size` that is not negative. */
  lemma PutKeepsInvariant(s: seq<(string, Value)>, key: string, value: Value, maxSize: int)
    ensures DistinctKeys(s) ==> DistinctKeys(PutList(s, key, value, maxSize))
    ensures 0 <= maxSize && |s| <= maxSize ==> |PutList(s, key, value, maxSize)| <= maxSize
  {
    if DistinctKeys(s) {
      WithoutKeyDistinct(s, key);
      var t := [(key, value)] + WithoutKey(s, key);
      assert DistinctKeys(t);
    }
  }

  /** With a positive size the new pair is the first one, so `get` finds the
      new value. */
  lemma PutThenGet(s: seq<(string, Value)>, key: string, value: Value, maxSize: int)
    requires maxSize >= 1
    ensures PutList(s, key, value, maxSize)[0] == (key, value)
    ensures Lookup(PutList(s, key, value, maxSize), key) == Some(value)
  {
    FirstKeyIndexIs(PutList(s, key, value, maxSize), key, 0);
  }

  /** A new key put into a full list evicts the oldest pair, the last one;
      every other pair moves one place back, and the evicted key is gone. */
  lemma FullPutEvictsOldest(s: seq<(string, Value)>, key: string, value: Value, maxSize: int)
    requires DistinctKeys(s) && |s| == maxSize && maxSize >= 1 && Lookup(s, key).None?
    ensures PutList(s, key, value, maxSize) == [(key, value)] + s[..|s| - 1]
    ensures Lookup(PutList(s, key, value, maxSize), s[|s| - 1].0) == None
  {
    var last := s[|s| - 1].0;
    var r := PutList(s, key, value, maxSize);
    assert r == [(key, value)] + s[..|s| - 1];
    assert last != key;
    forall j | 0 <= j < |r| ensures r[j].0 != last {
      if j > 0 {
        assert r[j] == s[j - 1];
      }
    }
  }

  /** The result is a prefix of the list with the new pair in front and the old
      pair for the key removed: the relative order of the other pairs is
      preserved. */
  lemma PutIsPrefix(s: seq<(string, Value)>, key: string, value: Value, maxSize: int)
    ensures PutList(s, key, value, maxSize) <= [(key, value)] + WithoutKey(s, key)
  {
  }

  /** Every other key looks up as before, unless it is the oldest key and a
      new key overflows the list. */
  lemma PutLeavesOtherKeys(s: seq<(string, Value)>, key: string, value: Value, maxSize: int, k: string)
    requires k != key && |s| <= maxSize
    requires |s| == maxSize && |s| > 0 && Lookup(s, key).None? ==> s[|s| - 1].0 != k
    ensures Lookup(PutList(s, key, value, maxSize), k) == Lookup(s, k)
  {
    var w := WithoutKey(s, key);
    var t := [(key, value)] + w;
    WithoutKeyLookup(s, key, k);
    LookupAppend([(key, value)], w, k);
    assert FirstKeyIndex([(key, value)], k).None?;
    if |t| > maxSize && |s| > 0 {
      assert FirstKeyIndex(s, key).None?;
      assert w == s;
      var init := s[..|s| - 1];
      assert t[..|t| - 1] == [(key, value)] + init;
      LookupAppend([(key, value)], init, k);
      assert init + [s[|s| - 1]] == s;
      LookupAppend(init, [s[|s| - 1]], k);
      assert FirstKeyIndex([s[|s| - 1]], k).None?;
    }
  }
}
