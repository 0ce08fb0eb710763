/** detailedLIFO.py: a list of (key, value) pairs with the newest pair at the
    end. A put that would overflow the list drops the pair it has just
    appended, so a full cache refuses new keys and never evicts a resident
    one. */
module DetailedLifo {
  import opened Common

  /** The list after `put(key, value)` (detailedLIFO.py:16-29). */
  function PutPairs(s: seq<(string, Value)>, key: string, value: Value, maxSize: int): seq<(string, Value)> {
    var t := WithoutKey(s, key) + [(key, value)];
    if |t| > maxSize then t[..|t| - 1] else t
  }

  class LifoCache {
    var cache: seq<(string, Value)>
    var maxSize: int

    /** `LifoCache(max_size)` (detailedLIFO.py:2-8): a negative size is
        clamped to zero. */
    constructor (maxSize: int)
      ensures this.maxSize == (if maxSize < 0 then 0 else maxSize)
      ensures this.maxSize >= 0 && cache == []
    {
      if maxSize < 0 {
        cache := [];
        this.maxSize := 0;
      } else {
        cache := [];
        this.maxSize := maxSize;
      }
    }

    /** `get` (detailedLIFO.py:10-14): the value of the first pair with the
        key, `None` when there is none. */
    method Get(key: string) returns (r: Option<Value>)
      ensures r == Lookup(cache, key)
    {
      r := ScanFirst(cache, key);
    }

    /** `put` (detailedLIFO.py:16-29). */
    method Put(key: string, value: Value)
      modifies this
      ensures cache == PutPairs(old(cache), key, value, maxSize)
      ensures maxSize == old(maxSize)
    {
      cache := DeleteFirst(cache, key);
      cache := cache + [(key, value)];
      if |cache| > maxSize {
        cache := cache[..|cache| - 1];
      }
    }

    /** `size` (detailedLIFO.py:31-32): the number of pairs held. */
    function Size(): (n: nat)
      reads this
      ensures n == |cache|
    {
      |cache|
    }
  }

  /** A put keeps the keys distinct and the list within `max_size`. */
  lemma PutKeepsInvariant(s: seq<(string, Value)>, key: string, value: Value, maxSize: int)
    requires DistinctKeys(s) && |s| <= maxSize
    ensures DistinctKeys(PutPairs(s, key, value, maxSize))
    ensures |PutPairs(s, key, value, maxSize)| <= maxSize
  {
    WithoutKeyDistinct(s, key);
  }

  /** A put never disturbs another key: every other key looks up as before,
      so nothing resident is ever evicted. */
  lemma PutLeavesOtherKeys(s: seq<(string, Value)>, key: string, value: Value, maxSize: int, k: string)
    requires k != key
    ensures Lookup(PutPairs(s, key, value, maxSize), k) == Lookup(s, k)
  {
    var w := WithoutKey(s, key);
    var t := w + [(key, value)];
    WithoutKeyLookup(s, key, k);
    if |t| > maxSize {
      assert t[..|t| - 1] == w;
    } else {
      LookupAppend(w, [(key, value)], k);
      assert FirstKeyIndex([(key, value)], k).None?;
    }
  }

  /** The put key looks up to the new value exactly when the list without its
      old pair has room left; otherwise it is absent afterwards. */
  lemma PutStoresIffRoom(s: seq<(string, Value)>, key: string, value: Value, maxSize: int)
    requires DistinctKeys(s)
    ensures |WithoutKey(s, key)| < maxSize ==> Lookup(PutPairs(s, key, value, maxSize), key) == Some(value)
    ensures |WithoutKey(s, key)| >= maxSize ==> Lookup(PutPairs(s, key, value, maxSize), key) == None
  {
    var w := WithoutKey(s, key);
    var t := w + [(key, value)];
    WithoutKeyDistinct(s, key);
    assert FirstKeyIndex(w, key).None?;
    if |t| > maxSize {
      assert t[..|t| - 1] == w;
    } else {
      LookupAppend(w, [(key, value)], key);
    }
  }

  /** A new key offered to a full cache changes nothing. */
  lemma FullCacheRefusesNewKey(s: seq<(string, Value)>, key: string, value: Value, maxSize: int)
    requires Lookup(s, key).None? && |s| >= maxSize
    ensures PutPairs(s, key, value, maxSize) == s
  {
    var t := s + [(key, value)];
    assert t[..|t| - 1] == s;
  }

  /** Putting a resident key again moves its pair to the end with the new
      value and keeps the length. */
  lemma RePutMovesToEnd(s: seq<(string, Value)>, key: string, value: Value, maxSize: int)
    requires DistinctKeys(s) && Lookup(s, key).Some? && |s| <= maxSize
    ensures PutPairs(s, key, value, maxSize) == WithoutKey(s, key) + [(key, value)]
    ensures |PutPairs(s, key, value, maxSize)| == |s|
    ensures PutPairs(s, key, value, maxSize)[|s| - 1] == (key, value)
    ensures Lookup(PutPairs(s, key, value, maxSize), key) == Some(value)
  {
    PutStoresIffRoom(s, key, value, maxSize);
  }
}
