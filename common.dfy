/** Vocabulary shared by every cache: Python's `None`, the exceptions the caches
    raise, the payloads they store, and the list operations they perform. */
module Common {

  /** `None` versus a present value, as returned by the `get` methods. */
  datatype Option<+T> = None | Some(value: T)

  /** The Python exceptions that the caches can raise. */
  datatype Error =
    | ValueError       // BaseCache.put with an item larger than the whole cache
    | IndexError       // pop from an empty list, popleft from an empty deque
    | KeyError         // popitem on an empty dict, del of a key that is not there
    | StatisticsError  // statistics.mean of no data

  /** A call that returns nothing or raises. */
  datatype Outcome = Pass | Fail(error: Error)

  /** A call that returns a value or raises. */
  datatype Result<+T> = Ok(value: T) | Err(error: Error)

  /** The payloads stored in the caches: strings such as "value_3", and integers
      (detailedLRU.py answers a miss with the integer -1). */
  datatype Value = Str(s: string) | Int(n: int)

  /** No element occurs twice: the head is not in the tail, recursively. */
  ghost predicate NoDup<T>(s: seq<T>)
    decreases |s|
  {
    |s| == 0 || (s[0] !in s[1..] && NoDup(s[1..]))
  }

  /** Appending an element that is not there keeps a sequence duplicate-free. */
  lemma {:induction false} NoDupAppend<T>(s: seq<T>, x: T)
    requires NoDup(s) && x !in s
    ensures NoDup(s + [x])
  {
    if s != [] {
      var r := s + [x];
      assert r[0] == s[0] && r[1..] == s[1..] + [x];
      NoDupAppend(s[1..], x);
    }
  }

  /** The sequence without the element at index `i` (Python's `del s[i]` and `s.pop(i)`). */
  function RemoveAt<T>(s: seq<T>, i: nat): (r: seq<T>)
    requires i < |s|
    ensures |r| == |s| - 1
    ensures forall j :: 0 <= j < i ==> r[j] == s[j]
    ensures forall j :: i <= j < |r| ==> r[j] == s[j + 1]
  {
    s[..i] + s[i + 1..]
  }

  /** The index of the first occurrence of `x`. */
  function IndexOf<T(==)>(s: seq<T>, x: T): (i: nat)
    requires x in s
    ensures i < |s| && s[i] == x
    ensures forall j :: 0 <= j < i ==> s[j] != x
  {
    if s[0] == x then 0 else 1 + IndexOf(s[1..], x)
  }

  /** Python's `s.remove(x)` guarded by `if x in s` (both `list.remove` and
      `del` on an ordered dict drop the first, and there only, occurrence). */
  function Remove<T(==)>(s: seq<T>, x: T): (r: seq<T>)
    ensures |r| <= |s|
  {
    if s == [] then []
    else if s[0] == x then s[1..]
    else [s[0]] + Remove(s[1..], x)
  }

  /** Removing an element that is not there changes nothing. */
  lemma {:induction false} RemoveAbsent<T>(s: seq<T>, x: T)
    requires x !in s
    ensures Remove(s, x) == s
  {
    if s != [] {
      RemoveAbsent(s[1..], x);
    }
  }

  /** Removing an element from a duplicate-free sequence removes exactly that
      element and keeps the sequence duplicate-free. */
  lemma {:induction false} RemoveNoDup<T>(s: seq<T>, x: T)
    requires NoDup(s)
    ensures NoDup(Remove(s, x))
    ensures forall y :: y in Remove(s, x) <==> y in s && y != x
    ensures x in s ==> |Remove(s, x)| == |s| - 1
    ensures x !in s ==> Remove(s, x) == s
  {
    if s != [] && s[0] != x {
      var t := Remove(s[1..], x);
      RemoveNoDup(s[1..], x);
      var r := [s[0]] + t;
      assert r[0] == s[0] && r[1..] == t;
      assert forall y :: y in r <==> y == s[0] || y in t;
      assert x in s ==> x in s[1..];
    }
  }

  /** In a duplicate-free sequence, removing the first element, from the whole
      sequence or from its tail, leaves the tail. */
  lemma RemoveHead<T>(s: seq<T>)
    requires NoDup(s) && |s| > 0
    ensures Remove(s, s[0]) == s[1..]
    ensures Remove(s[1..], s[0]) == s[1..]
  {
    RemoveAbsent(s[1..], s[0]);
  }

  /** In a duplicate-free sequence, removing the last element, from the whole
      sequence or from the rest, leaves the rest. */
  lemma {:induction false} RemoveLast<T>(s: seq<T>)
    requires NoDup(s) && |s| > 0
    ensures Remove(s, s[|s| - 1]) == s[..|s| - 1]
    ensures Remove(s[..|s| - 1], s[|s| - 1]) == s[..|s| - 1]
    ensures s[|s| - 1] !in s[..|s| - 1]
  {
    var n := |s|;
    var init := s[..n - 1];
    if n > 1 {
      var t := s[1..];
      assert t[|t| - 1] == s[n - 1];
      assert s[n - 1] in t;
      RemoveLast(t);
      assert t[..|t| - 1] == s[1..n - 1];
      assert init == [s[0]] + s[1..n - 1];
      assert init[1..] == s[1..n - 1];
      assert s[n - 1] !in init;
    }
    RemoveAbsent(init, s[n - 1]);
  }

  /** The element order of `s` restricted to the elements of `keep`. */
  function Filter<T>(s: seq<T>, keep: set<T>): (r: seq<T>)
    ensures forall i :: 0 <= i < |r| ==> r[i] in s && r[i] in keep
    ensures forall i :: 0 <= i < |s| && s[i] in keep ==> s[i] in r
    ensures |r| <= |s|
  {
    if s == [] then []
    else (if s[0] in keep then [s[0]] else []) + Filter(s[1..], keep)
  }

  lemma {:induction false} FilterAll<T>(s: seq<T>, keep: set<T>)
    requires forall y :: y in s ==> y in keep
    ensures Filter(s, keep) == s
  {
    if s != [] {
      FilterAll(s[1..], keep);
    }
  }

  lemma {:induction false} FilterFilter<T>(s: seq<T>, a: set<T>, b: set<T>)
    ensures Filter(Filter(s, a), b) == Filter(s, a * b)
  {
    if s != [] {
      FilterFilter(s[1..], a, b);
      FilterAppend(if s[0] in a then [s[0]] else [], Filter(s[1..], a), b);
    }
  }

  lemma {:induction false} FilterAppend<T>(s: seq<T>, t: seq<T>, keep: set<T>)
    ensures Filter(s + t, keep) == Filter(s, keep) + Filter(t, keep)
  {
    if s != [] {
      assert (s + t)[0] == s[0];
      assert (s + t)[1..] == s[1..] + t;
      FilterAppend(s[1..], t, keep);
      var h := if s[0] in keep then [s[0]] else [];
      calc {
        Filter(s + t, keep);
        h + Filter(s[1..] + t, keep);
        h + (Filter(s[1..], keep) + Filter(t, keep));
        (h + Filter(s[1..], keep)) + Filter(t, keep);
        Filter(s, keep) + Filter(t, keep);
      }
    } else {
      assert s + t == t;
    }
  }

  /** Removing the first occurrence of `x` from a duplicate-free sequence keeps
      every other element in its relative order. */
  lemma {:induction false} RemoveIsFilter<T>(s: seq<T>, x: T, keep: set<T>)
    requires NoDup(s)
    requires forall y :: y in s ==> (y in keep <==> y != x)
    ensures Remove(s, x) == Filter(s, keep)
  {
    if s != [] {
      var t := s[1..];
      if s[0] == x {
        FilterAll(t, keep);
      } else {
        RemoveIsFilter(t, x, keep);
      }
    }
  }

  // ---------------------------------------------------------------------
  // Lists of (key, value) pairs, as kept by detailedLIFO.py, minLIFO.py
  // and minFIFO.py.

  /** The index of the first pair whose key is `key`, found by a scan from the
      front. */
  function FirstKeyIndex<K(==), V>(s: seq<(K, V)>, key: K): (r: Option<nat>)
    ensures r.Some? ==> r.value < |s| && s[r.value].0 == key
    ensures r.Some? ==> forall j :: 0 <= j < r.value ==> s[j].0 != key
    ensures r.None? ==> forall j :: 0 <= j < |s| ==> s[j].0 != key
  {
    if s == [] then None
    else if s[0].0 == key then Some(0)
    else match FirstKeyIndex(s[1..], key)
      case None => None
      case Some(i) => Some(i + 1)
  }

  /** The index of the last pair whose key is `key`, found by a scan from the
      back. */
  function LastKeyIndex<K(==), V>(s: seq<(K, V)>, key: K): (r: Option<nat>)
    ensures r.Some? ==> r.value < |s| && s[r.value].0 == key
    ensures r.Some? ==> forall j :: r.value < j < |s| ==> s[j].0 != key
    ensures r.None? ==> forall j :: 0 <= j < |s| ==> s[j].0 != key
  {
    if s == [] then None
    else if s[|s| - 1].0 == key then Some(|s| - 1)
    else LastKeyIndex(s[..|s| - 1], key)
  }

  /** The first pair with key `key` is the one at index `i`. */
  lemma FirstKeyIndexIs<K, V>(s: seq<(K, V)>, key: K, i: nat)
    requires i < |s| && s[i].0 == key
    requires forall j :: 0 <= j < i ==> s[j].0 != key
    ensures FirstKeyIndex(s, key) == Some(i)
  {
  }

  /** The value of the first pair with key `key`, or `None`. */
  function Lookup<K(==), V>(s: seq<(K, V)>, key: K): Option<V>
  {
    match FirstKeyIndex(s, key)
    case None => None
    case Some(i) => Some(s[i].1)
  }

  /** The value of the last pair with key `key`, or `None`. */
  function LookupLast<K(==), V>(s: seq<(K, V)>, key: K): Option<V>
  {
    match LastKeyIndex(s, key)
    case None => None
    case Some(i) => Some(s[i].1)
  }

  /** The list without its first pair with key `key` (detailedLIFO.py:18-22,
      minFIFO.py:13-16), unchanged when there is none. */
  function WithoutKey<K(==), V>(s: seq<(K, V)>, key: K): seq<(K, V)>
  {
    match FirstKeyIndex(s, key)
    case None => s
    case Some(i) => RemoveAt(s, i)
  }

  /** No two pairs share a key. */
  ghost predicate DistinctKeys<K, V>(s: seq<(K, V)>) {
    forall i, j :: 0 <= i < j < |s| ==> s[i].0 != s[j].0
  }

  /** With distinct keys, dropping the pair for `key` leaves no pair for it,
      keeps the others' keys distinct, and shortens the list by one exactly
      when the key was there. */
  lemma WithoutKeyDistinct<K, V>(s: seq<(K, V)>, key: K)
    requires DistinctKeys(s)
    ensures DistinctKeys(WithoutKey(s, key))
    ensures forall j :: 0 <= j < |WithoutKey(s, key)| ==> WithoutKey(s, key)[j].0 != key
    ensures |WithoutKey(s, key)| == if FirstKeyIndex(s, key).Some? then |s| - 1 else |s|
  {
  }

  /** Looking up `k` after dropping the first pair for `key` finds what it
      found before, for every other key `k`. */
  lemma {:induction false} WithoutKeyLookup<K, V>(s: seq<(K, V)>, key: K, k: K)
    requires k != key
    ensures Lookup(WithoutKey(s, key), k) == Lookup(s, k)
  {
    match FirstKeyIndex(s, key)
    case None =>
    case Some(i) =>
      var r := RemoveAt(s, i);
      match FirstKeyIndex(s, k)
      case None =>
        assert FirstKeyIndex(r, k).None?;
      case Some(j) =>
        if j < i {
          FirstKeyIndexIs(r, k, j);
        } else {
          assert j != i;
          FirstKeyIndexIs(r, k, j - 1);
        }
  }

  /** The first pair for `key` in `s + t` is in `s` if `s` has one. */
  lemma LookupAppend<K, V>(s: seq<(K, V)>, t: seq<(K, V)>, k: K)
    ensures Lookup(s + t, k) == if FirstKeyIndex(s, k).Some? then Lookup(s, k) else Lookup(t, k)
  {
    match FirstKeyIndex(s, k)
    case Some(i) =>
      FirstKeyIndexIs(s + t, k, i);
    case None =>
      match FirstKeyIndex(t, k)
      case None =>
        assert FirstKeyIndex(s + t, k).None?;
      case Some(j) =>
        FirstKeyIndexIs(s + t, k, |s| + j);
  }

  /** The scan of `get` in detailedLIFO.py:11-14 and minFIFO.py:7-10: the
      value of the first pair with the key, or `None` after the whole list. */
  method ScanFirst<V>(s: seq<(string, V)>, key: string) returns (r: Option<V>)
    ensures r == Lookup(s, key)
  {
    var i := 0;
    while i < |s|
      invariant 0 <= i <= |s|
      invariant forall j :: 0 <= j < i ==> s[j].0 != key
    {
      if s[i].0 == key {
        FirstKeyIndexIs(s, key, i);
        return Some(s[i].1);
      }
      i := i + 1;
    }
    return None;
  }

  /** The scan of `get` in minLIFO.py:7-10, over `reversed(queue)`: the value
      of the last pair with the key, or `None`. */
  method ScanLast<V>(s: seq<(string, V)>, key: string) returns (r: Option<V>)
    ensures r == LookupLast(s, key)
  {
    var i := |s|;
    while i > 0
      invariant 0 <= i <= |s|
      invariant forall j :: i <= j < |s| ==> s[j].0 != key
      invariant LookupLast(s, key) == LookupLast(s[..i], key)
    {
      if s[i - 1].0 == key {
        return Some(s[i - 1].1);
      }
      assert s[..i][..i - 1] == s[..i - 1];
      i := i - 1;
    }
    return None;
  }

  /** The scan of `put` in detailedLIFO.py:18-22 and minFIFO.py:13-16: delete
      the first pair with the key and stop, or leave the list as it is. */
  method DeleteFirst<V>(s: seq<(string, V)>, key: string) returns (r: seq<(string, V)>)
    ensures r == WithoutKey(s, key)
  {
    var i := 0;
    while i < |s|
      invariant 0 <= i <= |s|
      invariant forall j :: 0 <= j < i ==> s[j].0 != key
    {
      if s[i].0 == key {
        FirstKeyIndexIs(s, key, i);
        return RemoveAt(s, i);
      }
      i := i + 1;
    }
    return s;
  }
}
