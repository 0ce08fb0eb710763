/** The size-budgeted cache of TYP.py (`BaseCache` and its subclasses
    `LIFOCache`, `FIFOCache` and `LRUCache`) as a state and pure transitions.
    The three subclasses differ only in how they keep their order structure,
    so the policy is a tag of the state. The class in typ_cache.dfy is proved
    to perform exactly these transitions. */
module CacheModel {
  import opened Common

  /** Which subclass of `BaseCache` the cache is. */
  datatype Policy = Lifo | Fifo | Lru

  /** `CacheItem` (TYP.py:10-20). */
  datatype CacheItem = CacheItem(key: string, value: Value, size: int)

  /** The fields of a `BaseCache` together with the subclass's order structure:
      `insertion_order` of `LIFOCache`/`FIFOCache`, or the keys of the
      `access_order` OrderedDict of `LRUCache`, oldest first. */
  datatype CacheState = CacheState(
    policy: Policy,
    maxSize: int,
    currentSize: int,
    hits: nat,
    misses: nat,
    items: map<string, CacheItem>,
    order: seq<string>)

  /** A cache just constructed (TYP.py:27-32, 99-101, 125-127, 151-153). */
  function Empty(policy: Policy, maxSize: int): CacheState {
    CacheState(policy, maxSize, 0, 0, 0, map[], [])
  }

  ghost function PickKey(m: map<string, CacheItem>): (k: string)
    requires m != map[]
    ensures k in m
  {
    var k :| k in m; k
  }

  /** The sum of the sizes of the resident items. */
  ghost function TotalSize(items: map<string, CacheItem>): int
    decreases |items|
  {
    if items == map[] then 0
    else
      var k := PickKey(items);
      items[k].size + TotalSize(items - {k})
  }

  /** The sum does not depend on which key is taken out first. */
  lemma {:induction false} TotalSizeRemove(items: map<string, CacheItem>, k: string)
    requires k in items
    ensures TotalSize(items) == items[k].size + TotalSize(items - {k})
    decreases |items|
  {
    var j := PickKey(items);
    if j != k {
      TotalSizeRemove(items - {j}, k);
      TotalSizeRemove(items - {k}, j);
      assert items - {j} - {k} == items - {k} - {j};
    }
  }

  /** The invariant of a `BaseCache`: `current_size` is the sum of the resident
      sizes, the order structure holds exactly the resident keys, once each,
      and every item is filed under its own key. */
  ghost predicate Valid(s: CacheState) {
    && s.currentSize == TotalSize(s.items)
    && NoDup(s.order)
    && (forall k :: k in s.order <==> k in s.items)
    && (forall k :: k in s.items ==> s.items[k].key == k)
  }

  /** No resident item has a negative size (`put` does not check this). */
  ghost predicate SizesNonNegative(items: map<string, CacheItem>) {
    forall k :: k in items ==> items[k].size >= 0
  }

  lemma EmptyValid(policy: Policy, maxSize: int)
    ensures Valid(Empty(policy, maxSize))
  {
  }

  /** `BaseCache.get_hit_ratio` (TYP.py:75-81). */
  function HitRatio(hits: nat, misses: nat): (r: real)
    ensures 0.0 <= r <= 1.0
    ensures hits + misses == 0 ==> r == 0.0
    ensures hits + misses > 0 ==> r * (hits + misses) as real == hits as real
  {
    var total := hits + misses;
    if total > 0 then hits as real / total as real else 0.0
  }

  // ---------------------------------------------------------------------
  // The order structure.

  /** Delete the key if present and append it: `_on_put` of all three
      subclasses and `LRUCache._on_access` (TYP.py:111-114, 137-140, 160-168). */
  function MoveToEnd(order: seq<string>, key: string): seq<string> {
    Remove(order, key) + [key]
  }

  /** `_on_access`: only the LRU cache reorders on a hit (TYP.py:108-109, 134-135, 160-163). */
  function OnAccess(policy: Policy, order: seq<string>, key: string): seq<string> {
    if policy == Lru then MoveToEnd(order, key) else order
  }

  lemma MoveToEndNoDup(order: seq<string>, key: string)
    ensures NoDup(order) ==> NoDup(MoveToEnd(order, key))
    ensures NoDup(order) ==> forall k :: k in MoveToEnd(order, key) <==> k in order || k == key
  {
    if NoDup(order) {
      RemoveNoDup(order, key);
      NoDupAppend(Remove(order, key), key);
    }
  }

  /** `LIFOCache._choose_eviction_victim` (TYP.py:103-106): drop trailing keys
      that are no longer resident, then pop the last key. */
  function LifoVictim(order: seq<string>, items: map<string, CacheItem>): (r: (Option<string>, seq<string>))
    ensures r.0.Some? ==> r.0.value in items
    ensures r.0.Some? ==> |r.1| < |order| && r.1 == order[..|r.1|] && order[|r.1|] == r.0.value
    ensures r.0.Some? ==> forall j :: |r.1| < j < |order| ==> order[j] !in items
    ensures r.0.None? ==> r.1 == [] && forall j :: 0 <= j < |order| ==> order[j] !in items
    decreases |order|
  {
    if order == [] then (None, [])
    else if order[|order| - 1] !in items then LifoVictim(order[..|order| - 1], items)
    else (Some(order[|order| - 1]), order[..|order| - 1])
  }

  /** `FIFOCache._choose_eviction_victim` (TYP.py:129-132): drop leading keys
      that are no longer resident, then pop the first key. */
  function FifoVictim(order: seq<string>, items: map<string, CacheItem>): (r: (Option<string>, seq<string>))
    ensures r.0.Some? ==> r.0.value in items
    ensures r.0.Some? ==> |r.1| < |order| && r.1 == order[|order| - |r.1|..]
    ensures r.0.Some? ==> order[|order| - |r.1| - 1] == r.0.value
    ensures r.0.Some? ==> forall j :: 0 <= j < |order| - |r.1| - 1 ==> order[j] !in items
    ensures r.0.None? ==> r.1 == [] && forall j :: 0 <= j < |order| ==> order[j] !in items
    decreases |order|
  {
    if order == [] then (None, [])
    else if order[0] !in items then FifoVictim(order[1..], items)
    else (Some(order[0]), order[1..])
  }

  /** `LRUCache._choose_eviction_victim` (TYP.py:155-158): drop leading keys
      that are no longer resident, then name the first key without removing it. */
  function LruVictim(order: seq<string>, items: map<string, CacheItem>): (r: (Option<string>, seq<string>))
    ensures r.0.Some? ==> r.0.value in items
    ensures r.0.Some? ==> 0 < |r.1| <= |order| && r.1 == order[|order| - |r.1|..] && r.1[0] == r.0.value
    ensures r.0.Some? ==> forall j :: 0 <= j < |order| - |r.1| ==> order[j] !in items
    ensures r.0.None? ==> r.1 == [] && forall j :: 0 <= j < |order| ==> order[j] !in items
    decreases |order|
  {
    if order == [] then (None, [])
    else if order[0] !in items then LruVictim(order[1..], items)
    else (Some(order[0]), order)
  }

  /** The victim and the order structure left behind by the policy's choice. */
  function Victim(policy: Policy, order: seq<string>, items: map<string, CacheItem>): (r: (Option<string>, seq<string>))
  {
    match policy
    case Lifo => LifoVictim(order, items)
    case Fifo => FifoVictim(order, items)
    case Lru => LruVictim(order, items)
  }

  /** `_remove_item` of the subclasses (TYP.py:67-73 followed by 116-119,
      142-145 or 170-173): forget the item and its size, then the key's entry in
      the order structure. Absent keys are ignored. */
  function RemoveItem(s: CacheState, key: string): CacheState {
    s.(currentSize := if key in s.items then s.currentSize - s.items[key].size else s.currentSize,
       items := s.items - {key},
       order := Remove(s.order, key))
  }

  /** Removing a key keeps the invariant, and takes its size off `current_size`. */
  lemma RemoveItemValid(s: CacheState, key: string)
    requires Valid(s)
    ensures Valid(RemoveItem(s, key))
    ensures key !in s.items ==> RemoveItem(s, key).currentSize == s.currentSize
    ensures key in s.items ==> RemoveItem(s, key).currentSize == s.currentSize - s.items[key].size
  {
    if key in s.items {
      TotalSizeRemove(s.items, key);
    } else {
      assert s.items - {key} == s.items;
    }
    RemoveNoDup(s.order, key);
  }

  /** Removing a key keeps the relative order of the other keys. */
  lemma RemoveItemOrder(s: CacheState, key: string)
    requires Valid(s)
    ensures RemoveItem(s, key).order == Filter(s.order, s.items.Keys - {key})
  {
    RemoveIsFilter(s.order, key, s.items.Keys - {key});
  }

  /** The key a policy evicts first from a valid state: the most recently put
      key for LIFO, the least recently put (FIFO) or touched (LRU) key
      otherwise. */
  function FirstVictim(s: CacheState): string
    requires |s.order| > 0
  {
    if s.policy == Lifo then s.order[|s.order| - 1] else s.order[0]
  }

  /** On a valid state with items left, no stale entry is skipped: the victim
      is `FirstVictim`, and removing it after the policy's choice leaves the
      same state as removing it outright. */
  lemma VictimOfValid(s: CacheState)
    requires Valid(s) && s.items != map[]
    ensures |s.order| > 0 && FirstVictim(s) in s.items
    ensures Victim(s.policy, s.order, s.items).0 == Some(FirstVictim(s))
    ensures RemoveItem(s.(order := Victim(s.policy, s.order, s.items).1), FirstVictim(s))
              == RemoveItem(s, FirstVictim(s))
  {
    var k := PickKey(s.items);
    assert k in s.order;
    match s.policy
    case Lifo => LifoVictimOfValid(s);
    case Fifo => FifoVictimOfValid(s);
    case Lru =>
  }

  lemma LifoVictimOfValid(s: CacheState)
    requires Valid(s) && |s.order| > 0
    ensures LifoVictim(s.order, s.items) == (Some(s.order[|s.order| - 1]), s.order[..|s.order| - 1])
    ensures RemoveItem(s.(order := s.order[..|s.order| - 1]), s.order[|s.order| - 1])
              == RemoveItem(s, s.order[|s.order| - 1])
  {
    assert s.order[|s.order| - 1] in s.items;
    RemoveLast(s.order);
  }

  lemma FifoVictimOfValid(s: CacheState)
    requires Valid(s) && |s.order| > 0
    ensures FifoVictim(s.order, s.items) == (Some(s.order[0]), s.order[1..])
    ensures RemoveItem(s.(order := s.order[1..]), s.order[0]) == RemoveItem(s, s.order[0])
  {
    var f := s.order[0];
    assert f in s.items;
    RemoveHead(s.order);
    var o1 := s.order[1..];
    assert Remove(o1, f) == Remove(s.order, f);
    var a := RemoveItem(s.(order := o1), f);
    var b := RemoveItem(s, f);
    assert a.order == b.order;
    assert a.items == b.items;
    assert a.currentSize == b.currentSize;
  }

  /** The eviction loop of `BaseCache.put` (TYP.py:58-61), with the victim
      tested against `None`: while the new item does not fit and items remain,
      remove the policy's victim. A state whose order structure names no
      resident key is left as it is. */
  function Evict(s: CacheState, size: int): (r: CacheState)
    ensures r.policy == s.policy && r.maxSize == s.maxSize && r.hits == s.hits && r.misses == s.misses
    ensures r.items.Keys <= s.items.Keys
    decreases |s.items|
  {
    if s.currentSize + size > s.maxSize && s.items != map[] then
      var v := Victim(s.policy, s.order, s.items);
      if v.0.Some? then
        assert (s.items - {v.0.value}).Keys < s.items.Keys;
        Evict(RemoveItem(s.(order := v.1), v.0.value), size)
      else s
    else
      s
  }

  /** On a valid state, one pass of the loop removes `FirstVictim` and keeps
      the invariant. */
  lemma EvictStep(s: CacheState, size: int)
    requires Valid(s) && s.currentSize + size > s.maxSize && s.items != map[]
    ensures |s.order| > 0 && FirstVictim(s) in s.items
    ensures Evict(s, size) == Evict(RemoveItem(s, FirstVictim(s)), size)
    ensures Valid(RemoveItem(s, FirstVictim(s)))
    ensures RemoveItem(s, FirstVictim(s)).items == s.items - {FirstVictim(s)}
  {
    VictimOfValid(s);
    RemoveItemValid(s, FirstVictim(s));
  }

  /** Eviction keeps the invariant. */
  lemma {:induction false} EvictValid(s: CacheState, size: int)
    requires Valid(s)
    ensures Valid(Evict(s, size))
    decreases |s.items|
  {
    if s.currentSize + size > s.maxSize && s.items != map[] {
      EvictStep(s, size);
      EvictValid(RemoveItem(s, FirstVictim(s)), size);
    }
  }

  /** Eviction only removes items: the survivors are unchanged. */
  lemma {:induction false} EvictKeeps(s: CacheState, size: int)
    ensures forall k :: k in Evict(s, size).items ==> Evict(s, size).items[k] == s.items[k]
    decreases |s.items|
  {
    if s.currentSize + size > s.maxSize && s.items != map[] {
      var v := Victim(s.policy, s.order, s.items);
      if v.0.Some? {
        var next := RemoveItem(s.(order := v.1), v.0.value);
        assert next.items == s.items - {v.0.value};
        EvictKeeps(next, size);
      }
    }
  }

  /** On a valid state, after eviction the new item fits, or the cache is
      empty. */
  lemma {:induction false} EvictFits(s: CacheState, size: int)
    requires Valid(s)
    ensures Evict(s, size).currentSize + size <= s.maxSize || Evict(s, size).items == map[]
    decreases |s.items|
  {
    if s.currentSize + size > s.maxSize && s.items != map[] {
      EvictStep(s, size);
      EvictFits(RemoveItem(s, FirstVictim(s)), size);
    }
  }

  /** With sizes that are not negative, eviction never raises `current_size`. */
  lemma {:induction false} EvictShrinks(s: CacheState, size: int)
    requires SizesNonNegative(s.items)
    ensures Evict(s, size).currentSize <= s.currentSize
    decreases |s.items|
  {
    if s.currentSize + size > s.maxSize && s.items != map[] {
      var v := Victim(s.policy, s.order, s.items);
      if v.0.Some? {
        var next := RemoveItem(s.(order := v.1), v.0.value);
        assert next.items == s.items - {v.0.value};
        assert SizesNonNegative(next.items);
        EvictShrinks(next, size);
      }
    }
  }

  /** On a valid state, the keys that survive eviction keep their relative
      order. */
  lemma {:induction false} EvictOrder(s: CacheState, size: int)
    requires Valid(s)
    ensures Evict(s, size).order == Filter(s.order, Evict(s, size).items.Keys)
    decreases |s.items|
  {
    if s.currentSize + size > s.maxSize && s.items != map[] {
      EvictStep(s, size);
      var v := FirstVictim(s);
      var next := RemoveItem(s, v);
      EvictOrder(next, size);
      EvictOneOrder(s, v, Evict(next, size).items.Keys);
    } else {
      FilterAll(s.order, s.items.Keys);
    }
  }

  /** Filtering after the removal of a resident key is filtering the order
      before it, for any set of keys that excludes that key. */
  lemma EvictOneOrder(s: CacheState, v: string, keys: set<string>)
    requires Valid(s) && v in s.items
    requires keys <= s.items.Keys - {v}
    ensures Filter(RemoveItem(s, v).order, keys) == Filter(s.order, keys)
  {
    var keep := s.items.Keys - {v};
    RemoveItemOrder(s, v);
    FilterFilter(s.order, keep, keys);
    assert keep * keys == keys;
  }

  /** Store the item, add its size, and record the put in the order structure
      (TYP.py:63-65). */
  function Insert(s: CacheState, key: string, value: Value, size: int): CacheState {
    s.(items := s.items[key := CacheItem(key, value, size)],
       currentSize := s.currentSize + size,
       order := MoveToEnd(s.order, key))
  }

  lemma InsertValid(s: CacheState, key: string, value: Value, size: int)
    requires Valid(s) && key !in s.items
    ensures Valid(Insert(s, key, value, size))
    ensures Insert(s, key, value, size).order == s.order + [key]
  {
    var m := s.items[key := CacheItem(key, value, size)];
    TotalSizeRemove(m, key);
    assert m - {key} == s.items;
    RemoveAbsent(s.order, key);
    NoDupAppend(s.order, key);
  }

  /** A key that is already resident is removed before the new item is stored
      (TYP.py:55-56). */
  function Forget(s: CacheState, key: string): CacheState {
    if key in s.items then RemoveItem(s, key) else s
  }

  lemma ForgetValid(s: CacheState, key: string)
    requires Valid(s)
    ensures Valid(Forget(s, key)) && key !in Forget(s, key).items
    ensures Forget(s, key).items == s.items - {key}
  {
    RemoveItemValid(s, key);
    if key !in s.items {
      assert s.items - {key} == s.items;
    }
  }

  /** `BaseCache.put` (TYP.py:47-65): an item larger than the whole cache is
      refused with a `ValueError`; otherwise the old entry for the key is
      forgotten, victims are evicted until the item fits, and it is stored. */
  function Put(s: CacheState, key: string, value: Value, size: int): (r: Result<CacheState>)
    ensures r.Err? <==> size > s.maxSize
    ensures r.Err? ==> r.error == ValueError
  {
    if size > s.maxSize then Err(ValueError)
    else Ok(Insert(Evict(Forget(s, key), size), key, value, size))
  }

  /** A successful `put` keeps the invariant. */
  lemma PutValid(s: CacheState, key: string, value: Value, size: int)
    requires Valid(s) && size <= s.maxSize
    ensures Put(s, key, value, size).Ok?
    ensures Valid(Put(s, key, value, size).value)
  {
    var s1 := Forget(s, key);
    ForgetValid(s, key);
    EvictValid(s1, size);
    InsertValid(Evict(s1, size), key, value, size);
  }

  /** A successful `put` stores the item under its key, keeps the cache within
      its budget, touches no other resident item, and may only have evicted. */
  lemma PutSpec(s: CacheState, key: string, value: Value, size: int)
    requires Valid(s) && size <= s.maxSize
    ensures Put(s, key, value, size).Ok?
    ensures var r := Put(s, key, value, size).value;
      && key in r.items && r.items[key] == CacheItem(key, value, size)
      && r.items.Keys <= s.items.Keys + {key}
      && r.(currentSize := s.currentSize, items := s.items, order := s.order) == s
    ensures Put(s, key, value, size).value.currentSize <= s.maxSize
    ensures forall k :: k in Put(s, key, value, size).value.items && k != key ==>
              k in s.items && Put(s, key, value, size).value.items[k] == s.items[k]
  {
    var s1 := Forget(s, key);
    ForgetValid(s, key);
    var s2 := Evict(s1, size);
    assert Put(s, key, value, size) == Ok(Insert(s2, key, value, size));
    PutBudget(s1, s2, size);
    PutKeeps(s, s1, key, size);
  }

  lemma PutBudget(s1: CacheState, s2: CacheState, size: int)
    requires Valid(s1) && size <= s1.maxSize && s2 == Evict(s1, size)
    ensures s2.currentSize + size <= s1.maxSize
  {
    EvictFits(s1, size);
    EvictValid(s1, size);
    if s2.items == map[] {
      assert s2.currentSize == 0;
    }
  }

  lemma PutKeeps(s: CacheState, s1: CacheState, key: string, size: int)
    requires s1 == Forget(s, key) && s1.items == s.items - {key}
    ensures forall k :: k in Evict(s1, size).items ==> k != key && k in s.items && Evict(s1, size).items[k] == s.items[k]
  {
    EvictKeeps(s1, size);
  }

  /** `BaseCache.get` (TYP.py:34-45): a hit counts and returns the value, a
      miss counts and returns `None`; the items are untouched. */
  function Get(s: CacheState, key: string): (r: (CacheState, Option<Value>))
    ensures r.1.Some? <==> key in s.items
    ensures key in s.items ==> r.1.value == s.items[key].value && r.0.hits == s.hits + 1 && r.0.misses == s.misses
    ensures key !in s.items ==> r.0.misses == s.misses + 1 && r.0.hits == s.hits
    ensures r.0.items == s.items && r.0.currentSize == s.currentSize
    ensures r.0.policy == s.policy && r.0.maxSize == s.maxSize
  {
    if key in s.items then
      (s.(hits := s.hits + 1, order := OnAccess(s.policy, s.order, key)), Some(s.items[key].value))
    else
      (s.(misses := s.misses + 1), None)
  }

  /** A `get` keeps the invariant. */
  lemma GetValid(s: CacheState, key: string)
    requires Valid(s)
    ensures Valid(Get(s, key).0)
  {
    MoveToEndNoDup(s.order, key);
  }

  // ---------------------------------------------------------------------
  // What the order structure means.

  /** A `get` reorders only an LRU cache, and only on a hit: the key moves to
      the most recent end and the other keys keep their relative order. LIFO
      and FIFO caches never reorder on access. */
  lemma GetOrder(s: CacheState, key: string)
    requires Valid(s)
    ensures s.policy == Lru && key in s.items ==>
      Get(s, key).0.order == Filter(s.order, s.items.Keys - {key}) + [key]
    ensures s.policy != Lru || key !in s.items ==> Get(s, key).0.order == s.order
  {
    RemoveIsFilter(s.order, key, s.items.Keys - {key});
  }

  /** After a successful `put`, the key is at the most recent end of the order
      structure, and the resident keys that survived keep their relative order,
      whatever the policy. */
  lemma PutOrder(s: CacheState, key: string, value: Value, size: int)
    requires Valid(s) && size <= s.maxSize
    ensures Put(s, key, value, size).Ok?
    ensures var t := Put(s, key, value, size).value;
            t.order == Filter(s.order, t.items.Keys - {key}) + [key]
  {
    var s1 := Forget(s, key);
    ForgetThenEvictOrder(s, key, size);
    var s2 := Evict(s1, size);
    EvictValid(s1, size);
    InsertValid(s2, key, value, size);
    var t := Insert(s2, key, value, size);
    assert Put(s, key, value, size) == Ok(t);
    assert t.items.Keys - {key} == s2.items.Keys;
  }

  /** Forgetting a key and then evicting keeps the surviving keys in their
      relative order. */
  lemma ForgetThenEvictOrder(s: CacheState, key: string, size: int)
    requires Valid(s)
    ensures Valid(Forget(s, key))
    ensures key !in Evict(Forget(s, key), size).items
    ensures Evict(Forget(s, key), size).order == Filter(s.order, Evict(Forget(s, key), size).items.Keys)
  {
    var s1 := Forget(s, key);
    ForgetValid(s, key);
    var keep := s.items.Keys - {key};
    assert s1.order == Filter(s.order, keep) by {
      if key in s.items {
        RemoveItemOrder(s, key);
      } else {
        FilterAll(s.order, s.items.Keys);
        assert keep == s.items.Keys;
      }
    }
    EvictOrder(s1, size);
    var s2 := Evict(s1, size);
    FilterFilter(s.order, keep, s2.items.Keys);
    assert keep * s2.items.Keys == s2.items.Keys;
  }

  /** Replacing a key never raises `current_size` by more than the difference
      between the new and the old size, as long as sizes are not negative. */
  lemma PutSizeDelta(s: CacheState, key: string, value: Value, size: int)
    requires Valid(s) && size <= s.maxSize
    requires SizesNonNegative(s.items)
    ensures Put(s, key, value, size).Ok?
    ensures Put(s, key, value, size).value.currentSize
              <= s.currentSize - (if key in s.items then s.items[key].size else 0) + size
  {
    var s1 := Forget(s, key);
    ForgetValid(s, key);
    assert SizesNonNegative(s1.items);
    EvictShrinks(s1, size);
  }

  /** An item that fits beside the resident ones is added without evicting
      anything. */
  lemma PutFits(s: CacheState, key: string, value: Value, size: int)
    requires Valid(s) && key !in s.items && size <= s.maxSize && s.currentSize + size <= s.maxSize
    ensures Put(s, key, value, size) == Ok(Insert(s, key, value, size))
    ensures Insert(s, key, value, size).order == s.order + [key]
  {
    InsertValid(s, key, value, size);
  }

  // ---------------------------------------------------------------------
  // The three policies on the same puts: keys a, b, c of size 1 into a
  // cache of size 3, then a fourth key d.

  /** When removing one victim makes room, `put` of a new key evicts exactly
      that victim and nothing else. */
  lemma PutEvictsOne(s: CacheState, key: string, value: Value, size: int)
    requires Valid(s) && key !in s.items && |s.order| > 0 && size <= s.maxSize
    requires s.currentSize + size > s.maxSize
    requires FirstVictim(s) in s.items
    requires s.currentSize - s.items[FirstVictim(s)].size + size <= s.maxSize
    ensures Put(s, key, value, size) == Ok(Insert(RemoveItem(s, FirstVictim(s)), key, value, size))
    ensures Put(s, key, value, size).value.items.Keys == s.items.Keys - {FirstVictim(s)} + {key}
  {
    var v := FirstVictim(s);
    EvictStep(s, size);
    var next := RemoveItem(s, v);
    assert next.currentSize + size <= next.maxSize;
    assert Evict(next, size) == next;
    assert Forget(s, key) == s;
  }

  /** The state after storing distinct keys a, b, c of size 1 in an empty
      cache of size 3. */
  function PutThree(policy: Policy, a: string, b: string, c: string, v: Value): (s: CacheState)
    requires a != b && b != c && a != c
    ensures Valid(s) && s.order == [a, b, c] && s.currentSize == 3
    ensures s.items.Keys == {a, b, c}
    ensures forall k :: k in s.items ==> s.items[k] == CacheItem(k, v, 1)
    ensures s.policy == policy && s.maxSize == 3 && s.hits == 0 && s.misses == 0
  {
    var s0 := Empty(policy, 3);
    EmptyValid(policy, 3);
    InsertValid(s0, a, v, 1);
    var s1 := Insert(s0, a, v, 1);
    assert s1.items.Keys == {a};
    InsertValid(s1, b, v, 1);
    var s2 := Insert(s1, b, v, 1);
    assert s2.items.Keys == {a, b};
    InsertValid(s2, c, v, 1);
    Insert(s2, c, v, 1)
  }

  /** That state is what three `put` calls leave: none of them evicts. */
  lemma PutThreeIsThreePuts(policy: Policy, a: string, b: string, c: string, v: Value)
    requires a != b && b != c && a != c
    ensures var s0 := Empty(policy, 3);
            Put(s0, a, v, 1).Ok? && Put(Put(s0, a, v, 1).value, b, v, 1).Ok?
            && Put(Put(Put(s0, a, v, 1).value, b, v, 1).value, c, v, 1) == Ok(PutThree(policy, a, b, c, v))
  {
    var s0 := Empty(policy, 3);
    EmptyValid(policy, 3);
    PutFits(s0, a, v, 1);
    var s1 := Insert(s0, a, v, 1);
    assert s1.items.Keys == {a};
    InsertValid(s0, a, v, 1);
    PutFits(s1, b, v, 1);
    var s2 := Insert(s1, b, v, 1);
    InsertValid(s1, b, v, 1);
    assert s2.items.Keys == {a, b};
    PutFits(s2, c, v, 1);
  }

  /** LIFO evicts c, the most recently put key. */
  lemma LifoEvictsNewest(a: string, b: string, c: string, d: string, v: Value)
    requires a != b && b != c && a != c && d !in {a, b, c}
    ensures Put(PutThree(Lifo, a, b, c, v), d, v, 1).Ok?
    ensures Put(PutThree(Lifo, a, b, c, v), d, v, 1).value.items.Keys == {a, b, d}
  {
    var s := PutThree(Lifo, a, b, c, v);
    assert FirstVictim(s) == c;
    assert {a, b, c} - {c} + {d} == {a, b, d};
    PutEvictsOne(s, d, v, 1);
  }

  /** FIFO evicts a, the least recently put key. */
  lemma FifoEvictsOldest(a: string, b: string, c: string, d: string, v: Value)
    requires a != b && b != c && a != c && d !in {a, b, c}
    ensures Put(PutThree(Fifo, a, b, c, v), d, v, 1).Ok?
    ensures Put(PutThree(Fifo, a, b, c, v), d, v, 1).value.items.Keys == {b, c, d}
  {
    var s := PutThree(Fifo, a, b, c, v);
    assert FirstVictim(s) == a;
    assert {a, b, c} - {a} + {d} == {b, c, d};
    PutEvictsOne(s, d, v, 1);
  }

  /** An LRU hit on the oldest key moves it behind the others. */
  lemma GetMovesToEnd(s: CacheState, key: string, rest: seq<string>)
    requires Valid(s) && s.policy == Lru && s.order == [key] + rest
    ensures Valid(Get(s, key).0)
    ensures Get(s, key).0 == s.(hits := s.hits + 1, order := rest + [key])
  {
    GetValid(s, key);
    RemoveHead(s.order);
    assert s.order[1..] == rest;
  }

  /** LRU, after a `get(a)`, evicts b, the least recently touched key. */
  lemma LruEvictsLeastRecentlyTouched(a: string, b: string, c: string, d: string, v: Value)
    requires a != b && b != c && a != c && d !in {a, b, c}
    ensures var s := Get(PutThree(Lru, a, b, c, v), a).0;
            Put(s, d, v, 1).Ok? && Put(s, d, v, 1).value.items.Keys == {a, c, d}
  {
    var s0 := PutThree(Lru, a, b, c, v);
    GetMovesToEnd(s0, a, [b, c]);
    LruPutAfterGet(s0, Get(s0, a).0, a, b, c, d, v);
  }

  lemma LruPutAfterGet(s0: CacheState, s: CacheState, a: string, b: string, c: string, d: string, v: Value)
    requires Valid(s) && s == s0.(hits := s0.hits + 1, order := [b, c] + [a])
    requires s0.policy == Lru && s0.maxSize == 3 && s0.currentSize == 3
    requires s0.items.Keys == {a, b, c} && s0.items[b].size == 1
    requires a != b && b != c && a != c && d !in {a, b, c}
    ensures Put(s, d, v, 1).Ok? && Put(s, d, v, 1).value.items.Keys == {a, c, d}
  {
    assert FirstVictim(s) == b;
    assert {a, b, c} - {b} + {d} == {a, c, d};
    PutEvictsOne(s, d, v, 1);
  }

  // ---------------------------------------------------------------------
  // The eviction loop as written tests the victim for truth, which the
  // empty key "" fails.

  /** One pass of the loop body at TYP.py:59-61 as written: the chosen victim
      is removed only when it is truthy, so a victim "" is popped from the
      order structure of a LIFO or FIFO cache but stays in `items`. */
  function AsWrittenEvictionPass(s: CacheState): CacheState {
    var r := Victim(s.policy, s.order, s.items);
    if r.0.Some? && r.0.value != "" then RemoveItem(s.(order := r.1), r.0.value)
    else s.(order := r.1)
  }

  /** The loop condition at TYP.py:58. */
  predicate EvictionLoopGuard(s: CacheState, size: int) {
    s.currentSize + size > s.maxSize && s.items != map[]
  }

  /** `LIFOCache(1)` holding the key "" of size 1, then `put("a", …, 1)`: after
      one pass the state is a fixed point of the loop body while the loop
      condition still holds, so the loop as written never ends. */
  lemma AsWrittenEvictionNeverEnds(v: Value)
    ensures Put(Empty(Lifo, 1), "", v, 1).Ok?
    ensures var s := Put(Empty(Lifo, 1), "", v, 1).value;
            var next := AsWrittenEvictionPass(s);
            EvictionLoopGuard(s, 1) && EvictionLoopGuard(next, 1) && AsWrittenEvictionPass(next) == next
  {
    EmptyValid(Lifo, 1);
    PutFits(Empty(Lifo, 1), "", v, 1);
  }

  /** With the victim tested against `None`, the same `put` evicts "" and
      stores "a". */
  lemma CorrectedEvictionRemovesEmptyKey(v: Value, w: Value)
    ensures Put(Empty(Lifo, 1), "", v, 1).Ok?
    ensures var s := Put(Empty(Lifo, 1), "", v, 1).value;
            Put(s, "a", w, 1).Ok? && Put(s, "a", w, 1).value.items.Keys == {"a"}
  {
    var s0 := Empty(Lifo, 1);
    EmptyValid(Lifo, 1);
    PutFits(s0, "", v, 1);
    InsertValid(s0, "", v, 1);
    var s := Insert(s0, "", v, 1);
    assert s.order == [""] && FirstVictim(s) == "" && s.items[""].size == 1;
    assert ((s.items - {""})["a" := CacheItem("a", w, 1)]).Keys == {"a"};
    PutEvictsOne(s, "a", w, 1);
  }
}
