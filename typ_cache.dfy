/** The classes `BaseCache`, `LIFOCache`, `FIFOCache` and `LRUCache` of TYP.py
    as one class whose `policy` names the subclass. Every method is proved to
    perform the corresponding transition of `CacheModel`, and to keep the
    invariant `CacheModel.Valid`. */
module TypCache {
  import opened Common
  import opened CacheModel

  class Cache {
    /** Which subclass this object is; fixed at construction. */
    const policy: Policy
    var maxSize: int
    var currentSize: int
    var hits: nat
    var misses: nat
    var items: map<string, CacheItem>
    /** `insertion_order` (LIFO, FIFO) or the keys of `access_order` (LRU). */
    var order: seq<string>

    /** The fields as a `CacheModel` state. */
    function State(): CacheState
      reads this
    {
      CacheState(policy, maxSize, currentSize, hits, misses, items, order)
    }

    ghost predicate Valid()
      reads this
    {
      CacheModel.Valid(State())
    }

    /** `LIFOCache(max_size)`, `FIFOCache(max_size)` or `LRUCache(max_size)`
        (TYP.py:27-32 with 99-101, 125-127 or 151-153). */
    constructor (policy: Policy, maxSize: int)
      ensures State() == Empty(policy, maxSize)
      ensures Valid()
    {
      this.policy := policy;
      this.maxSize := maxSize;
      currentSize := 0;
      hits := 0;
      misses := 0;
      items := map[];
      order := [];
      new;
      EmptyValid(policy, maxSize);
    }

    /** `_on_access` (TYP.py:108-109, 134-135, 160-163). */
    method OnAccess(key: string)
      modifies this
      ensures State() == old(State()).(order := CacheModel.OnAccess(policy, old(order), key))
    {
      if policy == Lru {
        order := Remove(order, key);
        order := order + [key];
      }
    }

    /** `BaseCache.get` (TYP.py:34-45). */
    method Get(key: string) returns (r: Option<Value>)
      requires Valid()
      modifies this
      ensures (State(), r) == CacheModel.Get(old(State()), key)
      ensures Valid()
    {
      GetValid(State(), key);
      if key in items {
        hits := hits + 1;
        OnAccess(key);
        r := Some(items[key].value);
      } else {
        misses := misses + 1;
        r := None;
      }
    }

    /** `_choose_eviction_victim` (TYP.py:103-106, 129-132, 155-158): skip
        the entries of keys that are no longer resident, then take (LIFO,
        FIFO) or name (LRU) the key at the policy's end. */
    method ChooseEvictionVictim() returns (victim: Option<string>)
      modifies this
      ensures (victim, order) == Victim(policy, old(order), items)
      ensures State() == old(State()).(order := order)
    {
      match policy
      case Lifo =>
        while |order| > 0 && order[|order| - 1] !in items
          invariant LifoVictim(order, items) == LifoVictim(old(order), items)
          invariant State() == old(State()).(order := order)
          decreases |order|
        {
          order := order[..|order| - 1];
        }
        if |order| > 0 {
          victim := Some(order[|order| - 1]);
          order := order[..|order| - 1];
        } else {
          victim := None;
        }
      case Fifo =>
        while |order| > 0 && order[0] !in items
          invariant FifoVictim(order, items) == FifoVictim(old(order), items)
          invariant State() == old(State()).(order := order)
          decreases |order|
        {
          order := order[1..];
        }
        if |order| > 0 {
          victim := Some(order[0]);
          order := order[1..];
        } else {
          victim := None;
        }
      case Lru =>
        while |order| > 0 && order[0] !in items
          invariant LruVictim(order, items) == LruVictim(old(order), items)
          invariant State() == old(State()).(order := order)
          decreases |order|
        {
          order := order[1..];
        }
        victim := if |order| > 0 then Some(order[0]) else None;
    }

    /** `_remove_item` of the subclasses (TYP.py:67-73 with 116-119, 142-145
        or 170-173). */
    method RemoveItem(key: string)
      modifies this
      ensures State() == CacheModel.RemoveItem(old(State()), key)
    {
      if key in items {
        currentSize := currentSize - items[key].size;
        items := items - {key};
      } else {
        assert items - {key} == items;
      }
      if key in order {
        order := Remove(order, key);
      } else {
        RemoveAbsent(order, key);
      }
    }

    /** `_on_put` (TYP.py:111-114, 137-140, 165-168). */
    method OnPut(key: string)
      modifies this
      ensures State() == old(State()).(order := MoveToEnd(old(order), key))
    {
      if key in order {
        order := Remove(order, key);
      } else {
        RemoveAbsent(order, key);
      }
      order := order + [key];
    }

    /** The eviction loop of `BaseCache.put` (TYP.py:58-61), with the victim
        tested against `None`. */
    method MakeRoom(size: int)
      requires Valid()
      modifies this
      ensures State() == Evict(old(State()), size)
    {
      while currentSize + size > maxSize && items != map[]
        invariant Valid()
        invariant Evict(State(), size) == Evict(old(State()), size)
        decreases |items|
      {
        ghost var before := State();
        EvictStep(before, size);
        VictimOfValid(before);
        var victim := ChooseEvictionVictim();
        RemoveItem(victim.value);
        assert State() == CacheModel.RemoveItem(before, FirstVictim(before));
      }
    }

    /** `BaseCache.put` (TYP.py:47-65), with the victim of the eviction loop
        tested against `None`. An item larger than the cache is refused with a
        `ValueError` and nothing changes. */
    method Put(key: string, value: Value, size: int) returns (r: Outcome)
      requires Valid()
      modifies this
      ensures CacheModel.Put(old(State()), key, value, size).Ok? ==>
                r == Pass && State() == CacheModel.Put(old(State()), key, value, size).value
      ensures CacheModel.Put(old(State()), key, value, size).Err? ==>
                r == Fail(ValueError) && State() == old(State())
      ensures Valid()
    {
      if size > maxSize {
        return Fail(ValueError);
      }
      ghost var s0 := State();
      PutValid(s0, key, value, size);
      ForgetValid(s0, key);
      if key in items {
        RemoveItem(key);
      }
      assert State() == Forget(s0, key);
      MakeRoom(size);
      items := items[key := CacheItem(key, value, size)];
      currentSize := currentSize + size;
      OnPut(key);
      r := Pass;
    }

    /** `BaseCache.get_hit_ratio` (TYP.py:75-81). */
    function GetHitRatio(): (r: real)
      reads this
      ensures 0.0 <= r <= 1.0
      ensures hits + misses > 0 ==> r * (hits + misses) as real == hits as real
      ensures hits + misses == 0 ==> r == 0.0
    {
      HitRatio(hits, misses)
    }
  }
}
