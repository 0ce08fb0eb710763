/** minLRU.py: a plain insertion-ordered dict, most recently used last. `get`
    moves a hit to the end; `put` moves a resident key to the end, and for a
    new key in a full dict `popitem()` drops the LAST entry, the most recently
    used one, before the new key is added. */
module MinLru {
  import opened Common
  import opened Dicts

  /** The capacity `LRUCache()` takes when none is given (minLRU.py:2). */
  const DefaultCapacity: int := 10

  /** The dict and the answer of `get(key)` (minLRU.py:6-13). */
  function GetDict(d: Dict, key: string): (Dict, Option<Value>) {
    if key !in d.values then (d, None)
    else (Set(Del(d, key), key, d.values[key]), Some(d.values[key]))
  }

  /** The outcome and the dict after `put(key, value)` (minLRU.py:15-20).
      `popitem()` on an empty dict raises `KeyError`, which happens at the
      first put of a new key when the capacity is zero or negative. */
  function PutDict(d: Dict, key: string, value: Value, capacity: int): (Outcome, Dict) {
    if key in d.values then (Pass, Set(Del(d, key), key, value))
    else if Len(d) >= capacity then
      if Len(d) == 0 then (Fail(KeyError), d)
      else (Pass, Set(PopLast(d), key, value))
    else (Pass, Set(d, key, value))
  }

  class LruCache {
    var capacity: int
    /** The keys of `self.cache` in insertion order. */
    var order: seq<string>
    var values: map<string, Value>

    function State(): Dict
      reads this
    {
      Dict(order, values)
    }

    ghost predicate Valid()
      reads this
    {
      Dicts.Valid(State())
    }

    /** `LRUCache(capacity)` (minLRU.py:2-4). */
    constructor (capacity: int)
      ensures this.capacity == capacity && State() == Empty() && Valid()
    {
      this.capacity := capacity;
      order := [];
      values := map[];
    }

    /** `LRUCache()`, with the default capacity (minLRU.py:2-4). */
    constructor Default()
      ensures capacity == DefaultCapacity && capacity == 10
      ensures State() == Empty() && Valid()
    {
      capacity := DefaultCapacity;
      order := [];
      values := map[];
    }

    /** `get` (minLRU.py:6-13). */
    method Get(key: string) returns (r: Option<Value>)
      requires Valid()
      modifies this
      ensures (State(), r) == GetDict(old(State()), key)
      ensures capacity == old(capacity) && Valid()
    {
      if key !in values {
        return None;
      }
      ReinsertMovesToEnd(State(), key, values[key]);
      var value := values[key];
      order := Remove(order, key);
      values := values - {key};
      order := order + [key];
      values := values[key := value];
      return Some(value);
    }

    /** `put` (minLRU.py:15-20). */
    method Put(key: string, value: Value) returns (r: Outcome)
      requires Valid()
      modifies this
      ensures (r, State()) == PutDict(old(State()), key, value, capacity)
      ensures capacity == old(capacity) && Valid()
    {
      if key in values {
        DelValid(State(), key);
        order := Remove(order, key);
        values := values - {key};
      } else if |order| >= capacity {
        if |order| == 0 {
          return Fail(KeyError);
        }
        PopLastValid(State());
        values := values - {order[|order| - 1]};
        order := order[..|order| - 1];
      }
      SetValid(State(), key, value);
      order := order + [key];
      values := values[key := value];
      return Pass;
    }
  }

  /** Get keeps the invariant; a hit moves the key to the end, a miss answers
      `None` and changes nothing. */
  lemma GetMovesToEnd(d: Dict, key: string)
    requires Valid(d)
    ensures Valid(GetDict(d, key).0)
    ensures key in d.values ==>
              GetDict(d, key) == (Dict(Remove(d.order, key) + [key], d.values), Some(d.values[key]))
    ensures key !in d.values ==> GetDict(d, key) == (d, None)
  {
    if key in d.values {
      ReinsertMovesToEnd(d, key, d.values[key]);
      assert d.values[key := d.values[key]] == d.values;
    }
  }

  /** Put keeps the invariant and puts the key last with its new value; with
      a positive capacity the dict stays within it. */
  lemma PutKeepsInvariant(d: Dict, key: string, value: Value, capacity: int)
    requires Valid(d)
    ensures Valid(PutDict(d, key, value, capacity).1)
    ensures PutDict(d, key, value, capacity).0 == Pass <==> key in d.values || Len(d) > 0 || capacity > 0
    ensures PutDict(d, key, value, capacity).0 == Pass ==>
              && PutDict(d, key, value, capacity).1.values[key] == value
              && PutDict(d, key, value, capacity).1.order[Len(PutDict(d, key, value, capacity).1) - 1] == key
    ensures capacity >= 1 && Len(d) <= capacity ==> Len(PutDict(d, key, value, capacity).1) <= capacity
  {
    if key in d.values {
      ReinsertMovesToEnd(d, key, value);
    } else if Len(d) >= capacity && Len(d) > 0 {
      PopLastValid(d);
      SetValid(PopLast(d), key, value);
    } else if Len(d) < capacity {
      SetValid(d, key, value);
    }
  }

  /** A new key put into a full dict evicts the most recently used key, the
      last one, not the least recently used. */
  lemma FullPutEvictsNewest(d: Dict, key: string, value: Value, capacity: int)
    requires Valid(d) && Len(d) == capacity && capacity > 0 && key !in d.values
    ensures PutDict(d, key, value, capacity).0 == Pass
    ensures PutDict(d, key, value, capacity).1.order == d.order[..|d.order| - 1] + [key]
    ensures PutDict(d, key, value, capacity).1.values.Keys == d.values.Keys - {d.order[|d.order| - 1]} + {key}
    ensures Len(PutDict(d, key, value, capacity).1) == capacity
  {
    PopLastValid(d);
    SetValid(PopLast(d), key, value);
  }

  /** Putting a resident key moves it to the end and keeps the size, full or
      not. */
  lemma RePutMovesToEnd(d: Dict, key: string, value: Value, capacity: int)
    requires Valid(d) && key in d.values
    ensures PutDict(d, key, value, capacity) == (Pass, Dict(Remove(d.order, key) + [key], d.values[key := value]))
    ensures Len(PutDict(d, key, value, capacity).1) == Len(d)
  {
    ReinsertMovesToEnd(d, key, value);
  }
}
