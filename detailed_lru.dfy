/** detailedLRU.py: an `OrderedDict` kept in recency order. `get` moves a hit
    to the end and answers a miss with -1; `put` evicts the front entry
    whenever the dict is full, before it looks at the key. */
module DetailedLru {
  import opened Common
  import opened Dicts

  /** The dict and the answer of `get(key)` (detailedLRU.py:8-16). */
  function GetDict(d: Dict, key: string): (Dict, Value) {
    if key in d.values then (Set(Del(d, key), key, d.values[key]), d.values[key])
    else (d, Int(-1))
  }

  /** The outcome and the dict after `put(key, value)` (detailedLRU.py:18-23).
      `popitem(last=False)` on an empty dict raises `KeyError`, which happens
      at the first put when the capacity is zero or negative. */
  function PutDict(d: Dict, key: string, value: Value, capacity: int): (Outcome, Dict) {
    if Len(d) >= capacity then
      if Len(d) == 0 then (Fail(KeyError), d)
      else (Pass, Set(PopFirst(d), key, value))
    else (Pass, Set(d, key, value))
  }

  class LruCache {
    var capacity: int
    /** The keys of `self.cache` in their order. */
    var order: seq<string>
    var values: map<string, Value>

    function State(): Dict
      reads this
    {
      Dict(order, values)
    }

    ghost predicate Valid()
      reads this
    {
      Dicts.Valid(State())
    }

    /** `LRUCache(capacity)` (detailedLRU.py:4-6). */
    constructor (capacity: int)
      ensures this.capacity == capacity && State() == Empty() && Valid()
    {
      this.capacity := capacity;
      order := [];
      values := map[];
    }

    /** `get` (detailedLRU.py:8-16). */
    method Get(key: string) returns (r: Value)
      requires Valid()
      modifies this
      ensures (State(), r) == GetDict(old(State()), key)
      ensures capacity == old(capacity) && Valid()
    {
      if key in values {
        ReinsertMovesToEnd(State(), key, values[key]);
        var value := values[key];
        order := Remove(order, key);
        values := values - {key};
        order := order + [key];
        values := values[key := value];
        return value;
      } else {
        return Int(-1);
      }
    }

    /** `put` (detailedLRU.py:18-23). */
    method Put(key: string, value: Value) returns (r: Outcome)
      requires Valid()
      modifies this
      ensures (r, State()) == PutDict(old(State()), key, value, capacity)
      ensures capacity == old(capacity) && Valid()
    {
      if |order| >= capacity {
        if |order| == 0 {
          return Fail(KeyError);
        }
        PopFirstValid(State());
        values := values - {order[0]};
        order := order[1..];
      }
      SetValid(State(), key, value);
      if key in values {
        values := values[key := value];
      } else {
        order := order + [key];
        values := values[key := value];
      }
      return Pass;
    }

    /** `size` (detailedLRU.py:25-26). */
    function Size(): (n: nat)
      reads this
      ensures n == |order|
    {
      |order|
    }
  }

  /** Get keeps the invariant; a hit moves the key to the end and answers its
      value, a miss answers -1 and changes nothing. */
  lemma GetMovesToEnd(d: Dict, key: string)
    requires Valid(d)
    ensures Valid(GetDict(d, key).0)
    ensures key in d.values ==>
              GetDict(d, key) == (Dict(Remove(d.order, key) + [key], d.values), d.values[key])
    ensures key !in d.values ==> GetDict(d, key) == (d, Int(-1))
  {
    if key in d.values {
      ReinsertMovesToEnd(d, key, d.values[key]);
      assert d.values[key := d.values[key]] == d.values;
    }
  }

  /** Put keeps the invariant, stores the value, and with a positive capacity
      keeps the dict within it. */
  lemma PutKeepsInvariant(d: Dict, key: string, value: Value, capacity: int)
    requires Valid(d)
    ensures Valid(PutDict(d, key, value, capacity).1)
    ensures PutDict(d, key, value, capacity).0 == Pass <==> Len(d) > 0 || capacity > 0
    ensures PutDict(d, key, value, capacity).0 == Pass ==> PutDict(d, key, value, capacity).1.values[key] == value
    ensures capacity >= 1 && Len(d) <= capacity ==> Len(PutDict(d, key, value, capacity).1) <= capacity
  {
    if Len(d) >= capacity && Len(d) > 0 {
      PopFirstValid(d);
      SetValid(PopFirst(d), key, value);
    } else if Len(d) < capacity {
      SetValid(d, key, value);
    }
  }

  /** With the dict full, putting a resident key other than the front one
      still evicts the front key and then updates the key in place: the dict
      ends one entry shorter than the capacity. */
  lemma FullRePutEvictsFront(d: Dict, key: string, value: Value, capacity: int)
    requires Valid(d) && Len(d) == capacity && capacity > 0
    requires key in d.values && key != d.order[0]
    ensures PutDict(d, key, value, capacity).0 == Pass
    ensures PutDict(d, key, value, capacity).1.order == d.order[1..]
    ensures PutDict(d, key, value, capacity).1.values == (d.values - {d.order[0]})[key := value]
    ensures Len(PutDict(d, key, value, capacity).1) == capacity - 1
  {
    PopFirstValid(d);
    assert key in PopFirst(d).values;
  }

  /** With the dict full, putting a new key evicts the least recently used
      key, at the front, and appends the new one. */
  lemma FullPutNewKeyEvictsFront(d: Dict, key: string, value: Value, capacity: int)
    requires Valid(d) && Len(d) == capacity && capacity > 0 && key !in d.values
    ensures PutDict(d, key, value, capacity).0 == Pass
    ensures PutDict(d, key, value, capacity).1.order == d.order[1..] + [key]
    ensures PutDict(d, key, value, capacity).1.values.Keys == d.values.Keys - {d.order[0]} + {key}
    ensures Len(PutDict(d, key, value, capacity).1) == capacity
  {
    PopFirstValid(d);
    SetValid(PopFirst(d), key, value);
  }

  /** With room left, putting a resident key keeps its position. */
  lemma RePutKeepsPosition(d: Dict, key: string, value: Value, capacity: int)
    requires Valid(d) && Len(d) < capacity && key in d.values
    ensures PutDict(d, key, value, capacity) == (Pass, Dict(d.order, d.values[key := value]))
  {
  }
}
