/** Python's insertion-ordered `dict` and `OrderedDict`, as used by
    detailedLRU.py and minLRU.py: the keys in insertion order beside the map
    from keys to values. */
module Dicts {
  import opened Common

  datatype Dict = Dict(order: seq<string>, values: map<string, Value>)

  /** The order lists exactly the keys of the map, each once. */
  ghost predicate Valid(d: Dict) {
    && NoDup(d.order)
    && (forall k :: k in d.order <==> k in d.values)
  }

  function Empty(): Dict {
    Dict([], map[])
  }

  /** The number of entries, `len(d)`. */
  function Len(d: Dict): nat {
    |d.order|
  }

  /** `d[key] = value`: a present key keeps its position and takes the new
      value; a new key goes at the end. */
  function Set(d: Dict, key: string, value: Value): Dict
  {
    if key in d.values then d.(values := d.values[key := value])
    else Dict(d.order + [key], d.values[key := value])
  }

  /** `del d[key]` for a present key, also `d.pop(key)` once the value has
      been read. */
  function Del(d: Dict, key: string): Dict
    requires key in d.values
  {
    Dict(Remove(d.order, key), d.values - {key})
  }

  /** Setting keeps the invariant, and adds one entry exactly when the key is
      new, at the end. */
  lemma SetValid(d: Dict, key: string, value: Value)
    requires Valid(d)
    ensures Valid(Set(d, key, value))
    ensures key in d.values ==> Set(d, key, value).order == d.order
    ensures key !in d.values ==> Set(d, key, value).order == d.order + [key]
  {
    if key !in d.values {
      NoDupAppend(d.order, key);
    }
  }

  /** Deleting keeps the invariant and removes one entry. */
  lemma DelValid(d: Dict, key: string)
    requires Valid(d) && key in d.values
    ensures Valid(Del(d, key))
    ensures Len(Del(d, key)) == Len(d) - 1
  {
    RemoveNoDup(d.order, key);
  }

  /** Deleting and setting again moves the key to the end with its new
      value, whatever its old position. */
  lemma ReinsertMovesToEnd(d: Dict, key: string, value: Value)
    requires Valid(d) && key in d.values
    ensures Valid(Set(Del(d, key), key, value))
    ensures Set(Del(d, key), key, value).order == Remove(d.order, key) + [key]
    ensures Set(Del(d, key), key, value).values == d.values[key := value]
    ensures Len(Set(Del(d, key), key, value)) == Len(d)
  {
    RemoveNoDup(d.order, key);
    NoDupAppend(Remove(d.order, key), key);
    assert (d.values - {key})[key := value] == d.values[key := value];
  }

  /** `popitem(last=False)` on a non-empty `OrderedDict`: the first key goes. */
  function PopFirst(d: Dict): (r: Dict)
    requires |d.order| > 0
  {
    Dict(d.order[1..], d.values - {d.order[0]})
  }

  /** `popitem()` on a non-empty `dict`: the last inserted key goes. */
  function PopLast(d: Dict): (r: Dict)
    requires |d.order| > 0
  {
    Dict(d.order[..|d.order| - 1], d.values - {d.order[|d.order| - 1]})
  }

  /** Popping the first entry keeps the invariant and removes exactly that
      key. */
  lemma PopFirstValid(d: Dict)
    requires Valid(d) && |d.order| > 0
    ensures Valid(PopFirst(d))
    ensures PopFirst(d).values.Keys == d.values.Keys - {d.order[0]}
    ensures Len(PopFirst(d)) == Len(d) - 1
  {
    var t := d.order[1..];
    forall k ensures k in t <==> k in d.values && k != d.order[0] {
      if k in t {
        assert k in d.order;
      }
      if k in d.order && k != d.order[0] {
        var m :| 0 <= m < |d.order| && d.order[m] == k;
        assert t[m - 1] == k;
      }
    }
  }

  /** Popping the last entry keeps the invariant and removes exactly that
      key. */
  lemma PopLastValid(d: Dict)
    requires Valid(d) && |d.order| > 0
    ensures Valid(PopLast(d))
    ensures PopLast(d).values.Keys == d.values.Keys - {d.order[|d.order| - 1]}
    ensures Len(PopLast(d)) == Len(d) - 1
  {
    var n := |d.order|;
    var t := d.order[..n - 1];
    RemoveLast(d.order);
    RemoveNoDup(d.order, d.order[n - 1]);
  }
}
