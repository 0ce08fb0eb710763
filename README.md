# Cache eviction policies and their measuring harness

This project models a small Python study of cache eviction policies.

- **TYP.py** holds a size-budgeted `BaseCache` with three subclasses:
  - `LIFOCache` evicts the most recently put item;
  - `FIFOCache` evicts the least recently put item;
  - `LRUCache` evicts the least recently touched item.

  Each item has a size. `put` refuses an item larger than the whole cache. It then evicts items in a loop until the new one fits. The subclasses keep an order structure, a list or an `OrderedDict`, beside the `items` dict.
- **Six small caches** are bounded by a count of entries rather than by sizes: `detailedLIFO.py`, `detailedFIFO.py`, `detailedLRU.py`, `minLIFO.py`, `minFIFO.py` and `minLRU.py`.
- **wrapper.py** holds six adapters. They put the small caches behind the `BaseCache` interface and count hits and misses.
- **The harness** in TYP.py:
  - `test_cache_performance` replays an access sequence: a `get` for each access, and a `put` after every miss;
  - `multiple_run_test` averages the hit ratios of several runs;
  - three generators build the access sequences: cyclic, random and locality.

## How the model is organised

Every class that the source updates in place is a Dafny `class` holding the same state. Some fields are merged or split. `TypCache.Cache` keeps `insertion_order` and `access_order` as one `order`. The two LRU caches split their OrderedDict into `order` and `values`. The wrappers name their inner cache `inner`. Each method is proved against a pure transition function on a state value.

| module | models |
|---|---|
| `Common` | `None` as `Option`; the Python exceptions as `Error`, with `Outcome` and `Result`; the stored payloads as `Value`; the list scans the caches perform |
| `Dicts` | an insertion-ordered `dict` or `OrderedDict`: a sequence of distinct keys beside a map |
| `CacheModel` | the state and transitions of `BaseCache` and its three subclasses |
| `TypCache` | the classes themselves, as one class `Cache` whose `policy` names the subclass |
| `Sequences` | the three generators |
| `DetailedLifo`, `DetailedFifo`, `DetailedLru`, `MinLifo`, `MinFifo`, `MinLru` | the six small caches |
| `Wrapper` | the six adapters |
| `Harness` | `test_cache_performance` (`TestCachePerformance`) and `multiple_run_test` (`MultipleRunTest`) |

In `Harness`, a `Machine` is the abstract state of any of the nine classes the harness can drive. `Replay` is the specification of the replay loop.

### Exceptions

A Python exception is an error result, not a precondition. Each case below is modelled as the branch that raises:

- an item larger than the cache raises `ValueError` (TYP.py:52-53);
- `pop` from an empty list raises `IndexError` (minLIFO.py with capacity 0 or less);
- `popleft` from an empty deque raises `IndexError` (detailedFIFO.py with capacity 0);
- `del` of a key the dict no longer holds raises `KeyError` (detailedFIFO.py, when a deque entry left by a re-put is popped after its key was evicted);
- `popitem` on an empty dict raises `KeyError` (both LRU files with capacity 0 or less);
- `statistics.mean` of no runs raises `StatisticsError`.

An exception raised by a `put` ends the replay. It also ends `multiple_run_test`.

### Behaviour modelled as written

Several of the small caches behave in ways their names do not suggest. The model keeps that behaviour and proves it:

- `detailedLIFO` drops the pair it has just appended when the list is full. A full cache therefore refuses new keys and never evicts a resident one.
- `minLRU` evicts the most recently inserted entry through `popitem()`.
- `detailedLRU` evicts the front entry before it checks whether the key is already present.
- `detailedFIFO` appends a second deque entry when a key is put again. A later eviction can then raise `KeyError`: when it pops a stale entry whose key has already left the dict. With capacity 2, the puts a, a, b, c raise it at the fourth put. Repeated puts of one key alone never raise it.
- `minLIFO` never de-duplicates keys. A newer pair shadows an older one for `get`.
- `DetailedLRUWrapper` reports a stored value `-1` as a miss.

## Model

| member | source | states |
|---|---|---|
| Common.ScanFirst | detailedLIFO.py:10-14 | the `get` scan answers the value of the first pair with the key, or `None` when no pair has it (also minFIFO.py:6-10) |
| Common.ScanLast | minLIFO.py:6-10 | the scan over `reversed(queue)` answers the value of the last pair with the key, or `None` |
| Common.DeleteFirst | detailedLIFO.py:18-22 | the delete-and-break loop removes exactly the first pair with the key and leaves a list without one unchanged (also minFIFO.py:13-16) |
| Common.RemoveNoDup | TYP.py:112-113 | on a duplicate-free list, the guarded `remove` drops exactly that key, keeps the list duplicate-free, and shortens it by one exactly when the key was there |
| Common.WithoutKeyDistinct | detailedLIFO.py:18-22 | with distinct keys, after the delete no pair has the key, the keys stay distinct, and the length drops by one exactly when the key was present |
| Common.WithoutKeyLookup | minFIFO.py:13-16 | deleting the pair for one key leaves the lookup of every other key as it was |
| Dicts.SetValid | detailedLRU.py:23 | `d[key] = value` keeps keys and order in lockstep; a present key keeps its position, a new key goes at the end |
| Dicts.DelValid | minLRU.py:17 | `del d[key]` keeps the invariant and removes one entry |
| Dicts.ReinsertMovesToEnd | minLRU.py:10-12 | deleting a key and assigning it again moves it to the end with the new value and keeps the size |
| Dicts.PopFirstValid | detailedLRU.py:21 | `popitem(last=False)` removes exactly the first key and keeps the invariant |
| Dicts.PopLastValid | minLRU.py:19 | `popitem()` removes exactly the last inserted key and keeps the invariant |
| CacheModel.EmptyValid | TYP.py:27-32 | a new cache satisfies the invariant: `current_size` is the sum of the resident sizes, and the order holds exactly the resident keys, once each |
| CacheModel.HitRatio | TYP.py:75-81 | the ratio lies in [0, 1], is 0 with no lookups, and otherwise times the lookups equals the hits |
| CacheModel.MoveToEndNoDup | TYP.py:111-114 | delete-then-append keeps the order duplicate-free; afterwards the order holds the old keys plus the put key |
| CacheModel.LifoVictim | TYP.py:103-106 | a victim that the LIFO choice names is a resident key; the order left behind is the prefix before the victim, and only non-resident entries followed it; with no victim, no resident key was in the order and it ends empty |
| CacheModel.FifoVictim | TYP.py:129-132 | a victim that the FIFO choice names is a resident key; the order left behind is the suffix after the victim, and only non-resident entries preceded it; with no victim, no resident key was in the order and it ends empty |
| CacheModel.LruVictim | TYP.py:155-158 | a victim that the LRU choice names is a resident key; only the leading non-resident entries are dropped, and the victim stays at the front of the order; with no victim, no resident key was in the order and it ends empty |
| CacheModel.RemoveItemValid | TYP.py:67-73 | `_remove_item` keeps the invariant and takes off `current_size` exactly the size of a resident key, nothing for an absent one |
| CacheModel.RemoveItemOrder | TYP.py:116-119 | removing a key keeps the other keys in their relative order |
| CacheModel.VictimOfValid | TYP.py:58-61 | on a valid state with items, the policy's choice skips nothing and names the last key (LIFO) or the first key (FIFO, LRU); removing it then equals removing it outright |
| CacheModel.LifoVictimOfValid | TYP.py:103-106 | on a valid state, the LIFO choice pops and returns the last key |
| CacheModel.FifoVictimOfValid | TYP.py:129-132 | on a valid state, the FIFO choice pops and returns the first key |
| CacheModel.Evict | TYP.py:58-61 | the eviction loop only removes items and changes neither the counters nor the size limit; it terminates by the size of `items` |
| CacheModel.EvictStep | TYP.py:58-61 | one pass on a valid state removes the policy's first victim and keeps the invariant |
| CacheModel.EvictValid | TYP.py:58-61 | eviction keeps the invariant |
| CacheModel.EvictKeeps | TYP.py:58-61 | the items that survive eviction are unchanged |
| CacheModel.EvictFits | TYP.py:58-61 | after eviction from a valid state, the new item fits or the cache is empty |
| CacheModel.EvictShrinks | TYP.py:58-61 | when no size is negative, eviction never raises `current_size` |
| CacheModel.EvictOrder | TYP.py:58-61 | the keys that survive eviction keep their relative order |
| CacheModel.EvictOneOrder | TYP.py:116-119 | removing one resident key does not change the order of any set of other keys |
| CacheModel.InsertValid | TYP.py:63-65 | storing a key that is not resident keeps the invariant and appends the key to the order |
| CacheModel.ForgetValid | TYP.py:55-56 | a re-put first removes the old entry: the key is then absent and the invariant holds |
| CacheModel.Put | TYP.py:47-65 | `put` raises exactly when the size exceeds `max_size`, and the error is `ValueError` |
| CacheModel.PutValid | TYP.py:47-65 | a `put` that fits keeps the invariant |
| CacheModel.PutSpec | TYP.py:47-65 | a `put` that fits stores exactly the new item under its key and keeps `current_size <= max_size`; other resident items are unchanged or evicted, never added; counters, policy and limit are untouched |
| CacheModel.PutBudget | TYP.py:58-64 | after eviction the new item fits within `max_size` |
| CacheModel.PutKeeps | TYP.py:55-61 | the items kept through forget and eviction are old items, other than the put key, with their old contents |
| CacheModel.Get | TYP.py:34-45 | a hit answers the stored value and counts a hit; a miss answers `None` and counts a miss; `items` and `current_size` never change |
| CacheModel.GetValid | TYP.py:34-45 | `get` keeps the invariant |
| CacheModel.GetOrder | TYP.py:160-163 | only an LRU hit reorders: the key moves to the end and the others keep their order; LIFO and FIFO never reorder on access |
| CacheModel.PutOrder | TYP.py:55-65 | after a `put` the key is last in the order and the surviving keys keep their relative order, for every policy |
| CacheModel.ForgetThenEvictOrder | TYP.py:55-61 | removing the put key and then evicting keeps the survivors in their relative order |
| CacheModel.PutSizeDelta | TYP.py:52-64 | when no size is negative, `put` raises `current_size` by at most the new size minus the old size of the key |
| CacheModel.PutFits | TYP.py:58-65 | a new item that fits beside the resident ones is added without evicting, at the end of the order |
| CacheModel.PutEvictsOne | TYP.py:58-65 | when one victim makes room, `put` of a new key evicts exactly the policy's first victim |
| CacheModel.PutThree | TYP.py:63-65 | storing distinct keys a, b, c of size 1 in an empty cache of size 3 gives a valid state with order [a, b, c] |
| CacheModel.PutThreeIsThreePuts | TYP.py:47-65 | that state is what three `put` calls leave |
| CacheModel.LifoEvictsNewest | TYP.py:103-106 | after puts a, b, c, a fourth key evicts c under LIFO |
| CacheModel.FifoEvictsOldest | TYP.py:129-132 | after puts a, b, c, a fourth key evicts a under FIFO |
| CacheModel.GetMovesToEnd | TYP.py:160-163 | an LRU hit on the front key moves it behind the others and counts one hit |
| CacheModel.LruEvictsLeastRecentlyTouched | TYP.py:155-168 | after puts a, b, c and `get(a)`, a fourth key evicts b under LRU |
| CacheModel.LruPutAfterGet | TYP.py:155-158 | with order [b, c, a], a fourth key evicts b |
| CacheModel.AsWrittenEvictionNeverEnds | TYP.py:58-61 | with the victim tested for truth, a LIFO cache of size 1 holding "" reaches a fixed point of the loop body while the loop condition still holds |
| CacheModel.CorrectedEvictionRemovesEmptyKey | TYP.py:58-61 | with the victim tested against `None`, the same `put` evicts "" and stores the new key |
| TypCache.Cache.constructor | TYP.py:27-32 | a new cache of each subclass is the empty state and satisfies the invariant |
| TypCache.Cache.OnAccess | TYP.py:160-163 | `_on_access` reorders only an LRU cache, moving the key to the end (no-op at TYP.py:108-109 and 134-135) |
| TypCache.Cache.Get | TYP.py:34-45 | the method performs `CacheModel.Get` and keeps the invariant |
| TypCache.Cache.ChooseEvictionVictim | TYP.py:103-158 | the skip loops and the final pop (LIFO, FIFO) or peek (LRU) give the victim and order of `CacheModel.Victim`; nothing else changes |
| TypCache.Cache.RemoveItem | TYP.py:67-73 | the method performs `CacheModel.RemoveItem`, the subclass override included |
| TypCache.Cache.OnPut | TYP.py:111-114 | `_on_put` moves the key to the end of the order (also TYP.py:137-140, 165-168) |
| TypCache.Cache.MakeRoom | TYP.py:58-61 | the eviction loop performs `CacheModel.Evict`, with `len(items)` as its measure |
| TypCache.Cache.Put | TYP.py:47-65 | an oversize item raises `ValueError` and changes nothing; otherwise the method performs `CacheModel.Put`; the invariant holds afterwards |
| TypCache.Cache.GetHitRatio | TYP.py:75-81 | `hits/(hits+misses)`, 0 with no lookups, in [0, 1] |
| Sequences.NatToString | TYP.py:195-196 | the decimal text is non-empty and ends with the last digit |
| Sequences.NatToStringInjective | TYP.py:195-196 | different numbers print differently |
| Sequences.ItemKeyInjective | TYP.py:195-196 | `item_i` and `item_j` are the same key exactly when i = j |
| Sequences.FirstPasses | TYP.py:194-196 | the first loop produces `(item_i, value_i, item_size)` for every i below `n_items` |
| Sequences.CreateCyclicSequence | TYP.py:188-201 | `max(n_items, cycle_length)` entries; the first `n_items` are the first pass; entry i after them is `(item_{i mod n}, value_i, item_size)` |
| Sequences.CyclicDocExample | TYP.py:190-191 | three items and nine entries give the keys A, B, C, A, B, C, A, B, C |
| Sequences.CreateRandomSequence | TYP.py:203-215 | `max(n_items, sequence_length)` entries; the first pass, then the drawn key with `value_i` and `item_size`; every key is one of the `n_items` keys |
| Sequences.WindowKeys | TYP.py:231 | one key per sampled index |
| Sequences.Anchor | TYP.py:229-231 | the position at which the window in force was drawn is `n_items` or a multiple of `locality_window`, at or before the position |
| Sequences.AnchorIsLatest | TYP.py:229-231 | no window is drawn between the anchor and the position |
| Sequences.AnchorAtMultiple | TYP.py:229 | a new window is drawn at every multiple of `locality_window` |
| Sequences.AnchorStable | TYP.py:229-233 | between multiples of `locality_window` the window stays the same |
| Sequences.LocalityTailExtend | TYP.py:233-234 | appending the pick for the next position extends a valid locality tail |
| Sequences.CreateLocalitySequence | TYP.py:217-235 | `max(n_items, sequence_length)` entries; the first pass, then at each position the pick from the window drawn at its anchor, with `value_i` and `item_size` |
| Sequences.LocalityStep | TYP.py:228-234 | the anchor moves exactly when the window is redrawn, and the key is the pick from the anchor's window |
| Sequences.WindowDistinct | TYP.py:230-231 | each window names `min(n_items, 3)` distinct item keys |
| Sequences.WindowKeysNoDup | TYP.py:231 | distinct sampled indices give distinct keys |
| DetailedLifo.LifoCache.constructor | detailedLIFO.py:2-8 | a negative `max_size` is clamped to 0, and the cache starts empty |
| DetailedLifo.LifoCache.Get | detailedLIFO.py:10-14 | the value of the first pair with the key, or `None`, without change |
| DetailedLifo.LifoCache.Put | detailedLIFO.py:16-29 | the list becomes `PutPairs`: the old pair is deleted, the new one appended, and the last pair popped on overflow |
| DetailedLifo.LifoCache.Size | detailedLIFO.py:31-32 | the number of pairs |
| DetailedLifo.PutKeepsInvariant | detailedLIFO.py:17-29 | keys stay distinct and the length stays within `max_size` |
| DetailedLifo.PutLeavesOtherKeys | detailedLIFO.py:16-29 | every other key looks up as before, so nothing resident is ever evicted |
| DetailedLifo.PutStoresIffRoom | detailedLIFO.py:25-29 | the key holds the new value exactly when the list without its old pair has room; otherwise the key is absent |
| DetailedLifo.FullCacheRefusesNewKey | detailedLIFO.py:25-29 | a new key put into a full list leaves it unchanged |
| DetailedLifo.RePutMovesToEnd | detailedLIFO.py:18-25 | re-putting a resident key moves its pair to the end with the new value; the length is unchanged |
| DetailedFifo.FifoCache.constructor | detailedFIFO.py:6-9 | an empty dict and deque with the given capacity |
| DetailedFifo.FifoCache.Put | detailedFIFO.py:11-17 | the outcome and state of `PutState`: with the deque at capacity, pop the oldest key from the deque and the dict (`IndexError` if empty, `KeyError` if it has left the dict), then store and append |
| DetailedFifo.FifoCache.Get | detailedFIFO.py:19-21 | the dict value exactly when the key is present, otherwise `None` |
| DetailedFifo.FifoCache.Size | detailedFIFO.py:23-25 | the length of the deque |
| DetailedFifo.EmptyValid | detailedFIFO.py:6-9 | the empty cache satisfies the invariant for a capacity that is not negative |
| DetailedFifo.PopLeft | detailedFIFO.py:14 | `popleft` on a duplicate-free deque removes exactly the oldest key |
| DetailedFifo.PutNewKey | detailedFIFO.py:11-17 | for new keys and a positive capacity, `put` succeeds, keeps the deque equal to the dict's keys in arrival order without duplicates and within capacity, and on a full cache evicts exactly the oldest key |
| DetailedFifo.RePutDuplicatesKey | detailedFIFO.py:16-17 | re-putting a present key with room appends a second deque entry; the deque is no longer duplicate-free while the dict keeps its keys |
| DetailedFifo.DuplicateEntryRaisesKeyError | detailedFIFO.py:13-17 | with capacity 2, the puts a, a, b, c raise `KeyError` at the fourth |
| DetailedFifo.SameKeyPutsPass | detailedFIFO.py:11-17 | with a positive capacity, repeated puts of a single key never raise: the deque names only that key, the dict holds it with the new value, and the length bound is kept |
| DetailedFifo.ZeroCapacityRaisesIndexError | detailedFIFO.py:13-14 | with capacity 0 the first `put` raises `IndexError` and changes nothing |
| DetailedLru.LruCache.constructor | detailedLRU.py:4-6 | an empty ordered dict with the given capacity |
| DetailedLru.LruCache.Get | detailedLRU.py:8-16 | the dict and answer of `GetDict`; the invariant holds |
| DetailedLru.LruCache.Put | detailedLRU.py:18-23 | the outcome and dict of `PutDict`: the front entry is popped whenever the dict is full, then the key is assigned |
| DetailedLru.LruCache.Size | detailedLRU.py:25-26 | the number of entries |
| DetailedLru.GetMovesToEnd | detailedLRU.py:8-16 | a hit moves the key to the end and answers its value; a miss answers -1 and changes nothing |
| DetailedLru.PutKeepsInvariant | detailedLRU.py:18-23 | `put` keeps the invariant, succeeds exactly when the dict is non-empty or the capacity positive, then maps the key to the value; with capacity at least 1 it keeps the length within capacity |
| DetailedLru.FullRePutEvictsFront | detailedLRU.py:19-23 | on a full dict, re-putting a resident key other than the front still evicts the front key; the dict ends one below capacity |
| DetailedLru.FullPutNewKeyEvictsFront | detailedLRU.py:19-23 | on a full dict, a new key evicts the front key and is appended |
| DetailedLru.RePutKeepsPosition | detailedLRU.py:23 | with room left, re-putting a resident key updates its value in place |
| MinLifo.LifoCache.constructor | minLIFO.py:2-4 | an empty list with the given optional capacity |
| MinLifo.LifoCache.Get | minLIFO.py:6-10 | the value of the newest pair with the key, or `None`, without change |
| MinLifo.LifoCache.Put | minLIFO.py:12-15 | the outcome and list of `PutQueue`: at the limit the last pair is popped (`IndexError` on an empty list), then the new pair is appended |
| MinLifo.LifoCache.Size | minLIFO.py:17-18 | the number of pairs, duplicates included |
| MinLifo.PutThenGet | minLIFO.py:12-15 | after a successful put the list ends with the new pair and the key reads the new value |
| MinLifo.PutFailsIff | minLIFO.py:13-14 | `put` raises exactly when a capacity of 0 or less is set and the list is empty, and then changes nothing |
| MinLifo.FullPutReplacesNewest | minLIFO.py:13-15 | at a positive capacity a full list keeps its length, every older pair stays where it was, and the newest pair is replaced |
| MinLifo.PutBounded | minLIFO.py:13-15 | the list stays within a positive capacity |
| MinLifo.UnboundedPutAppends | minLIFO.py:13-15 | without a capacity every put appends and grows the list by one, keeping older pairs for the same key |
| MinLifo.PutLeavesOtherKeys | minLIFO.py:12-15 | another key reads as before, unless the replaced pair was its newest one |
| MinFifo.FifoCache.constructor | minFIFO.py:2-4 | an empty list with the given `max_size` |
| MinFifo.FifoCache.Get | minFIFO.py:6-10 | the value of the first, newest, pair with the key, or `None`, without change |
| MinFifo.FifoCache.Put | minFIFO.py:12-19 | the list becomes `PutList`: the old pair is deleted, the new one inserted at index 0, and the last pair popped on overflow |
| MinFifo.PutKeepsInvariant | minFIFO.py:13-19 | distinct keys stay distinct for any `max_size`, and a length within a `max_size` that is not negative stays within it |
| MinFifo.PutThenGet | minFIFO.py:17 | with `max_size` at least 1 the new pair is at index 0 and the key reads the new value |
| MinFifo.FullPutEvictsOldest | minFIFO.py:17-19 | a new key put into a full list evicts the last pair, the oldest; the others move back one place; the evicted key is gone |
| MinFifo.PutIsPrefix | minFIFO.py:13-19 | the result is a prefix of the new pair followed by the old list without the key's pair, so the other pairs keep their relative order |
| MinFifo.PutLeavesOtherKeys | minFIFO.py:12-19 | every other key reads as before, unless it is the oldest key and a new key overflows the list |
| MinLru.LruCache.constructor | minLRU.py:2-4 | an empty dict with the given capacity |
| MinLru.LruCache.Default | minLRU.py:2-4 | `LRUCache()` with no argument: capacity 10 and an empty dict |
| MinLru.LruCache.Get | minLRU.py:6-13 | the dict and answer of `GetDict`; the invariant holds |
| MinLru.LruCache.Put | minLRU.py:15-20 | the outcome and dict of `PutDict`: a resident key is deleted, or `popitem()` drops the last entry when full (`KeyError` when empty); then the key is assigned |
| MinLru.GetMovesToEnd | minLRU.py:6-13 | a hit reinserts the key at the end and answers its value; a miss answers `None` and changes nothing |
| MinLru.PutKeepsInvariant | minLRU.py:15-20 | `put` keeps the invariant; it succeeds exactly when the key is present, the dict is non-empty or the capacity positive; then the key maps to the value and is last; with capacity at least 1 it keeps the length within capacity |
| MinLru.FullPutEvictsNewest | minLRU.py:18-20 | a new key put into a full dict evicts the last inserted entry, the most recent, and is appended |
| MinLru.RePutMovesToEnd | minLRU.py:16-20 | re-putting a resident key moves it to the end with the new value; nothing is evicted and the size stays |
| Wrapper.Tally | wrapper.py:39-44 | exactly one of the counters grows by one: `hits` exactly when the answer is not `None`, `misses` exactly when it is |
| Wrapper.FromSentinel | wrapper.py:243-250 | an inner -1 becomes `None`; any other value is answered as it is |
| Wrapper.MinimalLruWrapper.constructor | wrapper.py:18-26 | the inherited fields start at zero and empty; the inner LRU cache has capacity `max_size` |
| Wrapper.MinimalLruWrapper.Get | wrapper.py:28-44 | answers the inner `get`, counts by `Tally`, and leaves `max_size`, `current_size` and `items` unchanged |
| Wrapper.MinimalLruWrapper.Put | wrapper.py:46-55 | forwards key and value to the inner cache, ignores `size`, never raises `ValueError` |
| Wrapper.MinimalLruWrapper.GetHitRatio | TYP.py:75-81 | the inherited ratio over the wrapper's counters, in [0, 1] |
| Wrapper.MinimalFifoWrapper.constructor | wrapper.py:83-91 | the inherited fields start at zero and empty; the inner cache has `max_size` |
| Wrapper.MinimalFifoWrapper.Get | wrapper.py:93-110 | answers the inner lookup, counts by `Tally`, and leaves the inherited fields unchanged |
| Wrapper.MinimalFifoWrapper.Put | wrapper.py:112-121 | forwards key and value to the inner cache and ignores `size` |
| Wrapper.MinimalFifoWrapper.GetHitRatio | TYP.py:75-81 | the inherited ratio over the wrapper's counters, in [0, 1] |
| Wrapper.MinimalLifoWrapper.constructor | wrapper.py:140-142 | the inherited fields start at zero and empty; the inner cache has the capacity `max_size`, never `None` |
| Wrapper.MinimalLifoWrapper.Get | wrapper.py:144-151 | answers the inner lookup of the newest pair, counts by `Tally`, and leaves the inherited fields unchanged |
| Wrapper.MinimalLifoWrapper.Put | wrapper.py:153-154 | forwards to the inner cache, ignores `size`, never raises `ValueError` |
| Wrapper.MinimalLifoWrapper.GetHitRatio | TYP.py:75-81 | the inherited ratio over the wrapper's counters, in [0, 1] |
| Wrapper.DetailedLifoWrapper.constructor | wrapper.py:173-175 | the inherited fields start at zero and empty; the inner cache has `max_size` clamped at 0 |
| Wrapper.DetailedLifoWrapper.Get | wrapper.py:177-184 | answers the inner lookup, counts by `Tally`, and leaves the inherited fields unchanged |
| Wrapper.DetailedLifoWrapper.Put | wrapper.py:186-187 | forwards key and value to the inner cache and ignores `size` |
| Wrapper.DetailedLifoWrapper.GetHitRatio | TYP.py:75-81 | the inherited ratio over the wrapper's counters, in [0, 1] |
| Wrapper.DetailedFifoWrapper.constructor | wrapper.py:206-208 | the inherited fields start at zero and empty; the inner cache has capacity `max_size` |
| Wrapper.DetailedFifoWrapper.Get | wrapper.py:210-217 | answers the inner `dict.get`, counts by `Tally`, and leaves the inherited fields unchanged |
| Wrapper.DetailedFifoWrapper.Put | wrapper.py:219-220 | forwards to the inner cache, ignores `size`, never raises `ValueError` |
| Wrapper.DetailedFifoWrapper.GetHitRatio | TYP.py:75-81 | the inherited ratio over the wrapper's counters, in [0, 1] |
| Wrapper.DetailedLruWrapper.constructor | wrapper.py:239-241 | the inherited fields start at zero and empty; the inner LRU cache has capacity `max_size` |
| Wrapper.DetailedLruWrapper.Get | wrapper.py:243-250 | the inner `get`, with its -1 answered as `None` and counted as a miss; the inherited fields stay unchanged |
| Wrapper.DetailedLruWrapper.Put | wrapper.py:252-253 | forwards to the inner cache, ignores `size`, never raises `ValueError` |
| Wrapper.DetailedLruWrapper.GetHitRatio | TYP.py:75-81 | the inherited ratio over the wrapper's counters, in [0, 1] |
| Wrapper.StoredMinusOneReadsAsMiss | wrapper.py:243-250 | a resident key whose value is -1 is counted as a miss and answered `None`, although the inner cache moved it to the end |
| Harness.StepCounts | TYP.py:180-183 | on every class, a `get` counts exactly one hit or one miss, a hit exactly when it answers a value; a `put` leaves the counters alone; both keep the class invariants |
| Harness.ReplayCounts | TYP.py:180-183 | a replay that raises nothing makes one `get` per access, for the accesses' keys in order; hits plus misses grow by the length of the sequence; misses grow by the number of puts |
| Harness.PutOnlyAfterMiss | TYP.py:180-183 | every `put` comes right after a `get` of the same key that answered `None`, and a replay starts with a `get` |
| Harness.RunRatioBounded | TYP.py:175-184 | the ratio a replay ends with lies in [0, 1] |
| Harness.FreshRatio | TYP.py:175-184 | on a fresh cache, hits plus misses equal the length of the sequence, and the ratio is hits over that length |
| Harness.BackendGet | TYP.py:181 | `cache.get` on an object of any of the nine classes performs that class's transition |
| Harness.BackendPut | TYP.py:183 | `cache.put` on an object of any of the nine classes performs that class's transition |
| Harness.BackendHitRatio | TYP.py:184 | `cache.get_hit_ratio()` is the ratio of the object's counters |
| Harness.TestCachePerformance | TYP.py:175-184 | the object ends in the state of `Replay`, and the answer is the replay's ratio or the exception its `put` raised |
| Harness.Fresh | TYP.py:252 | `cache_class(cache_size)` starts with no hits and no misses |
| Harness.NewBackend | TYP.py:252 | a new object of the class whose state is `Fresh` |
| Harness.MultipleRunTest | TYP.py:237-255 | the first exception of a run, or the mean of the runs' ratios, each run on a fresh cache; `StatisticsError` with no runs |
| Harness.PrefixError | TYP.py:250-254 | a run that raises makes the whole test raise that exception |
| Harness.MeanOfCopies | TYP.py:255 | the mean of copies of one ratio is that ratio |
| Harness.SumBounds | TYP.py:255 | ratios in [0, 1] sum to between 0 and their count |
| Harness.RatiosPointwise | TYP.py:249-254 | the test collects one ratio per run, in order, each the ratio of that run's replay on a fresh cache |
| Harness.RatiosBounded | TYP.py:249-255 | every collected ratio, and their mean, lie in [0, 1] |
| Harness.CyclicRunsAgree | TYP.py:237-255 | when every run replays the same sequence, as with the deterministic cyclic generator, the mean is the single run's ratio |
| Harness.AllRunsOk | TYP.py:250-254 | when every run replays a sequence that raises nothing, the test raises nothing |
| Harness.MissStep | TYP.py:180-183 | a miss on a key that fits beside the resident items stores it without an eviction, counts one miss, keeps the invariant, and the replay continues from that state |
| Harness.AllResidentHits | TYP.py:180-183 | accesses whose keys are all resident all hit: the replay raises nothing, counts one hit each and no miss |
| Harness.TwoMisses | TYP.py:180-183 | two misses in a row on distinct keys that fit store both, with two misses counted |
| Harness.FirstPassMisses | TYP.py:180-183 | in a cache of size 3 the first pass over three distinct keys of size 1 misses three times and stores all three |
| Harness.CyclicKeys | TYP.py:187-200 | the cyclic sequence for 3 items and 9 entries has three distinct keys of size 1 first, and only those keys after them |
| Harness.SecondPassHits | TYP.py:180-183 | once the three keys are resident, the six remaining accesses all hit |
| Harness.EndToEnd | TYP.py:175-200 | capacity 3 and the cyclic sequence of 3 items and 9 entries, under LIFO, FIFO and LRU: no exception, hits = 6, misses = 3, ratio 6/9 |

## Left out

- main.py is not part of this model. Its chatbot depends on a language-model client, threads, files and interactive input.
- charts.py and test.py are not part of this model. They plot and print only.
- The `__main__` block of TYP.py (TYP.py:269-289) prints only.
- The `SEQUENCES` and `CACHES` tables are left out. The cache classes become the `Harness.CacheClass` selector. The generators are called directly.
- Randomness is a parameter. `random.randint`, `random.sample` and `random.choice` become sequences of draws given to the generators. `Harness.MultipleRunTest` takes, for each run, the sequence the generator returned. The distribution of the draws is not modelled.
- Floating point is not modelled. `/` and `statistics.mean` are exact `real` arithmetic.
- Payloads are strings or integers (`Common.Value`). A Python `None` stored as a value is not representable, so a stored `None` is never confused with a miss.
- Sequences.CreateCyclicSequence and Sequences.CreateRandomSequence require `n_items > 0` whenever the second loop runs, because Python would divide by zero or call `randint(0, -1)`.
- Sequences.CreateLocalitySequence requires `n_items > 0` and `locality_window != 0` whenever the second loop runs. With no items `random.choice` raises `IndexError` on the empty window, and a zero window raises `ZeroDivisionError`; neither exception is modelled. A negative window is modelled: it redraws wherever its absolute value divides the position, as Python's `%` does.
- Sequences: `n_items` is a natural number. With a negative `n_items` Python's generators behave oddly, and that case is not modelled.
- CacheModel.Evict tests the victim against `None`, where TYP.py:60 tests it for truth; see Findings. It also stops when the order structure names no resident key. That case happens only on a state that breaks the invariant, where Python would loop forever.
- TypCache.Cache.MakeRoom and TypCache.Cache.Put follow the corrected test of TYP.py:60 (`is not None`), not the truth test as written.
- TypCache: the three subclasses are one class with a fixed `policy` tag, because the subclasses differ only in their order structure. An `OrderedDict` whose values are all `None` is modelled by its keys in order.
- The wrappers' `_choose_eviction_victim`, `_on_access` and `_on_put` (wrapper.py:57-73 and copies) are never called, because the wrappers override `get` and `put`. They are not modelled.
- minFIFO.py has no `size` method, so `MinFifo.FifoCache` has none.
- Python default arguments are not modelled as defaults: every member takes all its arguments. These defaults are `item_size=1` of the three generators (TYP.py:188, 203, 217), and `runs=10` and `cache_size=3` of `multiple_run_test` (TYP.py:242-243). The one exception is `capacity=10` of the minLRU `LRUCache` (minLRU.py:2), which is given its own constructor, `MinLru.LruCache.Default`.

## Findings

| source | as written | input that shows it | evidently intended | confidence | as-written member | corrected member |
|---|---|---|---|---|---|---|
| TYP.py:60 | `if evicted_key:` removes the victim only when it is truthy; LIFO and FIFO have already popped it from the order list | a `LIFOCache(1)` holding the key "" of size 1, then `put("a", v, 1)`: the loop pops "" from the order list without removing the item, the condition still holds, and the loop never ends | remove every victim that is not `None` | not executed | CacheModel.AsWrittenEvictionNeverEnds | CacheModel.CorrectedEvictionRemovesEmptyKey |
