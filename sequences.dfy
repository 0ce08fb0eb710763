/** The access-sequence generators of TYP.py (`create_cyclic_sequence`,
    `create_random_sequence`, `create_locality_sequence`). The draws of the
    `random` module are parameters: `draws[t]`, `samples[t]` and `picks[t]`
    are what `randint`, `sample` and `choice` return at position
    `n_items + t`. */
module Sequences {
  import opened Common

  /** One entry of an access sequence: the tuple `(key, value, size)`. */
  datatype Access = Access(key: string, value: Value, size: int)

  function Max(a: int, b: int): int { if a < b then b else a }
  function Min(a: int, b: int): int { if a < b then a else b }

  // ---------------------------------------------------------------------
  // Decimal formatting, as done by the f-strings "item_{i}" and "value_{i}".

  function DigitChar(d: nat): char
    requires d < 10
  {
    (d + '0' as int) as char
  }

  /** Python's `str(n)` for a natural number. */
  function NatToString(n: nat): (r: string)
    ensures |r| >= 1
    ensures n >= 10 ==> |r| >= 2
    ensures r[|r| - 1] == DigitChar(n % 10)
    decreases n
  {
    if n < 10 then [DigitChar(n)] else NatToString(n / 10) + [DigitChar(n % 10)]
  }

  /** Different numbers print differently. */
  lemma {:induction false} NatToStringInjective(a: nat, b: nat)
    requires NatToString(a) == NatToString(b)
    ensures a == b
    decreases a
  {
    var sa, sb := NatToString(a), NatToString(b);
    assert DigitChar(a % 10) == DigitChar(b % 10);
    if a >= 10 && b >= 10 {
      assert sa[..|sa| - 1] == NatToString(a / 10);
      assert sb[..|sb| - 1] == NatToString(b / 10);
      NatToStringInjective(a / 10, b / 10);
    }
  }

  /** `f"item_{i}"`. */
  function ItemKey(i: nat): string {
    "item_" + NatToString(i)
  }

  /** `f"value_{i}"`. */
  function ItemValue(i: nat): Value {
    Str("value_" + NatToString(i))
  }

  /** Different item numbers give different keys. */
  lemma ItemKeyInjective(i: nat, j: nat)
    ensures ItemKey(i) == ItemKey(j) <==> i == j
  {
    if ItemKey(i) == ItemKey(j) {
      var p := "item_";
      assert ItemKey(i)[|p|..] == NatToString(i);
      assert ItemKey(j)[|p|..] == NatToString(j);
      NatToStringInjective(i, j);
    }
  }

  /** The keys of the `n` items: "item_0" … "item_{n-1}". */
  ghost predicate IsItemKey(key: string, n: nat) {
    exists j: nat :: j < n && key == ItemKey(j)
  }

  /** What every generator puts at a position below `n_items`. */
  function FirstPass(i: nat, itemSize: int): Access {
    Access(ItemKey(i), ItemValue(i), itemSize)
  }

  /** The first loop of all three generators (TYP.py:194-196, 208-210,
      222-224): the entries `(item_i, value_i, item_size)` for `i` below
      `n_items`. */
  method FirstPasses(nItems: nat, itemSize: int) returns (sequence: seq<Access>)
    ensures |sequence| == nItems
    ensures forall i :: 0 <= i < nItems ==> sequence[i] == FirstPass(i, itemSize)
  {
    sequence := [];
    var i := 0;
    while i < nItems
      invariant 0 <= i <= nItems && |sequence| == i
      invariant forall k :: 0 <= k < i ==> sequence[k] == FirstPass(k, itemSize)
    {
      sequence := sequence + [Access(ItemKey(i), ItemValue(i), itemSize)];
      i := i + 1;
    }
  }

  // ---------------------------------------------------------------------
  // create_cyclic_sequence (TYP.py:188-201)

  /** `create_cyclic_sequence(n_items, cycle_length, item_size)`. Python
      divides by `n_items` once the first loop is done, so `n_items` must be
      positive unless no entry follows the first `n_items`. */
  method CreateCyclicSequence(nItems: nat, cycleLength: int, itemSize: int) returns (sequence: seq<Access>)
    requires nItems > 0 || cycleLength <= 0
    ensures |sequence| == Max(nItems, cycleLength)
    ensures forall i :: 0 <= i < nItems ==> sequence[i] == FirstPass(i, itemSize)
    ensures forall i :: nItems <= i < |sequence| ==>
              sequence[i] == Access(ItemKey(i % nItems), ItemValue(i), itemSize)
  {
    sequence := FirstPasses(nItems, itemSize);
    var i := nItems;
    while i < cycleLength
      invariant nItems <= i && |sequence| == i
      invariant i == Max(nItems, cycleLength) || i < cycleLength
      invariant forall k :: 0 <= k < nItems ==> sequence[k] == FirstPass(k, itemSize)
      invariant forall k :: nItems <= k < i ==> sequence[k] == Access(ItemKey(k % nItems), ItemValue(k), itemSize)
    {
      sequence := sequence + [Access(ItemKey(i % nItems), ItemValue(i), itemSize)];
      i := i + 1;
    }
  }

  /** The keys of the doc example `[A,B,C,A,B,C,A,B,C]` (TYP.py:190-191): three
      items and nine entries. */
  lemma {:induction false} CyclicDocExample(s: seq<Access>, a: string, b: string, c: string)
    requires |s| == 9 && a == ItemKey(0) && b == ItemKey(1) && c == ItemKey(2)
    requires forall i :: 0 <= i < 3 ==> s[i] == FirstPass(i, 1)
    requires forall i :: 3 <= i < 9 ==> s[i] == Access(ItemKey(i % 3), ItemValue(i), 1)
    ensures seq(9, i requires 0 <= i < 9 => s[i].key) == [a, b, c, a, b, c, a, b, c]
  {
    assert s[3].key == ItemKey(3 % 3) && s[4].key == ItemKey(4 % 3) && s[5].key == ItemKey(5 % 3);
    assert s[6].key == ItemKey(6 % 3) && s[7].key == ItemKey(7 % 3) && s[8].key == ItemKey(8 % 3);
  }

  // ---------------------------------------------------------------------
  // create_random_sequence (TYP.py:203-215)

  /** `create_random_sequence(n_items, sequence_length, item_size)`, where
      `draws[t]` is what `random.randint(0, n_items - 1)` returns at position
      `n_items + t`: a number in `0..n_items-1`. With no items, `randint`
      raises, so `n_items` must be positive unless no draw is made. */
  method CreateRandomSequence(nItems: nat, sequenceLength: int, itemSize: int, draws: seq<nat>)
    returns (sequence: seq<Access>)
    requires nItems > 0 || sequenceLength <= 0
    requires |draws| >= sequenceLength - nItems
    requires forall t :: 0 <= t < |draws| ==> draws[t] < nItems
    ensures |sequence| == Max(nItems, sequenceLength)
    ensures forall i :: 0 <= i < nItems ==> sequence[i] == FirstPass(i, itemSize)
    ensures forall i :: nItems <= i < |sequence| ==>
              sequence[i] == Access(ItemKey(draws[i - nItems]), ItemValue(i), itemSize)
    ensures forall i :: 0 <= i < |sequence| ==> IsItemKey(sequence[i].key, nItems)
  {
    sequence := FirstPasses(nItems, itemSize);
    var i := nItems;
    while i < sequenceLength
      invariant nItems <= i && |sequence| == i
      invariant i == Max(nItems, sequenceLength) || i < sequenceLength
      invariant forall k :: 0 <= k < nItems ==> sequence[k] == FirstPass(k, itemSize)
      invariant forall k :: nItems <= k < i ==>
                  sequence[k] == Access(ItemKey(draws[k - nItems]), ItemValue(k), itemSize)
    {
      sequence := sequence + [Access(ItemKey(draws[i - nItems]), ItemValue(i), itemSize)];
      i := i + 1;
    }
    forall i | 0 <= i < |sequence| ensures IsItemKey(sequence[i].key, nItems) {
      var j: nat := if i < nItems then i else draws[i - nItems];
      assert j < nItems && sequence[i].key == ItemKey(j);
    }
  }

  // ---------------------------------------------------------------------
  // create_locality_sequence (TYP.py:217-235)

  /** A possible result of `random.sample(range(n), k)`, as indices: `k`
      different numbers below `n`. */
  ghost predicate IsSample(sample: seq<nat>, n: nat, k: int) {
    && |sample| == k
    && NoDup(sample)
    && forall m :: 0 <= m < |sample| ==> sample[m] < n
  }

  /** The window of keys that a sample of indices names. */
  function WindowKeys(sample: seq<nat>): (w: seq<string>)
    ensures |w| == |sample|
  {
    seq(|sample|, m requires 0 <= m < |sample| => ItemKey(sample[m]))
  }

  /** The position at which the window in force at position `i` was drawn:
      the latest position from `n_items` on that is a multiple of the
      locality window, or `n_items` itself, where the window starts empty. */
  function Anchor(nItems: nat, localityWindow: int, i: nat): (a: nat)
    requires nItems <= i && localityWindow != 0
    ensures nItems <= a <= i
    ensures a == nItems || a % localityWindow == 0
    decreases i
  {
    if i == nItems || i % localityWindow == 0 then i else Anchor(nItems, localityWindow, i - 1)
  }

  /** No window is drawn after the anchor: no later position up to `i` is a
      multiple of the locality window. */
  lemma {:induction false} AnchorIsLatest(nItems: nat, localityWindow: int, i: nat, p: nat)
    requires nItems <= i && localityWindow != 0
    requires Anchor(nItems, localityWindow, i) < p <= i
    ensures p % localityWindow != 0
    decreases i
  {
    if p < i {
      AnchorIsLatest(nItems, localityWindow, i - 1, p);
    }
  }

  /** A new window is drawn at every multiple of the locality window. */
  lemma AnchorAtMultiple(nItems: nat, localityWindow: int, i: nat)
    requires nItems <= i && localityWindow != 0 && i % localityWindow == 0
    ensures Anchor(nItems, localityWindow, i) == i
  {
  }

  /** Within a run of positions with no multiple of the locality window, the
      window stays the same. */
  lemma {:induction false} AnchorStable(nItems: nat, localityWindow: int, i: nat, j: nat)
    requires nItems <= i <= j && localityWindow != 0
    requires forall p :: i < p <= j ==> p % localityWindow != 0
    ensures Anchor(nItems, localityWindow, j) == Anchor(nItems, localityWindow, i)
    decreases j
  {
    if j > i {
      assert j != nItems && j % localityWindow != 0;
      AnchorStable(nItems, localityWindow, i, j - 1);
    }
  }

  /** What `random.sample` and `random.choice` may return in
      `create_locality_sequence`: windows of `min(n_items, 3)` different items,
      and an index into such a window. */
  ghost predicate LocalityDraws(nItems: nat, samples: seq<seq<nat>>, picks: seq<nat>) {
    && (forall t :: 0 <= t < |samples| ==> IsSample(samples[t], nItems, Min(nItems, 3)))
    && (forall t :: 0 <= t < |picks| ==> picks[t] < Min(nItems, 3))
  }

  /** The key at position `i` of a locality sequence: the pick from the window
      drawn at `Anchor(i)`. */
  ghost function LocalityKey(nItems: nat, localityWindow: int, i: nat, samples: seq<seq<nat>>, picks: seq<nat>): string
    requires nItems <= i && localityWindow != 0
    requires LocalityDraws(nItems, samples, picks) && i - nItems < |samples| && i - nItems < |picks|
  {
    var a := Anchor(nItems, localityWindow, i);
    assert |samples[a - nItems]| == Min(nItems, 3);
    WindowKeys(samples[a - nItems])[picks[i - nItems]]
  }

  /** The entries of `s` from position `n_items` on are the picks of a
      locality sequence. */
  ghost predicate LocalityTail(s: seq<Access>, nItems: nat, localityWindow: int, itemSize: int,
                               samples: seq<seq<nat>>, picks: seq<nat>)
    requires nItems <= |s| && localityWindow != 0 && LocalityDraws(nItems, samples, picks)
    requires |s| - nItems <= |samples| && |s| - nItems <= |picks|
  {
    forall k :: nItems <= k < |s| ==>
      s[k] == Access(LocalityKey(nItems, localityWindow, k, samples, picks), ItemValue(k), itemSize)
  }

  /** Appending the pick for the next position extends a locality tail. */
  lemma LocalityTailExtend(s: seq<Access>, nItems: nat, localityWindow: int, itemSize: int,
                           samples: seq<seq<nat>>, picks: seq<nat>, key: string)
    requires nItems <= |s| && localityWindow != 0 && LocalityDraws(nItems, samples, picks)
    requires |s| - nItems < |samples| && |s| - nItems < |picks|
    requires LocalityTail(s, nItems, localityWindow, itemSize, samples, picks)
    requires key == LocalityKey(nItems, localityWindow, |s|, samples, picks)
    ensures LocalityTail(s + [Access(key, ItemValue(|s|), itemSize)], nItems, localityWindow, itemSize, samples, picks)
  {
    var r := s + [Access(key, ItemValue(|s|), itemSize)];
    forall k | nItems <= k < |r|
      ensures r[k] == Access(LocalityKey(nItems, localityWindow, k, samples, picks), ItemValue(k), itemSize)
    {
      if k < |s| {
        assert r[k] == s[k];
      }
    }
  }

  /** `create_locality_sequence(n_items, sequence_length, locality_window,
      item_size)`, where `samples[t]` is what `random.sample` returns (as item
      indices) and `picks[t]` the index that `random.choice` takes, at position
      `n_items + t`. Python divides by `locality_window` and picks from an
      empty window when there are no items, so unless the second loop does not
      run there must be items and the window must not be 0. A negative window
      redraws at the same positions as its absolute value: `i % w == 0`
      exactly when `w` divides `i`, for Python's `%` and for Dafny's alike. */
  method CreateLocalitySequence(nItems: nat, sequenceLength: int, localityWindow: int, itemSize: int,
                                samples: seq<seq<nat>>, picks: seq<nat>)
    returns (sequence: seq<Access>)
    requires (nItems > 0 && localityWindow != 0) || sequenceLength <= nItems
    requires LocalityDraws(nItems, samples, picks)
    requires |samples| >= sequenceLength - nItems && |picks| >= sequenceLength - nItems
    ensures |sequence| == Max(nItems, sequenceLength)
    ensures forall i :: 0 <= i < nItems ==> sequence[i] == FirstPass(i, itemSize)
    ensures forall i :: nItems <= i < |sequence| ==>
              sequence[i] == Access(LocalityKey(nItems, localityWindow, i, samples, picks), ItemValue(i), itemSize)
  {
    sequence := FirstPasses(nItems, itemSize);
    var i := nItems;
    var currentWindow: seq<string> := [];
    ghost var anchor: nat := nItems;
    while i < sequenceLength
      invariant nItems <= i && |sequence| == i
      invariant i == Max(nItems, sequenceLength) || i < sequenceLength
      invariant forall k :: 0 <= k < nItems ==> sequence[k] == FirstPass(k, itemSize)
      invariant nItems < sequenceLength ==> nItems > 0 && localityWindow != 0
      invariant nItems < sequenceLength ==>
                  LocalityTail(sequence, nItems, localityWindow, itemSize, samples, picks)
      invariant i == nItems ==> currentWindow == []
      invariant i > nItems ==> anchor == Anchor(nItems, localityWindow, i - 1)
      invariant i > nItems ==> currentWindow == WindowKeys(samples[anchor - nItems])
    {
      LocalityStep(nItems, localityWindow, i, samples, picks);
      if i % localityWindow == 0 || |currentWindow| == 0 {
        currentWindow := WindowKeys(samples[i - nItems]);
        anchor := i;
      }
      var key := currentWindow[picks[i - nItems]];
      LocalityTailExtend(sequence, nItems, localityWindow, itemSize, samples, picks, key);
      sequence := sequence + [Access(key, ItemValue(i), itemSize)];
      i := i + 1;
    }
  }

  /** One step of the second loop of `create_locality_sequence`: the anchor
      moves exactly when the window is redrawn, and the key is the pick from
      the window drawn at the anchor. */
  lemma LocalityStep(nItems: nat, localityWindow: int, i: nat, samples: seq<seq<nat>>, picks: seq<nat>)
    requires nItems <= i && localityWindow != 0 && nItems > 0
    requires LocalityDraws(nItems, samples, picks) && i - nItems < |samples| && i - nItems < |picks|
    ensures i > nItems ==> |samples[Anchor(nItems, localityWindow, i - 1) - nItems]| > 0
    ensures Anchor(nItems, localityWindow, i)
              == if i == nItems || i % localityWindow == 0 then i else Anchor(nItems, localityWindow, i - 1)
    ensures picks[i - nItems] < |samples[Anchor(nItems, localityWindow, i) - nItems]|
    ensures LocalityKey(nItems, localityWindow, i, samples, picks)
              == ItemKey(samples[Anchor(nItems, localityWindow, i) - nItems][picks[i - nItems]])
  {
    if i > nItems {
      var a := Anchor(nItems, localityWindow, i - 1);
      assert |samples[a - nItems]| == Min(nItems, 3);
    }
    var b := Anchor(nItems, localityWindow, i);
    assert |samples[b - nItems]| == Min(nItems, 3);
  }

  /** The window in force at any position names `min(n_items, 3)` different
      item keys. */
  lemma WindowDistinct(sample: seq<nat>, nItems: nat)
    requires IsSample(sample, nItems, Min(nItems, 3))
    ensures |WindowKeys(sample)| == Min(nItems, 3)
    ensures NoDup(WindowKeys(sample))
    ensures forall m :: 0 <= m < |WindowKeys(sample)| ==> IsItemKey(WindowKeys(sample)[m], nItems)
  {
    WindowKeysNoDup(sample);
    forall m | 0 <= m < |WindowKeys(sample)| ensures IsItemKey(WindowKeys(sample)[m], nItems) {
      assert WindowKeys(sample)[m] == ItemKey(sample[m]);
    }
  }

  lemma {:induction false} WindowKeysNoDup(sample: seq<nat>)
    requires NoDup(sample)
    ensures NoDup(WindowKeys(sample))
    decreases |sample|
  {
    if |sample| > 0 {
      var w := WindowKeys(sample);
      var t := sample[1..];
      WindowKeysNoDup(t);
      assert w[1..] == WindowKeys(t);
      forall m | 0 <= m < |t| ensures WindowKeys(t)[m] != w[0] {
        assert t[m] in t;
        ItemKeyInjective(t[m], sample[0]);
      }
    }
  }
}
