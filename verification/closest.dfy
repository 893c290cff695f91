/** The "closest vertex" scan that `CCloth.PinClosestVertex` and
    `TouchTest.PinClosestVertex` both perform: a left-to-right pass keeping
    the first index whose key is strictly below the best seen so far. Keys are
    squared distances; the running best starts at a cap (`float.MaxValue`
    squared) or at infinity (`None`). */
module Closest {
  import opened Outcomes

  /** `k` beats the running best `bound` (no bound: infinity). */
  predicate Below(k: real, bound: Option<real>) {
    bound.None? || k < bound.value
  }

  /** Some key beats the starting bound. */
  predicate AnyBelow(keys: seq<real>, cap: Option<real>) {
    exists j :: 0 <= j < |keys| && Below(keys[j], cap)
  }

  /** `r` is the first index holding the least key, when some key beats the
      cap; otherwise the scan never moves off index 0. */
  predicate IsFirstClosest(keys: seq<real>, cap: Option<real>, r: nat) {
    if AnyBelow(keys, cap) then
      && r < |keys|
      && Below(keys[r], cap)
      && (forall j :: 0 <= j < |keys| ==> keys[r] <= keys[j])
      && (forall j :: 0 <= j < r ==> keys[r] < keys[j])
    else
      r == 0
  }

  /** What the scan knows after the first `i` keys: whether some key beat the
      cap, and if so, that `best` is the first least among them. */
  predicate ScanInvariant(keys: seq<real>, cap: Option<real>, i: nat, found: bool, best: nat) {
    && i <= |keys|
    && (if found then
          && best < i
          && Below(keys[best], cap)
          && (forall j :: 0 <= j < i ==> keys[best] <= keys[j])
          && (forall j :: 0 <= j < best ==> keys[best] < keys[j])
        else
          && best == 0
          && (forall j :: 0 <= j < i ==> !Below(keys[j], cap)))
  }

  /** The loop body, one index per call. */
  function Scan(keys: seq<real>, cap: Option<real>, i: nat, found: bool, best: nat): (r: nat)
    requires ScanInvariant(keys, cap, i, found, best)
    ensures IsFirstClosest(keys, cap, r)
    decreases |keys| - i
  {
    if i == |keys| then
      best
    else
      var bound := if found then Some(keys[best]) else cap;
      if Below(keys[i], bound) then
        Scan(keys, cap, i + 1, true, i)
      else
        Scan(keys, cap, i + 1, found, best)
  }

  /** The index the scan settles on. */
  function FirstClosest(keys: seq<real>, cap: Option<real>): (r: nat)
    ensures IsFirstClosest(keys, cap, r)
    ensures |keys| > 0 ==> r < |keys|
  {
    Scan(keys, cap, 0, false, 0)
  }

  /** The characterisation pins the index down: at most one index is the
      first closest. */
  lemma FirstClosestUnique(keys: seq<real>, cap: Option<real>, r1: nat, r2: nat)
    requires IsFirstClosest(keys, cap, r1)
    requires IsFirstClosest(keys, cap, r2)
    ensures r1 == r2
  {
  }
}
