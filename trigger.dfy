/**
 * Display triggering: the offset of the first step up in
 * sign(v - level) among the first SEARCH_LEN displayed samples.
 */
module TriggerAligner {
  import opened Wrappers

  /** Length of the searched leading part of the display window. */
  const SEARCH_LEN: nat := 2048

  /** np.sign on integers. */
  function Sign(v: int): int {
    if v > 0 then 1 else if v < 0 then -1 else 0
  }

  /** diff(sign(v - level))[i] > 0. */
  predicate Rises(v: seq<int>, level: int, i: nat)
    requires i + 1 < |v|
  {
    Sign(v[i + 1] - level) > Sign(v[i] - level)
  }

  /** A sign step up happens exactly when the signal comes from below the
      level to at or above it, or from the level to above it; the offset is
      the index of the sample before the step. */
  lemma RisesCases(v: seq<int>, level: int, i: nat)
    requires i + 1 < |v|
    ensures Rises(v, level, i) <==>
      (v[i] < level <= v[i + 1]) || (v[i] == level < v[i + 1])
  {
  }

  /** The least index j in [i, SEARCH_LEN - 1) with a sign step up, if any. */
  function FirstRiseFrom(v: seq<int>, level: int, i: nat): (r: Option<nat>)
    requires |v| >= SEARCH_LEN && i <= SEARCH_LEN - 1
    ensures r.Some? ==> i <= r.value < SEARCH_LEN - 1 && Rises(v, level, r.value)
    ensures r.Some? ==> forall j :: i <= j < r.value ==> !Rises(v, level, j)
    ensures r.None? ==> forall j :: i <= j < SEARCH_LEN - 1 ==> !Rises(v, level, j)
    decreases SEARCH_LEN - i
  {
    if i == SEARCH_LEN - 1 then None
    else if Rises(v, level, i) then Some(i)
    else FirstRiseFrom(v, level, i + 1)
  }

  /** The least sign step up in the search area. */
  ghost predicate IsFirstRise(v: seq<int>, level: int, k: nat) {
    && k < SEARCH_LEN - 1 && k + 1 < |v|
    && Rises(v, level, k)
    && forall j :: 0 <= j < k ==> !Rises(v, level, j)
  }

  /** The offset at which the plotted part of the display window starts. */
  function TriggerOffset(vis: seq<int>, level: int, triggerOn: bool): (offset: nat)
    ensures if triggerOn && |vis| > SEARCH_LEN && exists j :: 0 <= j < SEARCH_LEN - 1 && Rises(vis, level, j)
            then IsFirstRise(vis, level, offset)
            else offset == 0
    ensures offset == 0 || offset < |vis|
  {
    if triggerOn && |vis| > SEARCH_LEN then
      match FirstRiseFrom(vis, level, 0)
      case Some(k) => k
      case None => 0
    else 0
  }

  /** One clean upward crossing of the level at k, with no other sign step
      up in the search area, gives offset k. */
  lemma SingleCrossing(vis: seq<int>, level: int, k: nat)
    requires |vis| > SEARCH_LEN && k < SEARCH_LEN - 1
    requires vis[k] < level < vis[k + 1]
    requires forall j :: 0 <= j < SEARCH_LEN - 1 && j != k ==> !Rises(vis, level, j)
    ensures TriggerOffset(vis, level, true) == k
  {
    assert Rises(vis, level, k);
  }
}
