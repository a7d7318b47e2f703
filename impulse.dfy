/**
 * Impulse location: numpy's `argmax`, the first position holding the largest
 * SIGNED value (a large negative excursion is not an impulse here).
 */
module Impulse {
  import opened Outcome

  /** `i` is the first position of a maximum of `s`. */
  predicate IsFirstMax(s: seq<int>, i: int) {
    0 <= i < |s| &&
    (forall k :: 0 <= k < |s| ==> s[k] <= s[i]) &&
    (forall k :: 0 <= k < i ==> s[k] < s[i])
  }

  /** The scan numpy performs: keep the earlier index unless a later value is strictly larger. */
  function FirstMaxIndex(s: seq<int>): (i: nat)
    requires |s| > 0
    ensures IsFirstMax(s, i)
  {
    if |s| == 1 then 0
    else
      var k := FirstMaxIndex(s[..|s| - 1]);
      if s[|s| - 1] > s[k] then |s| - 1 else k
  }

  /** A sequence has exactly one first maximum. */
  lemma FirstMaxUnique(s: seq<int>, i: int, j: int)
    requires IsFirstMax(s, i) && IsFirstMax(s, j)
    ensures i == j
  {
    assert s[i] == s[j];
  }

  /** `channel.argmax()`, which raises on an empty array. */
  function ArgMax(channel: seq<int>, side: Side): (r: Result<nat, SyncError>)
    ensures r.Err? <==> |channel| == 0
    ensures r.Err? ==> r.error == EmptyChannel(side)
    ensures r.Ok? ==> IsFirstMax(channel, r.value)
  {
    if |channel| == 0 then Err(EmptyChannel(side)) else Ok(FirstMaxIndex(channel))
  }

  /** A constant signal has its impulse at index 0. */
  lemma ArgMaxOfConstant(channel: seq<int>, side: Side)
    requires |channel| > 0
    requires forall k :: 0 <= k < |channel| ==> channel[k] == channel[0]
    ensures ArgMax(channel, side) == Ok(0)
  {
  }

  /** A single sample larger than every other one is where the impulse is found. */
  lemma ArgMaxOfSpike(channel: seq<int>, side: Side, p: nat)
    requires p < |channel|
    requires forall k :: 0 <= k < |channel| && k != p ==> channel[k] < channel[p]
    ensures ArgMax(channel, side) == Ok(p)
  {
  }
}
