/**
 * Motif selection on the matrix profile of the two windows, and the offset
 * arithmetic that maps the chosen row back to channel sample indices.
 * The profile itself (stumpy's z-normalised AB-join) is an input: a sequence
 * of rows (distance, index of the nearest subsequence in the right window).
 */
module Motif {
  import opened Outcome
  import opened Window
  import Impulse

  /** Subsequence length `m` handed to the matrix profile (line 93). */
  const M: int := 10000

  datatype ProfileRow = ProfileRow(distance: real, neighbor: int)

  /**
   * The shape of an AB-join profile of windows of lengths `lenA` and `lenB`:
   * one row per length-M subsequence of A, each naming a valid start in B.
   */
  predicate WellFormedProfile(profile: seq<ProfileRow>, lenA: int, lenB: int) {
    |profile| == lenA - M + 1 &&
    forall i :: 0 <= i < |profile| ==> 0 <= profile[i].neighbor <= lenB - M
  }

  /** `p` is the first row of least distance. */
  predicate IsFirstMin(profile: seq<ProfileRow>, p: int) {
    0 <= p < |profile| &&
    (forall k :: 0 <= k < |profile| ==> profile[p].distance <= profile[k].distance) &&
    (forall k :: 0 <= k < p ==> profile[p].distance < profile[k].distance)
  }

  function FirstMinIndex(profile: seq<ProfileRow>): (p: nat)
    requires |profile| > 0
    ensures IsFirstMin(profile, p)
  {
    if |profile| == 1 then 0
    else
      var k := FirstMinIndex(profile[..|profile| - 1]);
      if profile[|profile| - 1].distance < profile[k].distance then |profile| - 1 else k
  }

  /** `matrix_profile[:, 0].argmin()` (line 101), which raises on an empty profile. */
  function ArgMinDistance(profile: seq<ProfileRow>): (r: Result<nat, SyncError>)
    ensures r.Err? <==> |profile| == 0
    ensures r.Err? ==> r.error == EmptyProfile
    ensures r.Ok? ==> IsFirstMin(profile, r.value)
  {
    if |profile| == 0 then Err(EmptyProfile) else Ok(FirstMinIndex(profile))
  }

  /** Motif start positions in the left and right channels. */
  datatype MotifPair = MotifPair(left: int, right: int)

  /**
   * Lines 101-103 as written: the chosen row and its neighbour, each shifted
   * by the RAW window start `spike - HALF_WIDTH`, even when slicing did not
   * start the window there.
   */
  function MotifPairAsWritten(profile: seq<ProfileRow>, p: nat, leftSpike: int, rightSpike: int): (r: MotifPair)
    requires p < |profile|
    ensures r.left - p == leftSpike - HALF_WIDTH
    ensures r.right - profile[p].neighbor == rightSpike - HALF_WIDTH
  {
    MotifPair(p + (leftSpike - HALF_WIDTH), profile[p].neighbor + (rightSpike - HALF_WIDTH))
  }

  /**
   * The intended offsets: the chosen row and its neighbour, each shifted by
   * the position the window really starts at in its channel. The motif it
   * names in each channel is exactly the matched subsequence of the window.
   */
  function MotifPairOf<T>(profile: seq<ProfileRow>, p: nat,
                          leftChannel: seq<T>, leftSpike: int,
                          rightChannel: seq<T>, rightSpike: int): (r: MotifPair)
    requires p < |profile|
    ensures p <= r.left && profile[p].neighbor <= r.right
    ensures WellFormedProfile(profile, |ImpulseWindow(leftChannel, leftSpike)|,
                                       |ImpulseWindow(rightChannel, rightSpike)|) ==>
      && 0 <= r.left && r.left + M <= |leftChannel|
      && 0 <= r.right && r.right + M <= |rightChannel|
      && leftChannel[r.left .. r.left + M] == ImpulseWindow(leftChannel, leftSpike)[p .. p + M]
      && rightChannel[r.right .. r.right + M] ==
         ImpulseWindow(rightChannel, rightSpike)[profile[p].neighbor .. profile[p].neighbor + M]
  {
    var r := MotifPair(p + WindowOrigin(leftChannel, leftSpike),
                       profile[p].neighbor + WindowOrigin(rightChannel, rightSpike));
    WindowSliceInChannel(leftChannel, leftSpike, p);
    WindowSliceInChannel(rightChannel, rightSpike, profile[p].neighbor);
    r
  }

  /** A length-M piece of the window is the same piece of the channel, shifted by the window's origin. */
  lemma WindowSliceInChannel<T>(channel: seq<T>, spike: int, q: int)
    ensures 0 <= q && q + M <= |ImpulseWindow(channel, spike)| ==>
      && WindowOrigin(channel, spike) + q + M <= |channel|
      && channel[WindowOrigin(channel, spike) + q .. WindowOrigin(channel, spike) + q + M] ==
            ImpulseWindow(channel, spike)[q .. q + M]
  {
  }

  /**
   * A window long enough for the matrix profile starts below 0 only in one
   * case: a channel of exactly HALF_WIDTH samples whose impulse is sample 0.
   */
  lemma AdequateWindowNegativeStart<T>(channel: seq<T>, spike: nat)
    requires spike < |channel|
    requires M <= |ImpulseWindow(channel, spike)|
    ensures spike - HALF_WIDTH < 0 <==> spike == 0 && |channel| == HALF_WIDTH
  {
    var w := ImpulseWindow(channel, spike);
    var a, b := SliceBound(spike - HALF_WIDTH, |channel|), SliceBound(spike + HALF_WIDTH, |channel|);
    assert |w| == (if a < b then b - a else 0);
    if spike - HALF_WIDTH < 0 && 0 <= spike - HALF_WIDTH + |channel| {
      assert a == |channel| + spike - HALF_WIDTH;
    }
  }

  /** Whenever no window start is negative, the source's arithmetic is the intended one. */
  lemma AsWrittenAgrees<T>(profile: seq<ProfileRow>, p: nat,
                           leftChannel: seq<T>, leftSpike: nat,
                           rightChannel: seq<T>, rightSpike: nat)
    requires p < |profile|
    requires WellFormedProfile(profile, |ImpulseWindow(leftChannel, leftSpike)|,
                                        |ImpulseWindow(rightChannel, rightSpike)|)
    requires leftSpike < |leftChannel| && rightSpike < |rightChannel|
    requires HALF_WIDTH <= leftSpike && HALF_WIDTH <= rightSpike
    ensures MotifPairAsWritten(profile, p, leftSpike, rightSpike) ==
            MotifPairOf(profile, p, leftChannel, leftSpike, rightChannel, rightSpike)
  {
  }

  /**
   * The discrepancy: a left channel of 10000 samples whose impulse is its first
   * sample gives a window that is the whole channel, a one-row profile, and a
   * left motif index of -10000 where the motif really starts at 0.
   */
  lemma AsWrittenMisplacesShortChannel(profile: seq<ProfileRow>, rightChannel: seq<int>, rightSpike: int)
    requires WellFormedProfile(profile, HALF_WIDTH, |ImpulseWindow(rightChannel, rightSpike)|)
    ensures var channel := seq(HALF_WIDTH, k => if k == 0 then 1 else 0);
      Impulse.FirstMaxIndex(channel) == 0 &&
      ImpulseWindow(channel, 0) == channel &&
      FirstMinIndex(profile) == 0 &&
      MotifPairAsWritten(profile, 0, 0, rightSpike).left == -HALF_WIDTH &&
      MotifPairOf(profile, 0, channel, 0, rightChannel, rightSpike).left == 0
  {
    var channel := seq(HALF_WIDTH, k => if k == 0 then 1 else 0);
    Impulse.ArgMaxOfSpike(channel, Left, 0);
    assert ImpulseWindow(channel, 0) == channel[0..HALF_WIDTH];
  }
}
