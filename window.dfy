/**
 * The analysis window around an impulse: `channel[spike - 10000 : spike + 10000]`
 * with Python's slice rules, which never fail and never report that a bound moved.
 */
module Window {

  /** Half the width of the analysis window, in samples (lines 83-87). */
  const HALF_WIDTH: int := 10000

  /**
   * Where a slice bound lands in a sequence of length `len` (CPython's slice
   * adjustment for step 1): a negative bound counts from the end and is then
   * raised to 0; a bound past the end is lowered to `len`.
   */
  function SliceBound(i: int, len: nat): (b: nat)
    ensures b <= len
    ensures 0 <= i <= len ==> b == i
    ensures i < 0 && 0 <= i + len ==> b == i + len
    ensures i + len < 0 ==> b == 0
    ensures len < i ==> b == len
  {
    if i < 0 then (if i + len < 0 then 0 else i + len)
    else if i > len then len
    else i
  }

  /** Python's `s[start:stop]`: the elements from the adjusted start up to the adjusted stop, or none. */
  function PySlice<T>(s: seq<T>, start: int, stop: int): (r: seq<T>)
    ensures var a, b := SliceBound(start, |s|), SliceBound(stop, |s|);
      |r| == (if a < b then b - a else 0) &&
      forall k :: 0 <= k < |r| ==> r[k] == s[a + k]
  {
    var a, b := SliceBound(start, |s|), SliceBound(stop, |s|);
    if a < b then s[a..b] else []
  }

  /** The window cut around the impulse at `spike` (lines 94-95). */
  function ImpulseWindow<T>(channel: seq<T>, spike: int): (w: seq<T>)
    ensures |w| <= 2 * HALF_WIDTH
    ensures WindowOrigin(channel, spike) + |w| <= |channel|
    ensures forall k :: 0 <= k < |w| ==> w[k] == channel[WindowOrigin(channel, spike) + k]
  {
    PySlice(channel, spike - HALF_WIDTH, spike + HALF_WIDTH)
  }

  /** The channel position the window's first element actually comes from. */
  function WindowOrigin<T>(channel: seq<T>, spike: int): (o: nat)
    ensures o <= |channel|
    ensures 0 <= spike - HALF_WIDTH <= |channel| ==> o == spike - HALF_WIDTH
  {
    SliceBound(spike - HALF_WIDTH, |channel|)
  }

  /** An impulse at least HALF_WIDTH from both ends gets the full window, centred on it. */
  lemma FullWindow<T>(channel: seq<T>, spike: int)
    requires HALF_WIDTH <= spike && spike + HALF_WIDTH <= |channel|
    ensures ImpulseWindow(channel, spike) == channel[spike - HALF_WIDTH .. spike + HALF_WIDTH]
    ensures |ImpulseWindow(channel, spike)| == 2 * HALF_WIDTH
    ensures WindowOrigin(channel, spike) == spike - HALF_WIDTH
  {
  }

  /** An impulse near the end: the window is cut at the end of the channel. */
  lemma WindowAtEnd<T>(channel: seq<T>, spike: int)
    requires HALF_WIDTH <= spike < |channel| < spike + HALF_WIDTH
    ensures ImpulseWindow(channel, spike) == channel[spike - HALF_WIDTH ..]
    ensures HALF_WIDTH < |ImpulseWindow(channel, spike)| < 2 * HALF_WIDTH
  {
  }

  /** Whenever the start bound is not negative, the impulse sits at window position HALF_WIDTH. */
  lemma WindowCentredOnImpulse<T>(channel: seq<T>, spike: int)
    requires HALF_WIDTH <= spike < |channel|
    ensures HALF_WIDTH < |ImpulseWindow(channel, spike)|
    ensures ImpulseWindow(channel, spike)[HALF_WIDTH] == channel[spike]
  {
  }

  /**
   * An impulse within HALF_WIDTH of the start of a long channel: the negative
   * start counts from the END of the channel, lands at or past the stop, and
   * the window comes out empty instead of being clamped to the start.
   */
  lemma WindowNearStartIsEmpty<T>(channel: seq<T>, spike: int)
    requires 0 <= spike < HALF_WIDTH && 2 * HALF_WIDTH <= |channel|
    ensures ImpulseWindow(channel, spike) == []
  {
  }
}
