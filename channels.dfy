/**
 * Channel selection from an interleaved stereo sample array: the left camera
 * keeps `array[1::2]`, the right camera keeps `array[0::2]`. Neither slice
 * checks that the array has even length.
 */
module Channels {

  /** Python's `a[0::2]`: every element at an even position. */
  function EvenSamples<T>(a: seq<T>): (r: seq<T>)
    ensures |r| == (|a| + 1) / 2
    ensures forall j :: 0 <= j < |r| ==> r[j] == a[2 * j]
  {
    if |a| <= 1 then a else [a[0]] + EvenSamples(a[2..])
  }

  /** Python's `a[1::2]`: every element at an odd position. */
  function OddSamples<T>(a: seq<T>): (r: seq<T>)
    ensures |r| == |a| / 2
    ensures forall j :: 0 <= j < |r| ==> r[j] == a[2 * j + 1]
  {
    if |a| <= 1 then [] else EvenSamples(a[1..])
  }

  /** Re-interleaving: even positions from `e`, odd positions from `o`. */
  function Interleave<T>(e: seq<T>, o: seq<T>): (r: seq<T>)
    requires |o| <= |e| <= |o| + 1
    ensures |r| == |e| + |o|
  {
    if o == [] then e else [e[0], o[0]] + Interleave(e[1..], o[1..])
  }

  /** The two slices together lose nothing: interleaving them rebuilds the array. */
  lemma {:induction false} InterleaveSplit<T>(a: seq<T>)
    ensures Interleave(EvenSamples(a), OddSamples(a)) == a
  {
    if |a| > 1 {
      var e, o := EvenSamples(a), OddSamples(a);
      assert e[1..] == EvenSamples(a[2..]);
      assert o[1..] == OddSamples(a[2..]);
      InterleaveSplit(a[2..]);
      assert a == [a[0], a[1]] + a[2..];
    }
  }

  /** Splitting an interleaving gives back its two parts. */
  lemma {:induction false} SplitInterleave<T>(e: seq<T>, o: seq<T>)
    requires |o| <= |e| <= |o| + 1
    ensures EvenSamples(Interleave(e, o)) == e && OddSamples(Interleave(e, o)) == o
  {
    if o != [] {
      SplitInterleave(e[1..], o[1..]);
      var a := Interleave(e, o);
      assert a[2..] == Interleave(e[1..], o[1..]);
      assert e == [e[0]] + e[1..];
      assert o == [o[0]] + o[1..];
    }
  }
}
