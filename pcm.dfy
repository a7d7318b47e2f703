/**
 * Decoding of a WAV file's raw frame bytes into signed 16-bit samples, as
 * `np.frombuffer(buffer, dtype=np.int16)` does on a little-endian host.
 */
module Pcm {
  import opened Outcome

  type byte = x: int | 0 <= x < 256

  const INT16_MIN: int := -32768
  const INT16_MAX: int := 32767

  type int16 = x: int | -32768 <= x <= 32767

  /** Two's-complement reading of the little-endian pair (lo, hi). */
  function SampleOf(lo: byte, hi: byte): (v: int16)
    ensures (v - (lo + 256 * hi)) % 65536 == 0
    ensures v < 0 <==> hi >= 128
  {
    if hi >= 128 then lo + 256 * hi - 65536 else lo + 256 * hi
  }

  /** The two bytes a sample occupies in the buffer, low byte first. */
  function BytesOf(v: int16): (b: seq<byte>)
    ensures |b| == 2 && SampleOf(b[0], b[1]) == v
  {
    var u := if v < 0 then v + 65536 else v;
    [u % 256, u / 256]
  }

  lemma BytesOfSampleOf(lo: byte, hi: byte)
    ensures BytesOf(SampleOf(lo, hi)) == [lo, hi]
  {
  }

  /** Decoding of a buffer whose length is a whole number of samples. */
  function DecodeSamples(b: seq<byte>): (r: seq<int16>)
    requires |b| % 2 == 0
    ensures |r| == |b| / 2
    ensures forall k :: 0 <= k < |r| ==> r[k] == SampleOf(b[2 * k], b[2 * k + 1])
  {
    if |b| == 0 then [] else [SampleOf(b[0], b[1])] + DecodeSamples(b[2..])
  }

  /** np.frombuffer(b, dtype=np.int16): refuses a buffer of odd length. */
  function FromBuffer(b: seq<byte>, side: Side): (r: Result<seq<int16>, SyncError>)
    ensures r.Err? <==> |b| % 2 == 1
    ensures r.Err? ==> r.error == BufferNotMultipleOfSampleSize(side)
    ensures r.Ok? ==> |r.value| == |b| / 2
    ensures r.Ok? ==> forall k :: 0 <= k < |r.value| ==>
      INT16_MIN <= r.value[k] <= INT16_MAX && r.value[k] == SampleOf(b[2 * k], b[2 * k + 1])
  {
    if |b| % 2 != 0 then Err(BufferNotMultipleOfSampleSize(side)) else Ok(DecodeSamples(b))
  }

  /** The inverse of decoding: the little-endian bytes of a sample sequence. */
  function Encode(xs: seq<int16>): (b: seq<byte>)
    ensures |b| == 2 * |xs|
  {
    if xs == [] then [] else BytesOf(xs[0]) + Encode(xs[1..])
  }

  lemma {:induction false} DecodeEncode(xs: seq<int16>)
    ensures DecodeSamples(Encode(xs)) == xs
  {
    if xs != [] {
      var b := Encode(xs);
      assert b[2..] == Encode(xs[1..]);
      DecodeEncode(xs[1..]);
    }
  }

  lemma {:induction false} EncodeDecode(b: seq<byte>)
    requires |b| % 2 == 0
    ensures Encode(DecodeSamples(b)) == b
  {
    if |b| != 0 {
      var r := DecodeSamples(b);
      assert r[1..] == DecodeSamples(b[2..]);
      EncodeDecode(b[2..]);
      BytesOfSampleOf(b[0], b[1]);
      assert b == [b[0], b[1]] + b[2..];
    }
  }
}
