/**
 * The alignment stage of `gopro_sync`: from the two WAV byte buffers to the
 * sample indices in each channel where the matched motif starts. Reading the
 * videos, the float time lookup and the trimming around it are not modelled;
 * the matrix profile computation is the parameter `stump`.
 */
module Sync {
  import opened Outcome
  import opened Pcm
  import opened Channels
  import opened Impulse
  import opened Window
  import opened Motif

  /** What the matrix-profile library promises about its output for windows of at least M samples. */
  ghost predicate StumpContract(stump: (seq<int>, seq<int>) -> seq<ProfileRow>) {
    forall a, b :: M <= |a| && M <= |b| ==> WellFormedProfile(stump(a, b), |a|, |b|)
  }

  /** Signed samples of the channel each camera is analysed on (lines 52-53, 74-75). */
  function CameraChannel(buffer: seq<byte>, side: Side): (r: Result<seq<int>, SyncError>)
    ensures r.Err? <==> |buffer| % 2 == 1
    ensures r.Err? ==> r.error == BufferNotMultipleOfSampleSize(side)
    ensures r.Ok? && side == Left ==>
      && |r.value| == |buffer| / 4
      && forall j :: 0 <= j < |r.value| ==> r.value[j] == SampleOf(buffer[4 * j + 2], buffer[4 * j + 3])
    ensures r.Ok? && side == Right ==>
      && |r.value| == (|buffer| / 2 + 1) / 2
      && forall j :: 0 <= j < |r.value| ==> r.value[j] == SampleOf(buffer[4 * j], buffer[4 * j + 1])
  {
    match FromBuffer(buffer, side)
    case Err(e) => Err(e)
    case Ok(samples) =>
      var ch: seq<int> := if side == Left then OddSamples(samples) else EvenSamples(samples);
      Ok(ch)
  }

  /**
   * Lines 52-103: decode and split both buffers, then align the two channels.
   * Errors are reported in the order the source raises them.
   */
  function SyncIndices(leftBuffer: seq<byte>, rightBuffer: seq<byte>,
                       stump: (seq<int>, seq<int>) -> seq<ProfileRow>): (r: Result<MotifPair, SyncError>)
    ensures |leftBuffer| % 2 == 1 ==> r == Err(BufferNotMultipleOfSampleSize(Left))
    ensures |leftBuffer| % 2 == 0 && |rightBuffer| % 2 == 1 ==> r == Err(BufferNotMultipleOfSampleSize(Right))
    ensures |leftBuffer| % 2 == 0 && |rightBuffer| % 2 == 0 ==>
      r == AlignChannels(CameraChannel(leftBuffer, Left).value, CameraChannel(rightBuffer, Right).value, stump)
  {
    match CameraChannel(leftBuffer, Left)
    case Err(e) => Err(e)
    case Ok(leftChannel) =>
    match CameraChannel(rightBuffer, Right)
    case Err(e) => Err(e)
    case Ok(rightChannel) => AlignChannels(leftChannel, rightChannel, stump)
  }

  /**
   * Lines 80-103: locate both impulses, cut both windows, ask for the profile,
   * pick its first least-distance row and translate it to channel indices.
   */
  function AlignChannels(leftChannel: seq<int>, rightChannel: seq<int>,
                         stump: (seq<int>, seq<int>) -> seq<ProfileRow>): (r: Result<MotifPair, SyncError>)
    ensures |leftChannel| == 0 ==> r == Err(EmptyChannel(Left))
    ensures |leftChannel| > 0 && |rightChannel| == 0 ==> r == Err(EmptyChannel(Right))
    ensures |leftChannel| > 0 && |rightChannel| > 0 ==>
      var lw := ImpulseWindow(leftChannel, FirstMaxIndex(leftChannel));
      var rw := ImpulseWindow(rightChannel, FirstMaxIndex(rightChannel));
      (|lw| < M || |rw| < M) ==> r == Err(WindowShorterThanSubsequence(|lw|, |rw|))
  {
    match ArgMax(leftChannel, Left)
    case Err(e) => Err(e)
    case Ok(leftSpike) =>
    match ArgMax(rightChannel, Right)
    case Err(e) => Err(e)
    case Ok(rightSpike) =>
    var leftWindow := ImpulseWindow(leftChannel, leftSpike);
    var rightWindow := ImpulseWindow(rightChannel, rightSpike);
    if |leftWindow| < M || |rightWindow| < M then
      Err(WindowShorterThanSubsequence(|leftWindow|, |rightWindow|))
    else
      var profile := stump(leftWindow, rightWindow);
      match ArgMinDistance(profile)
      case Err(e) => Err(e)
      case Ok(p) => Ok(MotifPairOf(profile, p, leftChannel, leftSpike, rightChannel, rightSpike))
  }

  /**
   * With a profile of the shape the library promises, alignment of two
   * non-empty channels succeeds exactly when both impulse windows hold at
   * least M samples; the empty-profile error cannot occur.
   */
  lemma AlignSucceedsExactly(leftChannel: seq<int>, rightChannel: seq<int>,
                             stump: (seq<int>, seq<int>) -> seq<ProfileRow>)
    requires StumpContract(stump)
    requires |leftChannel| > 0 && |rightChannel| > 0
    ensures AlignChannels(leftChannel, rightChannel, stump).Ok? <==>
      && M <= |ImpulseWindow(leftChannel, FirstMaxIndex(leftChannel))|
      && M <= |ImpulseWindow(rightChannel, FirstMaxIndex(rightChannel))|
  {
    var lw := ImpulseWindow(leftChannel, FirstMaxIndex(leftChannel));
    var rw := ImpulseWindow(rightChannel, FirstMaxIndex(rightChannel));
    if M <= |lw| && M <= |rw| {
      assert WellFormedProfile(stump(lw, rw), |lw|, |rw|);
    }
  }

  /**
   * On success the profile has the library's shape and the result is the
   * intended translation of its first least-distance row, so (by the contract
   * of MotifPairOf) each returned index is where the matched length-M motif
   * starts in its own channel.
   */
  lemma AlignLocatesMotif(leftChannel: seq<int>, rightChannel: seq<int>,
                          stump: (seq<int>, seq<int>) -> seq<ProfileRow>)
    requires StumpContract(stump)
    requires AlignChannels(leftChannel, rightChannel, stump).Ok?
    ensures |leftChannel| > 0 && |rightChannel| > 0
    ensures var ls, rs := FirstMaxIndex(leftChannel), FirstMaxIndex(rightChannel);
      var leftWindow, rightWindow := ImpulseWindow(leftChannel, ls), ImpulseWindow(rightChannel, rs);
      var profile := stump(leftWindow, rightWindow);
      && WellFormedProfile(profile, |leftWindow|, |rightWindow|)
      && |profile| > 0
      && AlignChannels(leftChannel, rightChannel, stump) ==
         Ok(MotifPairOf(profile, FirstMinIndex(profile), leftChannel, ls, rightChannel, rs))
  {
    var ls, rs := FirstMaxIndex(leftChannel), FirstMaxIndex(rightChannel);
    var lw, rw := ImpulseWindow(leftChannel, ls), ImpulseWindow(rightChannel, rs);
    assert WellFormedProfile(stump(lw, rw), |lw|, |rw|);
  }

  /**
   * When both impulses lie at least HALF_WIDTH samples into their channels,
   * the indices are the source's own arithmetic: the profile row plus
   * `spike - 10000` on the left, the neighbour plus `spike - 10000` on the right.
   */
  lemma AlignOnInteriorImpulses(leftChannel: seq<int>, rightChannel: seq<int>,
                                stump: (seq<int>, seq<int>) -> seq<ProfileRow>)
    requires StumpContract(stump)
    requires |leftChannel| > 0 && HALF_WIDTH <= FirstMaxIndex(leftChannel)
    requires |rightChannel| > 0 && HALF_WIDTH <= FirstMaxIndex(rightChannel)
    ensures var ls, rs := FirstMaxIndex(leftChannel), FirstMaxIndex(rightChannel);
      var profile := stump(ImpulseWindow(leftChannel, ls), ImpulseWindow(rightChannel, rs));
      && |profile| > 0
      && AlignChannels(leftChannel, rightChannel, stump) ==
         Ok(MotifPairAsWritten(profile, FirstMinIndex(profile), ls, rs))
  {
    var ls, rs := FirstMaxIndex(leftChannel), FirstMaxIndex(rightChannel);
    WindowCentredOnImpulse(leftChannel, ls);
    WindowCentredOnImpulse(rightChannel, rs);
    var lw, rw := ImpulseWindow(leftChannel, ls), ImpulseWindow(rightChannel, rs);
    assert WellFormedProfile(stump(lw, rw), |lw|, |rw|);
    AsWrittenAgrees(stump(lw, rw), FirstMinIndex(stump(lw, rw)), leftChannel, ls, rightChannel, rs);
  }
}
