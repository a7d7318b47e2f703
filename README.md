# Gopro-Sync alignment core, modelled in Dafny

Gopro-Sync lines up two clips of the same event by finding a shared audio
impulse (a clap) in both. This project models the integer and string logic of
`Gopro-Sync/goprosync.py`:

- `pcm.dfy`: the WAV frame bytes are decoded into signed 16-bit little-endian
  samples (`np.frombuffer(..., dtype=np.int16)`). This decoding fails on an odd
  number of bytes.
- `channels.dfy`: the channel split. The left camera keeps the odd positions
  (`[1::2]`) and the right camera keeps the even ones (`[0::2]`). Neither slice
  checks that the length is even.
- `impulse.dfy`: the impulse is numpy's `argmax`. This is the first index of
  the largest signed value. An empty channel is an error.
- `window.dfy`: the window `channel[spike-10000 : spike+10000]`, following
  Python's slice rules exactly.
- `motif.dfy`: the matrix profile is an abstract sequence of rows, each a
  (distance, nearest-neighbour index) pair. This file covers the first
  least-distance row (`argmin`) and the offset arithmetic that maps the row
  back to channel indices.
- `sync.dfy`: the pipeline from the two byte buffers to the two motif indices.
  The library that computes the matrix profile is a parameter `stump`. The
  shape of its output is the hypothesis `StumpContract`.
- `command_line.dfy`: the argument-count check and `argument_parser`. Every
  `exit()` becomes a `CliError` value. `os.path.isfile` and `os.path.isdir`
  are passed in as predicates.
- `outcome.dfy`: the `Result` type and the errors of the alignment stage.

Some behaviours of the code are easy to misread:

- The impulse is the largest signed sample, not the sample of largest
  magnitude.
- Nothing rejects an odd-length channel. Only an odd-length byte buffer is an
  error, raised by `np.frombuffer`.
- The start of the window is not clamped to 0: a negative start counts from
  the end of the channel, and only a start below minus the length is raised
  to 0. Near the start of a long channel this gives an empty window
  (`Window.WindowNearStartIsEmpty`). A stop past the end is lowered to the
  length, so a window near the end is cut there (`Window.WindowAtEnd`).
- There is no separate error for an insufficient window. A window shorter
  than `m = 10000` is rejected only by the matrix-profile library's own
  window-size check (`WindowShorterThanSubsequence`).
- There is no confidence threshold on the match.

The pipeline in `sync.dfy` translates the chosen profile row with the
corrected offsets of `Motif.MotifPairOf`, not the source's raw arithmetic.
The two differ on one input only, described under "## Findings".

## Model

| member | source | states |
|---|---|---|
| Pcm.SampleOf | Gopro-Sync/goprosync.py:52-53 | a sample is the int16 congruent to `lo + 256*hi` modulo 65536, negative exactly when `hi >= 128` |
| Pcm.BytesOf | Gopro-Sync/goprosync.py:52-53 | every int16 has a little-endian byte pair that decodes back to it |
| Pcm.BytesOfSampleOf | Gopro-Sync/goprosync.py:52-53 | re-encoding a decoded byte pair gives back the same pair |
| Pcm.DecodeSamples | Gopro-Sync/goprosync.py:52-53 | a buffer of `2k` bytes decodes to `k` samples, where sample `k` comes from bytes `2k` and `2k+1` |
| Pcm.FromBuffer | Gopro-Sync/goprosync.py:52-53 | fails exactly on an odd-length buffer; otherwise gives `len/2` samples in `[-32768, 32767]`, each decoded from its own byte pair |
| Pcm.Encode | Gopro-Sync/goprosync.py:52-53 | the inverse encoding writes two bytes per sample |
| Pcm.DecodeEncode | Gopro-Sync/goprosync.py:52-53 | decoding the encoding of any sample sequence gives it back |
| Pcm.EncodeDecode | Gopro-Sync/goprosync.py:52-53 | encoding the decoding of any even-length buffer gives it back |
| Channels.EvenSamples | Gopro-Sync/goprosync.py:75 | `a[0::2]` has `ceil(n/2)` elements, element `j` being `a[2j]` |
| Channels.OddSamples | Gopro-Sync/goprosync.py:74 | `a[1::2]` has `floor(n/2)` elements, element `j` being `a[2j+1]` |
| Channels.Interleave | Gopro-Sync/goprosync.py:74-75 | re-interleaving two parts whose lengths differ by at most one gives as many elements as the two parts hold together |
| Channels.InterleaveSplit | Gopro-Sync/goprosync.py:74-75 | the two slices lose nothing: interleaving them rebuilds any array, of odd or even length |
| Channels.SplitInterleave | Gopro-Sync/goprosync.py:74-75 | slicing an interleaving gives back both of its parts |
| Impulse.FirstMaxIndex | Gopro-Sync/goprosync.py:80-81 | a valid index whose value is at least every value and strictly greater than every earlier one |
| Impulse.FirstMaxUnique | Gopro-Sync/goprosync.py:80-81 | the first maximum is unique, so the contract above determines argmax |
| Impulse.ArgMax | Gopro-Sync/goprosync.py:80-81 | fails exactly on an empty channel; otherwise gives the first position of the largest signed value |
| Impulse.ArgMaxOfConstant | Gopro-Sync/goprosync.py:80-81 | a constant signal has its impulse at index 0 |
| Impulse.ArgMaxOfSpike | Gopro-Sync/goprosync.py:80-81 | a single dominant sample is where the impulse is found |
| Window.SliceBound | Gopro-Sync/goprosync.py:94-95 | a slice bound counts from the end when negative, is then raised to 0, and is lowered to the length when past the end |
| Window.PySlice | Gopro-Sync/goprosync.py:94-95 | a slice has `max(0, stop'-start')` elements, element `k` being `s[start'+k]`, and never fails |
| Window.ImpulseWindow | Gopro-Sync/goprosync.py:83-95 | the window holds at most 20000 samples, and element `k` is the channel sample at the window's real origin plus `k` |
| Window.WindowOrigin | Gopro-Sync/goprosync.py:83-95 | the real start lies within the channel, and equals `spike-10000` when that bound is in range |
| Window.FullWindow | Gopro-Sync/goprosync.py:83-95 | with `10000 <= spike` and `spike+10000 <= len`, the window is exactly `channel[spike-10000 .. spike+10000]`, i.e. 20000 samples |
| Window.WindowAtEnd | Gopro-Sync/goprosync.py:83-95 | when only the end overruns, the window is `channel[spike-10000 ..]`, i.e. between 10000 and 20000 samples |
| Window.WindowCentredOnImpulse | Gopro-Sync/goprosync.py:83-95 | when the start bound is not negative, the impulse sits at window position 10000 |
| Window.WindowNearStartIsEmpty | Gopro-Sync/goprosync.py:83-95 | an impulse within 10000 samples of the start of a channel of at least 20000 samples gives an empty window |
| Motif.FirstMinIndex | Gopro-Sync/goprosync.py:101 | the first row whose distance is at most every distance and strictly less than every earlier one |
| Motif.ArgMinDistance | Gopro-Sync/goprosync.py:101 | fails exactly on an empty profile; otherwise gives the first least-distance row |
| Motif.MotifPairAsWritten | Gopro-Sync/goprosync.py:101-103 | the source's arithmetic: the row and its neighbour, each shifted by the raw start `spike-10000` |
| Motif.MotifPairOf | Gopro-Sync/goprosync.py:101-103 | for a well-shaped profile, the results are valid motif starts, and the length-10000 channel pieces they name are the matched pieces of the two windows |
| Motif.WindowSliceInChannel | Gopro-Sync/goprosync.py:94-103 | a piece of a window is the same piece of the channel, shifted by the window's real origin |
| Motif.AdequateWindowNegativeStart | Gopro-Sync/goprosync.py:83-98 | a window with at least `m` samples has a negative raw start exactly when the channel has 10000 samples and the impulse is at sample 0 |
| Motif.AsWrittenAgrees | Gopro-Sync/goprosync.py:101-103 | when both raw starts are non-negative, the source's offsets are the intended ones |
| Motif.AsWrittenMisplacesShortChannel | Gopro-Sync/goprosync.py:83-103 | for a 10000-sample channel whose first sample is the impulse, the source gives left index -10000 where the motif starts at 0 |
| Sync.CameraChannel | Gopro-Sync/goprosync.py:52-75 | fails exactly on an odd buffer; the left channel is the second sample of every 4-byte frame and the right channel the first |
| Sync.SyncIndices | Gopro-Sync/goprosync.py:52-103 | an odd left buffer is reported before an odd right one; otherwise the result is the alignment of the two camera channels |
| Sync.AlignChannels | Gopro-Sync/goprosync.py:80-103 | an empty left channel is reported, then an empty right one, then a window shorter than `m` on either side |
| Sync.AlignSucceedsExactly | Gopro-Sync/goprosync.py:80-101 | given a well-shaped profile, alignment succeeds if and only if both impulse windows hold at least `m` samples |
| Sync.AlignLocatesMotif | Gopro-Sync/goprosync.py:94-103 | on success, the profile is well shaped and the result is the corrected translation of its first least-distance row |
| Sync.AlignOnInteriorImpulses | Gopro-Sync/goprosync.py:83-103 | with both impulses at least 10000 samples into their channels, the result is exactly the source's `p + spike - 10000` and `neighbour + spike - 10000` |
| CommandLine.IsAcceptableFlag | Gopro-Sync/goprosync.py:118-131 | a flag is acceptable exactly when it is `--left`, `--right` or `--out` |
| CommandLine.ThreeDistinct | Gopro-Sync/goprosync.py:133 | the test `len(set([a, b, c])) != 3` is the test that the three flags are not pairwise distinct |
| CommandLine.LastFour | Gopro-Sync/goprosync.py:179-184 | `s[-4:]` is the suffix of length `min(4, len)` |
| CommandLine.IsMp4Name | Gopro-Sync/goprosync.py:179-184 | the suffix test accepts exactly the names of at least four characters that end in `.mp4` or `.MP4` |
| CommandLine.AssignPaths | Gopro-Sync/goprosync.py:138-165 | in all six orderings of valid flags, each path is the value paired with its own flag |
| CommandLine.ParseArguments | Gopro-Sync/goprosync.py:115-186 | success implies valid distinct flags, the assigned paths, two files and a directory, and two mp4 names |
| CommandLine.ParseCommandLine | Gopro-Sync/goprosync.py:188-197 | anything but seven entries is a count error; otherwise the parser decides |
| CommandLine.ParseCommandLineExactly | Gopro-Sync/goprosync.py:118-197 | accepted if and only if there are 7 entries, the flags are a permutation of the three, left and right are mp4 files and out is a directory; the returned paths are the values paired with their flags |
| CommandLine.UnacceptableFlagFirst | Gopro-Sync/goprosync.py:123-135 | an unacceptable flag is reported ahead of any duplicate or path error, and it is the first unacceptable one of `argv[1]`, `argv[3]`, `argv[5]` |
| CommandLine.PathErrorOrder | Gopro-Sync/goprosync.py:167-186 | with valid flags, the first failing check in the order left file, right file, out directory, left mp4, right mp4 decides the error; if none fails, the assigned paths are returned |
| CommandLine.RepeatedFlagsAreDuplicates | Gopro-Sync/goprosync.py:133-135 | acceptable but repeated flags give the duplicate-flags error |
| CommandLine.ParseIgnoresPairOrder | Gopro-Sync/goprosync.py:138-186 | two argument lists that pair the same values with the same flags parse to the same outcome, whatever the order of the pairs |

## Findings

| source | as written | input that shows it | evidently intended | confidence | as-written member | corrected member |
|---|---|---|---|---|---|---|
| Gopro-Sync/goprosync.py:101-103 | each motif index is shifted by the raw `spike - 10000`, even when Python's slicing started the window elsewhere | a left channel of exactly 10000 samples whose largest value is its first sample. The window is the whole channel and the profile has one row, so the result is left index -10000 | shift by the position the window really starts at, giving 0 | not executed. For stereo input the later `times_left[...]` lookup wraps -10000 back to 0, so the trimmed video is unaffected; the integer index is still wrong | Motif.MotifPairAsWritten (shown by Motif.AsWrittenMisplacesShortChannel) | Motif.MotifPairOf |

`Motif.AdequateWindowNegativeStart` shows this is the only situation that
matters. Every other window with a negative raw start is shorter than `m` and
is refused before the offsets are computed. `Motif.AsWrittenAgrees` shows the
two definitions agree everywhere else.

## Left out

- Video and audio I/O is not modelled: `VideoFileClip`, `write_audiofile`, `wave.open`, `readframes`, `subclip` and `write_videofile`. These are foreign library calls and file effects. The model starts from the frame byte buffers.
- The temporary `.temp` directory (`os.mkdir`, `unlink`, `rmdir`) is not modelled. It is filesystem plumbing.
- The body of `stumpy.stump` is not modelled. It is a foreign floating-point z-normalised distance computation. It is the parameter `stump`, and its output shape is a lemma hypothesis (`Sync.StumpContract`).
- The profile distances are modelled as reals. NaN and infinities are not modelled, and neither is numpy's treatment of NaN in `argmin`.
- `np.linspace` timestamps and the `times_left[...]`/`times_right[...]` lookups are not modelled. They are floating-point numerics. The model stops at integer sample indices.
- `Path(out_path, "left_trimmed.mp4")` and the final call to `gopro_sync` are not modelled. They are path joining and I/O.
- `print` messages are not modelled. Each `exit()` is an error value carrying the flag or path the message names.
- `os.path.isfile` and `os.path.isdir` are predicate parameters. Their real behaviour is not modelled.
- The unused `matplotlib` import is not modelled.
- An empty byte buffer is modelled as decoding to no samples. Older numpy versions raise on an empty buffer instead. Either way, the empty channel that follows is an error.
- Pcm.FromBuffer: models a little-endian host only.
- Sync.AlignChannels: uses the corrected offsets `Motif.MotifPairOf` instead of the raw `spike - 10000` of lines 102-103. The results differ only for a channel of exactly 10000 samples whose impulse is sample 0. There the source gives -10000 and the model gives 0 (see "## Findings"). Everywhere else, `Sync.AlignOnInteriorImpulses` and `Motif.AsWrittenAgrees` show the model computes the source's values.
- Sync.AlignLocatesMotif: states the corrected translation, for the same reason and with the same single differing input as `Sync.AlignChannels`.
