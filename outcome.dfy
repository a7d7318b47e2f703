/** Success-or-error values standing in for the source's exceptions and `exit()` calls. */
module Outcome {

  datatype Result<+T, +E> = Ok(value: T) | Err(error: E)

  /** Which camera an error is about. */
  datatype Side = Left | Right

  /** The failures of the alignment stage, each one a Python exception in the source. */
  datatype SyncError =
    | BufferNotMultipleOfSampleSize(side: Side)   // np.frombuffer on an odd number of bytes
    | EmptyChannel(side: Side)                    // argmax of an empty array
    | WindowShorterThanSubsequence(leftLength: nat, rightLength: nat)  // stumpy's window-size check
    | EmptyProfile                                // argmin of an empty matrix profile
}
