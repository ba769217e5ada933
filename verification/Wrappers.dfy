/** Failure-compatible result types shared by every component. */
module Wrappers {

  datatype Option<+T> = None | Some(value: T)

  /** The library's public error contract, without the message texts. */
  datatype PackagerError =
    | Io
    | UnsupportedBrand
    | MissingAtom
    | MalformedAtom
    | UnsupportedTrackLayout(video: nat, audio: nat)
    | UnsupportedVideoCodec
    | UnsupportedAudioCodec
    | FragmentedInput
    | EncryptedInput
    | SampleTableInconsistent
    | IndexMagicMismatch
    | MalformedIndexDirectory
    | MalformedIndexSection
    | SegmentIndexOutOfRange(idx: nat, count: nat)

  datatype Result<+T> = Ok(value: T) | Err(error: PackagerError) {

    predicate IsFailure() {
      Err?
    }

    function PropagateFailure<U>(): Result<U>
      requires Err?
    {
      Err(error)
    }

    function Extract(): T
      requires Ok?
    {
      value
    }
  }
}
