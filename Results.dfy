/** Failure values of the configuration parser and the shape of a parse step.

    The original code reports every structural violation through an assertion
    macro that throws; here each such point yields `Fail(e)` with one of the
    kinds below, and the failure travels to the caller through `:-`. */
module Results {

  /** Why a parse or a query failed. */
  datatype Error =
    | ReaderExhausted          // a read or a seek went past the end of the buffer
    | ValueOutOfRange          // an escaped value did not fit into 32 bits
    | InvalidLayoutIndex       // CICPspeakerLayoutIdx without a NUM_SPEAKERS entry
    | InvalidSignalGroupType   // signalGroupType >= 4
    | InvalidFrameLengthIndex  // coreSbrFrameLengthIndex > 4
    | InvalidChannelCount      // a channel pair element with fewer than two channels
    | MalformedExtension       // fill or audio pre-roll extension element with a config length
    | NotImplemented           // sbrConfig() and mps121Config() are not implemented
    | TrailingData             // 8 or more bits left after the configuration
    | EmptyInput               // addConfig was given an empty buffer
    | NoValidConfig            // a query on a parser without a valid configuration

  datatype Result<+T> = Ok(value: T) | Fail(error: Error) {
    predicate IsFailure() { Fail? }

    function PropagateFailure<U>(): Result<U>
      requires Fail?
    {
      Fail(error)
    }

    function Extract(): T
      requires Ok?
    {
      value
    }
  }

  /** A parsed item together with the bit position right after it. */
  datatype Parsed<+T> = Parsed(item: T, next: nat)

  /** `res` and the cursor `pos` are what the specification `spec` says a
      parse step yields: the item and the next position on success, the same
      error on failure. */
  predicate Matches<T(==)>(res: Result<T>, spec: Result<Parsed<T>>, pos: nat)
  {
    match spec
    case Ok(p) => res == Ok(p.item) && pos == p.next
    case Fail(e) => res == Fail(e)
  }
}
