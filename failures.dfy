/** Optional values, the errors the parser can throw, and a failure-compatible Result. */
module Failures {

  /** `None` stands for JavaScript's `undefined` (or `null`, where noted). */
  datatype Option<+T> = None | Some(value: T)

  /** The exceptions the parser can raise. */
  datatype Error =
      /** `lines[i]` is undefined and `.split` is called on it (a TypeError). */
    | UndefinedLine(index: nat)
      /** `parts[k]` is undefined and `.split` is called on it (a TypeError). */
    | UndefinedField(field: nat)
      /** `AnalogChannel.SanityCheck` found an undefined field. */
    | AnalogChannelSanity
      /** `StatusChannel.SanityCheck` found an undefined field. */
    | StatusChannelSanity
      /** `Configuration.SanityCheck` found an undefined field. */
    | ConfigurationSanity
      /** A Buffer read at `offset` runs outside the buffer (a RangeError). */
    | OutOfRange(offset: int)

  datatype Result<+T> = Success(value: T) | Failure(error: Error) {
    predicate IsFailure() {
      Failure?
    }

    function PropagateFailure<U>(): Result<U>
      requires Failure?
    {
      Failure(error)
    }

    function Extract(): T
      requires Success?
    {
      value
    }
  }

  /** Element `i` of `s`, or undefined when `s` is too short (JavaScript array indexing). */
  function At<T>(s: seq<T>, i: nat): (r: Option<T>)
    ensures r.Some? <==> i < |s|
    ensures r.Some? ==> r.value == s[i]
  {
    if i < |s| then Some(s[i]) else None
  }
}
