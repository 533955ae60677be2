/** Option and Result, the two failure-compatible wrappers the rest of the model uses.
    `None` stands for a pandas NaN (or an infinite value coming out of a float division);
    `Err` stands for an exception the source raises. */
module Wrappers {

  datatype Option<+T> = None | Some(value: T) {
    /** The value, or `default` when there is none. */
    function GetOr(default: T): T {
      match this
      case Some(v) => v
      case None => default
    }
  }

  datatype Result<+T, +E> = Ok(value: T) | Err(error: E)

  /** `f` applied to every element, in order. */
  function MapSeq<A, B>(s: seq<A>, f: A -> B): (r: seq<B>)
    ensures |r| == |s| && forall k :: 0 <= k < |s| ==> r[k] == f(s[k])
  {
    seq(|s|, k requires 0 <= k < |s| => f(s[k]))
  }
}

/** The exceptions the modelled code can raise, by their Python names. */
module Errors {
  datatype PyError =
    | ValueError
    | KeyError
    | IndexError
    | TypeError
    | AttributeError
    | ZeroDivisionError
    | NotImplementedError
    | UnboundLocalError
}
