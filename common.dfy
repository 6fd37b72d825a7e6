/** Failure-carrying wrappers shared by every module of the model. */
module Common {

  /** A value that may be missing (`undefined` or `null` on the JavaScript side). */
  datatype Option<+T> = None | Some(value: T) {
    function GetOr(default: T): T {
      match this
      case Some(v) => v
      case None => default
    }
  }

  /** The outcome of an operation that can throw: a value or the error it throws. */
  datatype Result<+T, +E> = Ok(value: T) | Err(error: E)

  function Min(a: int, b: int): int { if a <= b then a else b }
  function Max(a: int, b: int): int { if a >= b then a else b }

  /** `Math.min(hi, Math.max(lo, x))` */
  function Clamp(lo: int, hi: int, x: int): (r: int)
    requires lo <= hi
    ensures lo <= r <= hi
    ensures lo <= x <= hi ==> r == x
    ensures x < lo ==> r == lo
    ensures x > hi ==> r == hi
  {
    if x < lo then lo else if x > hi then hi else x
  }
}

/** The three-level verdict (`"Low" | "Medium" | "High"`) of the text analysers and saved analyses. */
module Verdicts {
  datatype Verdict = Low | Medium | High

  function VerdictName(v: Verdict): string {
    match v
    case Low => "Low"
    case Medium => "Medium"
    case High => "High"
  }
}
