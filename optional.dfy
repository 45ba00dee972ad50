/** Optional values, standing for JavaScript properties that may be missing (undefined). */
module Optional {

  datatype Option<+T> = None | Some(value: T)
  {
    /** The value, or `default` when it is missing: a destructuring default. */
    function GetOr(default: T): T {
      match this
      case Some(v) => v
      case None => default
    }
  }

  /** JavaScript's `value || fallback` for a number that may be missing: both a missing
      value and 0 are falsy, so both give the fallback; every other number is kept. */
  function NumberOr(value: Option<int>, fallback: int): (r: int)
    ensures r == fallback || value == Some(r)
    ensures value.Some? && value.value != 0 ==> r == value.value
    ensures fallback != 0 ==> r != 0
  {
    match value
    case Some(v) => if v != 0 then v else fallback
    case None => fallback
  }
}
