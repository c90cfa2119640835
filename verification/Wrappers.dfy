/** What all modules share: the result types, and choosing elements of a sequence. */
module Wrappers {

  datatype Option<+T> = None | Some(value: T) {
    function GetOr(default: T): T {
      match this
      case Some(v) => v
      case None => default
    }
  }

  datatype Result<+T> = Ok(value: T) | Err(error: string)

  /** The elements with a property, in order. */
  ghost function Chosen<C>(cs: seq<C>, keep: C -> bool): seq<C> {
    if cs == [] then []
    else
      var n := |cs| - 1;
      Chosen(cs[..n], keep) + (if keep(cs[n]) then [cs[n]] else [])
  }
}
