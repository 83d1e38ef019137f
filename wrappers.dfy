/** Rust's `Option` and `Result`, with the two `Option` combinators the program uses. */
module Wrappers {

  datatype Option<T> = None | Some(value: T) {

    /** `Option::or`: this value when present, otherwise `other`. */
    function Or(other: Option<T>): Option<T>
    {
      if Some? then this else other
    }

    /** `Option::unwrap_or`: the value when present, otherwise `default`. */
    function UnwrapOr(default: T): T
    {
      if Some? then value else default
    }
  }

  datatype Result<T, E> = Ok(value: T) | Err(error: E)

  /** The first present value of a list of precedence tiers, highest first. */
  function FirstPresent<T>(tiers: seq<Option<T>>): (r: Option<T>)
    ensures r.Some? <==> exists k :: 0 <= k < |tiers| && tiers[k].Some?
    ensures r.Some? ==> exists k :: 0 <= k < |tiers| && tiers[k] == r
                                    && forall j :: 0 <= j < k ==> tiers[j].None?
  {
    if tiers == [] then None
    else if tiers[0].Some? then tiers[0]
    else
      var r := FirstPresent(tiers[1..]);
      assert forall k :: 1 <= k < |tiers| ==> tiers[k] == tiers[1..][k - 1];
      r
  }

  function Max(a: int, b: int): int
  {
    if a < b then b else a
  }

  function Min(a: int, b: int): int
  {
    if a < b then a else b
  }
}
