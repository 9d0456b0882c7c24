/** Option and Result values for lookups that may miss and operations that may raise. */
module Wrappers {
  datatype Option<T> = None | Some(value: T)
  {
    function UnwrapOr(default: T): (r: T)
      ensures this.Some? ==> r == value
      ensures this.None? ==> r == default
    {
      if this.Some? then value else default
    }
  }

  /** A set of positive size has an element (what `var x :| x in s` needs). */
  lemma NonEmptyHasElement<T>(s: set<T>)
    requires |s| > 0
    ensures exists x :: x in s
  {
    if forall x :: x !in s {
      assert false;
    }
  }

  /** An element of a set of positive size, to serve as a witness for `:|`. */
  lemma Pick<T>(s: set<T>) returns (x: T)
    requires |s| > 0
    ensures x in s
  {
    NonEmptyHasElement(s);
    x :| x in s;
  }

  /** The outcome of an operation that raises an exception (`Err`) in the source. */
  datatype Result<T> = Ok(value: T) | Err(error: string)
}
