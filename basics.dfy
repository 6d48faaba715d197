/** Shared vocabulary of the model: optional values, document ids, the outcome
    of a request handler, and the way a store round trip can fail. */
module Basics {

  /** A field that may be absent from a document (`undefined` or `null`). */
  datatype Option<+T> = None | Some(value: T)

  /** A document id (a MongoDB ObjectId). Only equality and an order are used. */
  type Id = nat

  /** What a request handler answers: 404, 400, 500 or a success carrying a payload. */
  datatype Response<+T> = NotFound | Conflict | Internal | Ok(value: T)

  /** Whether the document store is reachable. The round trips a handler makes are
      numbered from 0 in the order it awaits them; `FailsAt(k)` makes the k-th one
      throw (an unreachable store, a malformed id that Mongoose cannot cast), which
      every handler catches and answers with `Internal`. */
  datatype StoreFault = Healthy | FailsAt(call: nat)

  /** Mongoose's `required` check for a String path: the value is present and not empty. */
  predicate RequiredString(s: Option<string>) {
    s.Some? && s.value != ""
  }

  /** The least element of a non-empty set of ids. */
  function Least(s: set<Id>): (m: Id)
    requires s != {}
    ensures m in s
    ensures forall y | y in s :: m <= y
  {
    ghost var _ := MinOf(s);
    var m :| m in s && (forall y | y in s :: m <= y); m
  }

  /** A witness for `Least`: the minimum, found by removing one element at a time. */
  ghost function MinOf(s: set<Id>): (m: Id)
    requires s != {}
    ensures m in s
    ensures forall y | y in s :: m <= y
  {
    var x :| x in s;
    if s == {x} then x
    else
      var m := MinOf(s - {x});
      assert forall y | y in s && y != x :: y in s - {x};
      if x < m then x else m
  }

  /** A strict upper bound of a finite set of ids; it shows that an unused id exists. */
  ghost function Bound(s: set<Id>): (b: Id)
    ensures forall x | x in s :: x < b
  {
    if s == {} then 0
    else
      var x :| x in s;
      var b := Bound(s - {x});
      assert forall y | y in s && y != x :: y in s - {x};
      if x < b then b else x + 1
  }
}
