/** Option and Result types, and the Python exception classes that the modelled
    code raises. A Python `raise` becomes an `Err` value; the caller that would
    let the exception propagate returns the same `Err`. Also `NoDup`, which
    says that a sequence lists no element twice, `Without`, and `PickKey`. */
module Wrappers {

  datatype Option<T> = None | Some(value: T)

  /** The exception classes raised by the modelled code. `EndOfData` is the
      engine's own `EndOfDataError`; `Incomplete` is the codec's
      `MsgIncompleteError`. */
  datatype Error =
    | ValueError
    | KeyError
    | IndexError
    | TypeError
    | AttributeError
    | NotImplementedError
    | RuntimeError
    | OverflowError
    | ZeroDivisionError
    | ConnectionResetError
    | EndOfData
    | Incomplete

  datatype Result<T> = Ok(value: T) | Err(error: Error) {

    predicate IsFailure() {
      Err?
    }

    function PropagateFailure<U>(): Result<U>
      requires Err?
    {
      Err(error)
    }

    function Extract(): T
      requires Ok?
    {
      value
    }
  }

  /** No integer occurs twice. */
  predicate NoDup(q: seq<int>) {
    forall i, j :: 0 <= i < j < |q| ==> q[i] != q[j]
  }

  /** `q` without `k`: what removing a key leaves of a key order. */
  function {:induction false} Without(q: seq<int>, k: int): (r: seq<int>)
    ensures forall x :: x in r <==> x in q && x != k
    ensures forall i :: 0 <= i < |r| ==> r[i] in q && r[i] != k
    ensures NoDup(q) ==> NoDup(r)
  {
    if q == [] then []
    else
      var rest := Without(q[1..], k);
      assert forall x :: x in q[1..] ==> x in q;
      assert NoDup(q) ==> q[0] !in q[1..] && NoDup(q[1..]);
      if q[0] == k then rest else [q[0]] + rest
  }

  /** Some element of a non-empty set: the next element a loop over a set or
      over the keys of a dict visits, when its order does not matter. */
  method PickKey(s: set<int>) returns (k: int)
    requires s != {}
    ensures k in s
  {
    NonEmpty(s);
    k :| k in s;
  }

  lemma NonEmpty(s: set<int>)
    requires s != {}
    ensures exists x :: x in s
  {
    if forall x :: x !in s {
      assert false;
    }
  }
}
