/** What the models share: an option type, bytes, the states of a bytestream, and the list operations
    of GLib that the sources use on their queues. */
module Common {

  datatype Option<+T> = None | Some(value: T)

  type Byte = b: int | 0 <= b < 256
  type Bytes = seq<Byte>

  /** `GabbleBytestreamState` */
  datatype StreamState = LocalPending | Accepted | Initiating | Open | Closing | Closed

  /** `g_queue_remove`: drops the first occurrence of `x`, if any. */
  function RemoveFirst<T(==,!new)>(q: seq<T>, x: T): (r: seq<T>)
    ensures forall y :: y != x ==> (y in r <==> y in q)
    ensures |r| == if x in q then |q| - 1 else |q|
    ensures x !in q ==> r == q
  {
    if q == [] then []
    else if q[0] == x then q[1..]
    else [q[0]] + RemoveFirst(q[1..], x)
  }

  ghost predicate Distinct<T(!new)>(q: seq<T>) {
    forall i, j :: 0 <= i < j < |q| ==> q[i] != q[j]
  }

  /** On a queue without repetitions, `g_queue_remove` removes the member altogether. */
  lemma {:induction false} RemoveFromDistinct<T(!new)>(q: seq<T>, x: T)
    requires Distinct(q)
    ensures Distinct(RemoveFirst(q, x))
    ensures x !in RemoveFirst(q, x)
  {
    if q != [] && q[0] != x {
      RemoveFromDistinct(q[1..], x);
      assert q[0] !in RemoveFirst(q[1..], x);
    }
  }
}
