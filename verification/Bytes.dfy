/** Octets, and the optional values used where the program has None. */
module Bytes {
  type byte = b: int | 0 <= b < 256

  /** Some element of a set. */
  ghost function Any<T>(s: set<T>): (x: T)
    requires s != {}
    ensures x in s
  {
    var x :| x in s; x
  }

  /** The next element of an iteration over a set, in any order. */
  method Pick<T>(s: set<T>) returns (x: T)
    requires s != {}
    ensures x in s
  {
    x :| x in s;
  }

  datatype Option<+T> = None | Some(value: T)

  /** Forgetting the oldest of distinct remembered things, in the list of them and in the set. */
  lemma WithoutFirst<T>(order: seq<T>, known: set<T>)
    requires order != [] && forall k :: k in known <==> k in order
    requires forall i, j :: 0 <= i < j < |order| ==> order[i] != order[j]
    ensures forall k :: k in order[1..] <==> k in known - {order[0]}
  {
    var rest := order[1..];
    assert order == [order[0]] + rest;
    forall k | k in rest
      ensures k != order[0]
    {
      var i :| 0 <= i < |rest| && rest[i] == k;
      assert order[i + 1] == k;
    }
  }
}
