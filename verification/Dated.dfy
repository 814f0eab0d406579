/** What was kept for a key, and when: the histories of the response caches. */
module Dated {
  import opened Bytes

  datatype Dated<+K, +V> = Dated(key: K, at: int, value: V)

  /** The last place where the key was kept. */
  function Latest<K(==), V>(h: seq<Dated<K, V>>, key: K): (r: Option<nat>)
    ensures r.Some? ==> r.value < |h| && h[r.value].key == key
  {
    if h == [] then None
    else if h[|h| - 1].key == key then Some(|h| - 1)
    else Latest(h[..|h| - 1], key)
  }

  /** In the order of their times, none later than `now`. */
  ghost predicate InTime<K, V>(h: seq<Dated<K, V>>, now: int) {
    (forall i, j :: 0 <= i <= j < |h| ==> h[i].at <= h[j].at) && forall i :: 0 <= i < |h| ==> h[i].at <= now
  }
}
