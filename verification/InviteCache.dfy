/**
 The cache of final INVITE responses: an ordered map, oldest first, purged from the front.  What a caller sees is a
 question about the history alone: the last response remembered for a transaction, while it is under 32 s old and
 fewer than 256 other transactions have been remembered since.
 */
module InviteCache {
  import opened Bytes
  import opened Dated

  type Key = string

  const LIFETIME := 32
  const CAPACITY := 256

  /** A response remembered at a time, in whole units of the monotonic clock. */
  type Entry = Dated<Key, string>

  // ------------------------------------------------------------------ what the history says

  /** The keys remembered after place `i`. */
  function NewerKeys(h: seq<Entry>, i: nat): set<Key> {
    set j | i < j < |h| :: h[j].key
  }

  function Answer(h: seq<Entry>, key: Key, now: int): Option<string> {
    match Latest(h, key)
    case None => None
    case Some(i) => if now < h[i].at + 32 && |NewerKeys(h, i)| < 256 then Some(h[i].value) else None
  }

  // ------------------------------------------------------------------ an ordered map that forgets nothing

  ghost predicate Keyed(d: seq<Entry>) {
    forall i, j :: 0 <= i < j < |d| ==> d[i].key != d[j].key
  }

  function Find(d: seq<Entry>, key: Key): (r: Option<nat>)
    ensures r.Some? ==> r.value < |d| && d[r.value].key == key
    ensures r.None? ==> forall i :: 0 <= i < |d| ==> d[i].key != key
  {
    if d == [] then None
    else if d[|d| - 1].key == key then Some(|d| - 1)
    else Find(d[..|d| - 1], key)
  }

  /** An ordered map without the key. */
  function Without(d: seq<Entry>, key: Key): seq<Entry> {
    match Find(d, key) case None => d case Some(r) => d[..r] + d[r + 1..]
  }

  /** The history with each key at its last place only. */
  function Unique(h: seq<Entry>): seq<Entry> {
    if h == [] then [] else Without(Unique(h[..|h| - 1]), h[|h| - 1].key) + [h[|h| - 1]]
  }

  function KeysOf(d: seq<Entry>): set<Key> {
    set j | 0 <= j < |d| :: d[j].key
  }

  lemma {:induction false} UniqueIsKeyed(h: seq<Entry>)
    ensures Keyed(Unique(h))
  {
    if h != [] {
      UniqueIsKeyed(h[..|h| - 1]);
      KeyedAgain(Unique(h[..|h| - 1]), h[|h| - 1]);
    }
  }

  lemma KeyedAgain(d: seq<Entry>, e: Entry)
    requires Keyed(d)
    ensures Keyed(Without(d, e.key) + [e])
  {
    var r := Find(d, e.key);
    if r.Some? {
      assert forall i :: 0 <= i < |d| && i != r.value ==> d[i].key != d[r.value].key;
    }
  }

  lemma {:induction false} KeyedCount(d: seq<Entry>)
    requires Keyed(d)
    ensures |KeysOf(d)| == |d|
  {
    if d != [] {
      var n := |d| - 1;
      KeyedCount(d[..n]);
      assert d[n].key !in KeysOf(d[..n]);
      assert KeysOf(d) == KeysOf(d[..n]) + {d[n].key} by {
        assert forall j :: 0 <= j < n ==> d[..n][j] == d[j];
      }
    }
  }

  /** Where a key is in the unique history: at its last entry, with exactly the newer keys after it. */
  ghost predicate At(h: seq<Entry>, d: seq<Entry>, key: Key) {
    match Find(d, key)
    case None => Latest(h, key) == None
    case Some(j) =>
      Latest(h, key).Some? && d[j] == h[Latest(h, key).value] && NewerKeys(h, Latest(h, key).value) == KeysOf(d[j + 1..])
  }

  lemma {:induction false} FoundAt(d: seq<Entry>, key: Key, j: nat)
    requires Keyed(d) && j < |d| && d[j].key == key
    ensures Find(d, key) == Some(j)
  {
  }

  lemma {:induction false} KeyIsAt(h: seq<Entry>, key: Key)
    ensures At(h, Unique(h), key)
  {
    hide *;
    if h == [] {
      NothingIsAt(h, key);
    } else {
      var before, e := h[..|h| - 1], h[|h| - 1];
      KeyIsAt(before, key);
      UniqueIsKeyed(before);
      AtNext(before, Unique(before), e, key);
      assert before + [e] == h;
      UniqueNext(h);
    }
  }

  lemma NothingIsAt(h: seq<Entry>, key: Key)
    requires h == []
    ensures At(h, Unique(h), key)
  {
  }

  lemma UniqueNext(h: seq<Entry>)
    requires h != []
    ensures Unique(h) == Without(Unique(h[..|h| - 1]), h[|h| - 1].key) + [h[|h| - 1]]
  {
  }

  lemma NewerNext(h: seq<Entry>, e: Entry, i: nat)
    requires i < |h|
    ensures NewerKeys(h + [e], i) == NewerKeys(h, i) + {e.key}
  {
    var all := h + [e];
    assert forall j :: i < j < |h| ==> all[j] == h[j];
    assert all[|h|] == e;
    forall k
      ensures k in NewerKeys(all, i) <==> k in NewerKeys(h, i) + {e.key}
    {
      if k in NewerKeys(h, i) {
        var j :| i < j < |h| && h[j].key == k;
        assert all[j].key == k;
      }
      if k == e.key {
        assert all[|h|].key == k;
      }
    }
  }

  lemma NothingNewer(h: seq<Entry>, d: seq<Entry>)
    requires h != [] && d != []
    ensures NewerKeys(h, |h| - 1) == {} == KeysOf(d[|d|..])
  {
  }

  lemma AtNext(h: seq<Entry>, d: seq<Entry>, e: Entry, key: Key)
    requires Keyed(d) && At(h, d, key)
    ensures At(h + [e], Without(d, e.key) + [e], key)
  {
    hide Keyed, KeysOf, NewerKeys, Find, Latest;
    var all, d' := h + [e], Without(d, e.key) + [e];
    KeyedAgain(d, e);
    LatestNext(h, e, key);
    if key == e.key {
      FoundAt(d', key, |d'| - 1);
      NothingNewer(all, d');
    } else {
      var r, f := Find(d, e.key), Find(d, key);
      if f.Some? {
        NewerNext(h, e, Latest(h, key).value);
        var j := if r.Some? && r.value < f.value then f.value - 1 else f.value;
        AfterNext(d, e, f.value, j);
        FoundAt(d', key, j);
      } else {
        StillAbsent(d, e, key);
      }
    }
  }

  lemma LatestNext(h: seq<Entry>, e: Entry, key: Key)
    ensures Latest(h + [e], key) == if e.key == key then Some(|h|) else Latest(h, key)
  {
    assert (h + [e])[..|h|] == h;
  }

  lemma StillAbsent(d: seq<Entry>, e: Entry, key: Key)
    requires Find(d, key) == None && e.key != key
    ensures Find(Without(d, e.key) + [e], key) == None
  {
    var r := Find(d, e.key);
  }

  /** The keys after an entry that stays are those that were after it, and the new one. */
  lemma AfterNext(d: seq<Entry>, e: Entry, i: nat, j: nat)
    requires Keyed(d) && i < |d| && d[i].key != e.key
    requires j == if Find(d, e.key).Some? && Find(d, e.key).value < i then i - 1 else i
    ensures var d' := Without(d, e.key) + [e]; j < |d'| && d'[j] == d[i] && KeysOf(d'[j + 1..]) == KeysOf(d[i + 1..]) + {e.key}
  {
    hide Find, Keyed, KeysOf;
    match Find(d, e.key) {
      case None =>
        assert (d + [e])[i + 1..] == d[i + 1..] + [e];
        KeysMore(d[i + 1..], e);
      case Some(r) =>
        TailWithout(d, e, i, r);
        if r < i {
          KeysMore(d[i + 1..], e);
        } else {
          KeysReplaced(d[i + 1..], r - i - 1, e);
        }
    }
  }

  lemma TailWithout(d: seq<Entry>, e: Entry, i: nat, r: nat)
    requires i < |d| && r < |d| && i != r
    ensures var d' := d[..r] + d[r + 1..] + [e];
            if r < i then d'[i - 1] == d[i] && d'[i..] == d[i + 1..] + [e]
            else d'[i] == d[i] && d'[i + 1..] == d[i + 1..][..r - i - 1] + d[i + 1..][r - i..] + [e]
  {
  }

  lemma KeysMore(d: seq<Entry>, e: Entry)
    ensures KeysOf(d + [e]) == KeysOf(d) + {e.key}
  {
    var all := d + [e];
    assert forall k :: k in KeysOf(d) ==> k in KeysOf(all) by {
      assert forall j :: 0 <= j < |d| ==> all[j] == d[j];
    }
    assert all[|d|] == e;
  }

  lemma KeysReplaced(d: seq<Entry>, x: nat, e: Entry)
    requires x < |d| && d[x].key == e.key
    ensures KeysOf(d[..x] + d[x + 1..] + [e]) == KeysOf(d) + {e.key}
  {
    var all := d[..x] + d[x + 1..] + [e];
    assert all[|all| - 1] == e;
    assert forall j :: 0 <= j < x ==> all[j] == d[j];
    assert forall j :: x <= j < |all| - 1 ==> all[j] == d[j + 1];
    forall k | k in KeysOf(d)
      ensures k in KeysOf(all)
    {
      var j :| 0 <= j < |d| && d[j].key == k;
      assert all[if j < x then j else if j == x then |all| - 1 else j - 1].key == k;
    }
  }

  lemma {:induction false} UniqueInTime(h: seq<Entry>, now: int)
    requires InTime(h, now)
    ensures InTime(Unique(h), now)
  {
    if h != [] {
      var n := |h| - 1;
      UniqueInTime(h[..n], h[n].at);
      hide Unique, Without;
      UniqueNext(h);
      InTimeNext(Unique(h[..n]), h[n], now);
    }
  }

  lemma InTimeNext(d: seq<Entry>, e: Entry, now: int)
    requires InTime(d, e.at) && e.at <= now
    ensures InTime(Without(d, e.key) + [e], now)
  {
    hide Find;
    if Find(d, e.key).Some? {
      SlicedInTime(d, Find(d, e.key).value, e.at);
      MoreInTime(Without(d, e.key), e, now);
    } else {
      MoreInTime(d, e, now);
    }
  }

  lemma MoreInTime(d: seq<Entry>, e: Entry, now: int)
    requires InTime(d, e.at) && e.at <= now
    ensures InTime(d + [e], now)
  {
  }

  lemma SlicedInTime(d: seq<Entry>, r: nat, now: int)
    requires InTime(d, now) && r < |d|
    ensures InTime(d[..r] + d[r + 1..], now)
  {
  }

  // ------------------------------------------------------------------ the cache

  /** The cache is the end of the unique history; what it has dropped is expired, or has 256 newer keys. */
  ghost predicate Trimmed(entries: seq<Entry>, d: seq<Entry>, now: int) {
    && |entries| <= |d| && entries == d[|d| - |entries|..]
    && forall i :: 0 <= i < |d| - |entries| ==> d[i].at + LIFETIME <= now || |d| - i > CAPACITY
  }

  /** Remembering keeps the cache the end of the unique history. */
  lemma TrimmedNext(entries: seq<Entry>, d: seq<Entry>, now: int, e: Entry)
    requires Keyed(d) && Trimmed(entries, d, now)
    ensures Trimmed(Without(entries, e.key) + [e], Without(d, e.key) + [e], now)
  {
    hide *;
    TrimmedMeans(entries, d, now);
    var k := |d| - |entries|;
    FoundInTail(d, k, e.key);
    WithoutIs(d, e.key);
    WithoutIs(entries, e.key);
    match Find(d, e.key) {
      case None =>
        TrimmedMore(entries, d, now, e);
      case Some(r) =>
        if r >= k {
          TrimmedReplaced(entries, d, now, e, r);
        } else {
          TrimmedRenewed(entries, d, now, e, r);
        }
    }
  }

  lemma WithoutIs(d: seq<Entry>, key: Key)
    ensures Without(d, key) == match Find(d, key) case None => d case Some(r) => d[..r] + d[r + 1..]
  {
    hide Find;
  }

  lemma KeyedTail(d: seq<Entry>, k: nat)
    requires Keyed(d) && k <= |d|
    ensures Keyed(d[k..])
  {
  }

  lemma TrimmedMore(entries: seq<Entry>, d: seq<Entry>, now: int, e: Entry)
    requires Trimmed(entries, d, now)
    ensures Trimmed(entries + [e], d + [e], now)
  {
  }

  lemma TrimmedReplaced(entries: seq<Entry>, d: seq<Entry>, now: int, e: Entry, r: nat)
    requires Trimmed(entries, d, now) && |d| - |entries| <= r < |d|
    ensures var k := |d| - |entries|;
            Trimmed(entries[..r - k] + entries[r - k + 1..] + [e], d[..r] + d[r + 1..] + [e], now)
  {
    var k, d' := |d| - |entries|, d[..r] + d[r + 1..] + [e];
    assert d'[k..] == entries[..r - k] + entries[r - k + 1..] + [e];
  }

  lemma TrimmedRenewed(entries: seq<Entry>, d: seq<Entry>, now: int, e: Entry, r: nat)
    requires Trimmed(entries, d, now) && r < |d| - |entries|
    ensures Trimmed(entries + [e], d[..r] + d[r + 1..] + [e], now)
  {
    var k, d' := |d| - |entries|, d[..r] + d[r + 1..] + [e];
    assert d'[k - 1..] == entries + [e];
    forall i | 0 <= i < k - 1
      ensures d'[i].at + LIFETIME <= now || |d'| - i > CAPACITY
    {
      assert d'[i] == d[if i < r then i else i + 1];
    }
  }

  /** The front of the cache may go when it has expired, or when there are more than 256 entries. */
  lemma DropsFront(entries: seq<Entry>, d: seq<Entry>, now: int)
    requires Trimmed(entries, d, now) && entries != []
    requires entries[0].at + LIFETIME <= now || |entries| > CAPACITY
    ensures Trimmed(entries[1..], d, now)
  {
  }

  lemma NoneExpired(entries: seq<Entry>, d: seq<Entry>, now: int)
    requires Trimmed(entries, d, now) && InTime(d, now)
    requires entries == [] || now < entries[0].at + LIFETIME
    ensures forall e :: e in entries ==> now < e.at + LIFETIME
  {
    forall i | 0 <= i < |entries|
      ensures entries[0].at <= entries[i].at
    {
      var k := |d| - |entries|;
      assert entries[0] == d[k] && entries[i] == d[k + i];
    }
  }

  lemma Later(h: seq<Entry>, entries: seq<Entry>, before: int, now: int)
    requires InTime(h, before) && Trimmed(entries, Unique(h), before) && before <= now
    ensures InTime(h, now) && Trimmed(entries, Unique(h), now)
  {
    hide Unique;
  }

  /** The cache, once purged, answers as the history does. */
  lemma AnswersAlike(entries: seq<Entry>, h: seq<Entry>, key: Key, now: int)
    requires Trimmed(entries, Unique(h), now) && |entries| <= CAPACITY
    requires forall e :: e in entries ==> now < e.at + LIFETIME
    ensures Answer(h, key, now) == match Find(entries, key) case None => None case Some(j) => Some(entries[j].value)
  {
    hide *;
    var d := Unique(h);
    UniqueIsKeyed(h);
    KeyIsAt(h, key);
    TrimmedMeans(entries, d, now);
    FoundInTail(d, |d| - |entries|, key);
    if Find(d, key).Some? {
      KeyedTail(d, Find(d, key).value + 1);
      KeyedCount(d[Find(d, key).value + 1..]);
    }
    AnswerMeans(h, d, key, now);
  }

  lemma TrimmedMeans(entries: seq<Entry>, d: seq<Entry>, now: int)
    requires Trimmed(entries, d, now)
    ensures |entries| <= |d| && entries == d[|d| - |entries|..]
    ensures forall i :: 0 <= i < |d| - |entries| ==> d[i].at + LIFETIME <= now || |d| - i > CAPACITY
  {
  }

  /** What the history answers, in terms of the key's place in the unique history. */
  lemma AnswerMeans(h: seq<Entry>, d: seq<Entry>, key: Key, now: int)
    requires At(h, d, key) && (Find(d, key).Some? ==> |KeysOf(d[Find(d, key).value + 1..])| == |d| - Find(d, key).value - 1)
    ensures Answer(h, key, now)
            == match Find(d, key)
               case None => None
               case Some(j) => if now < d[j].at + LIFETIME && |d| - j - 1 < CAPACITY then Some(d[j].value) else None
  {
    hide Find, KeysOf, NewerKeys, Latest;
  }

  /** Searching the end of a keyed sequence. */
  lemma FoundInTail(d: seq<Entry>, k: nat, key: Key)
    requires Keyed(d) && k <= |d|
    ensures Find(d[k..], key) == match Find(d, key) case None => None case Some(j) => if j >= k then Some((j - k) as nat) else None
  {
    var tail := d[k..];
    match Find(d, key) {
      case None => assert Find(tail, key) == None;
      case Some(j) =>
        if j >= k {
          KeyedTail(d, k);
          assert tail[j - k] == d[j];
          FoundAt(tail, key, j - k);
        } else {
          assert forall i :: 0 <= i < |tail| ==> tail[i].key != d[j].key;
          assert Find(tail, key) == None;
        }
    }
  }

  lemma Remembers(entries: seq<Entry>, h: seq<Entry>, e: Entry)
    requires Trimmed(entries, Unique(h), e.at) && InTime(h, e.at)
    ensures Trimmed(Without(entries, e.key) + [e], Unique(h + [e]), e.at) && InTime(h + [e], e.at)
  {
    hide *;
    UniqueIsKeyed(h);
    TrimmedNext(entries, Unique(h), e.at, e);
    assert (h + [e])[..|h|] == h;
    UniqueNext(h + [e]);
    NextInTime(h, e);
  }

  lemma NextInTime(h: seq<Entry>, e: Entry)
    requires InTime(h, e.at)
    ensures InTime(h + [e], e.at)
  {
  }

  class Cache {
    var entries: seq<Entry>
    ghost var history: seq<Entry>
    ghost var clock: int

    ghost predicate Valid()
      reads this
    {
      && |entries| <= CAPACITY && InTime(history, clock) && Trimmed(entries, Unique(history), clock)
    }

    constructor (now: int)
      ensures Valid() && history == [] && clock == now
    {
      entries, history, clock := [], [], now;
    }

    /** Drop expired entries from the front; no expired entry is left anywhere. */
    method Purge(now: int)
      requires Valid() && clock <= now
      modifies this`entries, this`clock
      ensures Valid() && clock == now
      ensures forall e :: e in entries ==> now < e.at + LIFETIME
    {
      Later(history, entries, clock, now);
      hide Unique, InTime, Trimmed;
      clock := now;
      UniqueInTime(history, now);
      while entries != [] && entries[0].at + LIFETIME <= now
        invariant |entries| <= CAPACITY && clock == now && Trimmed(entries, Unique(history), now)
        decreases |entries|
      {
        DropsFront(entries, Unique(history), now);
        entries := entries[1..];
      }
      NoneExpired(entries, Unique(history), now);
    }

    /** Keep a final response for its transaction; anything else is not kept. */
    method RememberInviteResponse(key: Option<Key>, status: Option<int>, message: string, now: int)
      requires Valid() && clock <= now
      modifies this
      ensures Valid()
      ensures history == if key.Some? && status.Some? && 200 <= status.value < 700
                         then old(history) + [Dated(key.value, now, message)] else old(history)
    {
      hide Unique, Find, Without, Trimmed, InTime;
      if key.None? || status.None? || !(200 <= status.value < 700) {
        return;
      }
      Purge(now);
      var e := Dated(key.value, now, message);
      Remembers(entries, history, e);
      history := history + [e];
      entries := Without(entries, e.key) + [e];
      TrimToCapacity();
    }

    /** Drop the oldest entries beyond 256. */
    method TrimToCapacity()
      requires Trimmed(entries, Unique(history), clock)
      modifies this`entries
      ensures |entries| <= CAPACITY && Trimmed(entries, Unique(history), clock)
    {
      hide Unique, Trimmed;
      while |entries| > CAPACITY
        invariant Trimmed(entries, Unique(history), clock)
        decreases |entries|
      {
        DropsFront(entries, Unique(history), clock);
        entries := entries[1..];
      }
    }

    /** The response to repeat for a retransmitted request: exactly what the history says. */
    method CachedInviteResponse(key: Option<Key>, now: int) returns (r: Option<string>)
      requires Valid() && clock <= now
      modifies this`entries, this`clock
      ensures Valid()
      ensures r == if key.None? then None else Answer(history, key.value, now)
    {
      if key.None? {
        return None;
      }
      Purge(now);
      hide Unique;
      AnswersAlike(entries, history, key.value, now);
      var found := Find(entries, key.value);
      return if found.None? then None else Some(entries[found.value].value);
    }
  }
}
