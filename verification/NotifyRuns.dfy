/** Notifications over whole runs: applied in order, once each, and answered alike when they are repeated. */
module NotifyRuns {
  import opened Bytes
  import opened Dated
  import opened Notify

  /** What can happen: a NOTIFY arrives, or another thread adds, changes or drops a subscription. */
  datatype Op =
    | Arrival(message: Message, w: Circumstances)
    | Subscribe(callId: string, subscription: Subscription)
    | Change(callId: string, subscription: Subscription)
    | Drop(callId: string)

  /** The client with what has been applied and answered so far; `next` numbers new subscriptions. */
  datatype World = World(client: Client, log: seq<Applied>, answered: seq<Cached>, next: nat, clock: int)

  function Start(now: int): World {
    World(Client(map[], []), [], [], 0, now)
  }

  function Arrive(v: World, m: Message, w: Circumstances): World {
    var o := Handle(v.client, m, w);
    World(o.client,
          if o.applied.Some? then v.log + [o.applied.value] else v.log,
          if o.applied.Some? && w.sent && m.key.Some? then v.answered + [Dated(m.key.value, w.later, Response(200, w.text))] else v.answered,
          v.next, w.later)
  }

  /** None when the clock would go back. */
  function Step(v: World, op: Op): Option<World> {
    match op
    case Arrival(m, w) => if v.clock <= w.now <= w.later then Some(Arrive(v, m, w)) else None
    case Subscribe(callId, s) =>
      Some(v.(client := v.client.(subscriptions := v.client.subscriptions[callId := s.(id := v.next, remoteCseq := None)]), next := v.next + 1))
    case Change(callId, s) =>
      if callId !in v.client.subscriptions then Some(v)
      else
        var was := v.client.subscriptions[callId];
        Some(v.(client := v.client.(subscriptions := v.client.subscriptions[callId := s.(id := was.id, remoteCseq := was.remoteCseq)])))
    case Drop(callId) => Some(v.(client := v.client.(subscriptions := v.client.subscriptions - {callId})))
  }

  function Runs(now: int, ops: seq<Op>): Option<World> {
    if ops == [] then Some(Start(now))
    else
      match Runs(now, ops[..|ops| - 1])
      case None => None
      case Some(v) => Step(v, ops[|ops| - 1])
  }

  // ------------------------------------------------------------------ applied in order

  /** After a notification whose response was sent, a subscription gets only higher numbers. */
  ghost predicate Rising(log: seq<Applied>) {
    forall i, j :: 0 <= i < j < |log| && log[i].id == log[j].id && log[i].sent ==> log[i].number < log[j].number
  }

  ghost predicate Recorded(log: seq<Applied>, s: Subscription) {
    forall a :: a in log && a.id == s.id && a.sent ==> s.remoteCseq.Some? && a.number <= s.remoteCseq.value
  }

  ghost predicate Numbered(v: World) {
    && (forall c :: c in v.client.subscriptions ==> v.client.subscriptions[c].id < v.next)
    && (forall c, d :: c in v.client.subscriptions && d in v.client.subscriptions && c != d ==>
          v.client.subscriptions[c].id != v.client.subscriptions[d].id)
    && (forall a :: a in v.log ==> a.id < v.next)
  }

  ghost predicate InOrder(v: World) {
    Numbered(v) && Rising(v.log) && forall c :: c in v.client.subscriptions ==> Recorded(v.log, v.client.subscriptions[c])
  }

  lemma RisesAgain(log: seq<Applied>, a: Applied)
    requires Rising(log) && forall b :: b in log && b.id == a.id && b.sent ==> b.number < a.number
    ensures Rising(log + [a])
  {
    assert forall i :: 0 <= i < |log| ==> log[i] in log;
  }

  /** A subscription that is not the one applied to keeps its record; the one applied to gets the new number, if it was sent. */
  lemma RecordedAgain(log: seq<Applied>, a: Applied, s: Subscription, s': Subscription)
    requires Recorded(log, s) && s'.id == s.id
    requires s'.remoteCseq == (if a.id == s.id && a.sent then Some(a.number) else s.remoteCseq)
    requires a.id == s.id && s.remoteCseq.Some? ==> s.remoteCseq.value < a.number
    ensures Recorded(log + [a], s')
  {
  }

  lemma AppliedIs(c: Client, m: Message, w: Circumstances)
    requires Judge(c, m, w).Apply?
    ensures var k, o := m.key.value, Handle(c, m, w);
            && m.key.Some? && k.callId in c.subscriptions
            && var s := c.subscriptions[k.callId];
               && o.applied == Some(Applied(s.id, k.number, w.sent)) && (s.remoteCseq.Some? ==> s.remoteCseq.value < k.number)
               && (forall d :: d in o.client.subscriptions ==>
                     d in c.subscriptions && o.client.subscriptions[d].id == c.subscriptions[d].id
                     && o.client.subscriptions[d].remoteCseq
                        == if d == k.callId && w.sent then Some(k.number) else c.subscriptions[d].remoteCseq)
  {
    var s := c.subscriptions[m.key.value.callId];
    UpdatedKeepsId(s, m);
    hide Fresh, Find, GoodState, Kept, Matches, Updated;
  }

  lemma AppliedKeepsOrder(v: World, m: Message, w: Circumstances)
    requires InOrder(v) && Judge(v.client, m, w).Apply?
    ensures InOrder(Arrive(v, m, w))
  {
    AppliedIs(v.client, m, w);
    hide Handle, Judge, Rising, Recorded;
    var k, v' := m.key.value, Arrive(v, m, w);
    var s := v.client.subscriptions[k.callId];
    var a := Applied(s.id, k.number, w.sent);
    RecordedIs(v.log, s);
    RisesAgain(v.log, a);
    forall c | c in v'.client.subscriptions
      ensures Recorded(v'.log, v'.client.subscriptions[c])
    {
      RecordedAgain(v.log, a, v.client.subscriptions[c], v'.client.subscriptions[c]);
    }
  }

  lemma RecordedIs(log: seq<Applied>, s: Subscription)
    ensures Recorded(log, s) <==> forall a :: a in log && a.id == s.id && a.sent ==> s.remoteCseq.Some? && a.number <= s.remoteCseq.value
  {
  }

  lemma UpdatedKeepsId(s: Subscription, m: Message)
    requires m.key.Some?
    ensures Updated(s, m).id == s.id && Updated(s, m).remoteCseq == s.remoteCseq
  {
  }

  lemma StepKeepsOrder(v: World, op: Op)
    requires InOrder(v) && Step(v, op).Some?
    ensures InOrder(Step(v, op).value)
  {
    match op {
      case Arrival(m, w) =>
        if Judge(v.client, m, w).Apply? {
          AppliedKeepsOrder(v, m, w);
        }
      case Subscribe(callId, s) =>
        var v' := Step(v, op).value;
        forall c | c in v'.client.subscriptions
          ensures Recorded(v'.log, v'.client.subscriptions[c])
        {
          assert c != callId ==> Recorded(v.log, v.client.subscriptions[c]);
        }
      case _ =>
        var v' := Step(v, op).value;
        forall c | c in v'.client.subscriptions
          ensures Recorded(v'.log, v'.client.subscriptions[c])
        {
          assert Recorded(v.log, v.client.subscriptions[c]);
        }
    }
  }

  lemma {:induction false} AlwaysInOrder(now: int, ops: seq<Op>)
    requires Runs(now, ops).Some?
    ensures InOrder(Runs(now, ops).value)
  {
    if ops != [] {
      AlwaysInOrder(now, ops[..|ops| - 1]);
      hide Step, InOrder;
      StepKeepsOrder(Runs(now, ops[..|ops| - 1]).value, ops[|ops| - 1]);
    }
  }

  /**
   Whatever is repeated, delayed or reordered: while responses can be sent, the notifications applied to one
   subscription have strictly increasing numbers.
   */
  lemma AppliedNumbersIncrease(now: int, ops: seq<Op>, i: nat, j: nat)
    requires Runs(now, ops).Some? && i < j < |Runs(now, ops).value.log|
    requires var log := Runs(now, ops).value.log; log[i].id == log[j].id && log[i].sent
    ensures var log := Runs(now, ops).value.log; log[i].number < log[j].number
  {
    AlwaysInOrder(now, ops);
  }

  /** A notification that comes again while its response would be cached is applied again exactly when the response could not be sent. */
  lemma AppliedAgainIff(c: Client, m: Message, w: Circumstances, again: Circumstances)
    requires Judge(c, m, w).Apply? && w.later <= again.now < w.later + 32 && !again.gone
    ensures Handle(Handle(c, m, w).client, m, again).applied.Some? <==> !w.sent
  {
    hide Fresh, Find;
    var k, c' := m.key.value, Handle(c, m, w).client;
    if w.sent {
      var e := Dated(k, w.later, Response(200, w.text));
      assert c'.cache == Kept(Fresh(c.cache, w.now), e);
      KeptHas(Fresh(c.cache, w.now), e);
      FreshHas(c'.cache, again.now, e);
      FindsIff(Fresh(c'.cache, again.now), k);
    } else {
      StillNotFound(c.cache, w.now, again.now, k);
    }
  }

  lemma StillNotFound(cache: seq<Cached>, now: int, later: int, key: Key)
    requires Find(Fresh(cache, now), key) == None
    ensures Find(Fresh(Fresh(cache, now), later), key) == None
  {
    var once := Fresh(cache, now);
    FindsIff(once, key);
    FindsIff(Fresh(once, later), key);
    forall e | e in Fresh(once, later)
      ensures e.key != key
    {
      FreshHas(once, later, e);
    }
  }

  lemma KeptHas(cache: seq<Cached>, e: Cached)
    ensures e in Kept(cache, e)
  {
    var r := Kept(cache, e);
    assert r[|r| - 1] == e;
  }

  // ------------------------------------------------------------------ repeats are answered alike

  /** The response to a repeat, from the history alone: the last one, while it is under 32 s old with fewer than 128 newer. */
  function Answer(answered: seq<Cached>, key: Key, now: int): Option<Response> {
    match Latest(answered, key)
    case None => None
    case Some(i) => if now - answered[i].at < 32 && |answered| - i - 1 < 128 then Some(answered[i].value) else None
  }

  /** The cache is the end of the history; what it has dropped is expired, or has 128 newer entries. */
  ghost predicate Trimmed(cache: seq<Cached>, h: seq<Cached>, now: int) {
    && |cache| <= |h| && |cache| <= CAPACITY && cache == h[|h| - |cache|..]
    && forall i :: 0 <= i < |h| - |cache| ==> now - h[i].at >= LIFETIME || |h| - i > CAPACITY
  }

  ghost predicate Split(cache: seq<Cached>, k: nat, now: int) {
    && k <= |cache|
    && (forall i :: 0 <= i < k ==> now - cache[i].at >= LIFETIME)
    && (forall i :: k <= i < |cache| ==> now - cache[i].at < LIFETIME)
  }

  lemma FreshNext(before: seq<Cached>, last: Cached, now: int)
    ensures Fresh(before + [last], now) == Fresh(before, now) + if now - last.at < LIFETIME then [last] else []
  {
    assert (before + [last])[..|before|] == before;
  }

  lemma TailMore(before: seq<Cached>, last: Cached, k: nat)
    requires k <= |before|
    ensures (before + [last])[k..] == before[k..] + [last]
  {
  }

  lemma SplitBefore(before: seq<Cached>, last: Cached, k: nat, now: int)
    requires Split(before + [last], k, now)
    ensures Split(before, if k <= |before| then k else |before|, now)
    ensures k <= |before| + 1 && (now - last.at < LIFETIME <==> k <= |before|)
  {
    var cache := before + [last];
    assert cache[|before|] == last;
    assert forall i :: 0 <= i < |before| ==> cache[i] == before[i];
  }

  lemma {:induction false} FreshIsEnd(cache: seq<Cached>, k: nat, now: int)
    requires Split(cache, k, now)
    ensures k <= |cache| && Fresh(cache, now) == cache[k..]
  {
    if cache != [] {
      hide *;
      var before, last := cache[..|cache| - 1], cache[|cache| - 1];
      assert cache == before + [last];
      SplitBefore(before, last, k, now);
      FreshNext(before, last, now);
      if k <= |before| {
        FreshIsEnd(before, k, now);
        TailMore(before, last, k);
      } else {
        FreshIsEnd(before, |before|, now);
        assert before[|before|..] + [] == cache[k..];
      }
    }
  }

  lemma {:induction false} Splits(cache: seq<Cached>, now: int) returns (k: nat)
    requires forall i, j :: 0 <= i <= j < |cache| ==> cache[i].at <= cache[j].at
    ensures Split(cache, k, now)
  {
    k := |cache|;
    while k > 0 && now - cache[k - 1].at < LIFETIME
      invariant k <= |cache| && forall i :: k <= i < |cache| ==> now - cache[i].at < LIFETIME
    {
      k := k - 1;
    }
    assert k > 0 ==> forall i :: 0 <= i < k ==> cache[i].at <= cache[k - 1].at;
  }

  lemma PurgedIsTrimmed(cache: seq<Cached>, h: seq<Cached>, clock: int, now: int)
    requires Trimmed(cache, h, clock) && InTime(h, clock) && clock <= now
    ensures Trimmed(Fresh(cache, now), h, now) && forall e :: e in Fresh(cache, now) ==> now - e.at < LIFETIME
  {
    var k := |h| - |cache|;
    InTimeTail(h, k, clock);
    var x := Splits(cache, now);
    FreshIsEnd(cache, x, now);
    hide Fresh, InTime;
    assert cache[x..] == h[k + x..];
    forall i | 0 <= i < k + x
      ensures now - h[i].at >= LIFETIME || |h| - i > CAPACITY
    {
      if i >= k {
        assert cache[i - k] == h[i];
      }
    }
  }

  lemma InTimeTail(h: seq<Cached>, k: nat, now: int)
    requires InTime(h, now) && k <= |h|
    ensures InTime(h[k..], now)
  {
  }

  lemma KeptIsTrimmed(cache: seq<Cached>, h: seq<Cached>, now: int, e: Cached)
    requires Trimmed(cache, h, now)
    ensures Trimmed(Kept(cache, e), h + [e], now)
  {
  }

  lemma {:induction false} FindIsLatest(h: seq<Cached>, k: nat, key: Key)
    requires k <= |h|
    ensures Find(h[k..], key)
            == match Latest(h, key) case None => None case Some(i) => if i >= k then Some(h[i].value) else None
    decreases |h|
  {
    if k < |h| {
      var n := |h| - 1;
      assert h[k..][..n - k] == h[..n][k..];
      FindIsLatest(h[..n], k, key);
    }
  }

  /** A purged cache answers as the history does. */
  lemma AnswersAlike(cache: seq<Cached>, h: seq<Cached>, key: Key, now: int)
    requires Trimmed(cache, h, now) && forall e :: e in cache ==> now - e.at < LIFETIME
    ensures Find(cache, key) == Answer(h, key, now)
  {
    var k := |h| - |cache|;
    FindIsLatest(h, k, key);
    hide Find;
    var i := Latest(h, key);
    if i.Some? && i.value >= k {
      assert cache[i.value - k] == h[i.value];
    }
  }

  ghost predicate Remembers(v: World) {
    InTime(v.answered, v.clock) && Trimmed(v.client.cache, v.answered, v.clock)
  }

  lemma ArrivalRemembers(v: World, m: Message, w: Circumstances)
    requires Remembers(v) && v.clock <= w.now <= w.later
    ensures Remembers(Arrive(v, m, w))
  {
    hide Find, Matches, GoodState, Fresh, Trimmed;
    var purged := Fresh(v.client.cache, w.now);
    PurgedIsTrimmed(v.client.cache, v.answered, v.clock, w.now);
    Later(v.client.cache, v.answered, v.clock, w.later);
    Later(purged, v.answered, w.now, w.later);
    if Judge(v.client, m, w).Apply? && w.sent {
      KeptIsTrimmed(purged, v.answered, w.later, Dated(m.key.value, w.later, Response(200, w.text)));
    }
  }

  lemma Later(cache: seq<Cached>, h: seq<Cached>, now: int, later: int)
    requires Trimmed(cache, h, now) && now <= later
    ensures Trimmed(cache, h, later)
  {
  }

  lemma {:induction false} AlwaysRemembers(now: int, ops: seq<Op>)
    requires Runs(now, ops).Some?
    ensures Remembers(Runs(now, ops).value)
  {
    hide *;
    if ops == [] {
      StartRemembers(now, ops);
    } else {
      var before, op := ops[..|ops| - 1], ops[|ops| - 1];
      RunsNext(now, ops);
      AlwaysRemembers(now, before);
      StepRemembers(Runs(now, before).value, op);
    }
  }

  lemma StartRemembers(now: int, ops: seq<Op>)
    requires ops == []
    ensures Runs(now, ops).Some? && Remembers(Runs(now, ops).value)
  {
  }

  lemma RunsNext(now: int, ops: seq<Op>)
    requires ops != [] && Runs(now, ops).Some?
    ensures Runs(now, ops[..|ops| - 1]).Some? && Step(Runs(now, ops[..|ops| - 1]).value, ops[|ops| - 1]) == Runs(now, ops)
  {
    hide Step;
  }

  lemma StepRemembers(v: World, op: Op)
    requires Remembers(v) && Step(v, op).Some?
    ensures Remembers(Step(v, op).value)
  {
    hide Remembers, Arrive;
    if op.Arrival? {
      ArrivalRemembers(v, op.message, op.w);
    } else {
      SameMemory(v, Step(v, op).value);
    }
  }

  lemma SameMemory(v: World, v': World)
    requires Remembers(v) && v'.answered == v.answered && v'.client.cache == v.client.cache && v'.clock == v.clock
    ensures Remembers(v')
  {
  }

  /** A repeat of an answered notification gets the identical response and changes no subscription, for as long as the history says. */
  lemma RepeatsAreAnsweredAlike(now: int, ops: seq<Op>, m: Message, w: Circumstances)
    requires Runs(now, ops).Some? && Runs(now, ops).value.clock <= w.now && m.key.Some?
    ensures var v := Runs(now, ops).value;
            var a := Answer(v.answered, m.key.value, w.now);
            && (Judge(v.client, m, w).Repeat? <==> a.Some?)
            && (a.Some? ==> var o := Handle(v.client, m, w);
                            o.response == a && o.applied == None && o.client.subscriptions == v.client.subscriptions)
  {
    var v := Runs(now, ops).value;
    AlwaysRemembers(now, ops);
    PurgedIsTrimmed(v.client.cache, v.answered, v.clock, w.now);
    AnswersAlike(Fresh(v.client.cache, w.now), v.answered, m.key.value, w.now);
  }
}
