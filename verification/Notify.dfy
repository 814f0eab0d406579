/**
 NOTIFY requests of subscriptions (section 12.2.2 of RFC 3261).  They are handled one at a time, under the receive
 lock; other threads add, change and drop subscriptions in between.  Responses to applied notifications are cached.
 */
module Notify {
  import opened Bytes
  import opened Dated

  const LIFETIME := 32
  const CAPACITY := 128

  /** What tells transactions apart; `number` is the CSeq. */
  datatype Key = Key(callId: string, number: nat, branch: string, address: string, uri: string, fromTag: string, toTag: string)

  /** A subscription; `id` tells it from another one of the same call. */
  datatype Subscription = Subscription(
    id: nat, localTag: string, remoteTag: string, event: string, remoteCseq: Option<nat>,
    state: string, reason: string, expires: Option<nat>, target: string, body: string)

  /** The Subscription-State header; `badExpires` when its expires parameter is not a number. */
  datatype StateHeader = StateHeader(state: string, reason: string, expires: Option<nat>, badExpires: bool)

  /** A NOTIFY as the parser leaves it; no key when its CSeq or Via is malformed. */
  datatype Message = Message(key: Option<Key>, complete: bool, event: string, stateHeader: StateHeader, contact: string, body: string)

  datatype Response = Response(code: nat, text: string)

  type Cached = Dated<Key, Response>

  /** A notification that was applied to a subscription, and whether its response could be sent. */
  datatype Applied = Applied(id: nat, number: nat, sent: bool)

  datatype Client = Client(subscriptions: map<string, Subscription>, cache: seq<Cached>)

  /** What happens around a message: the clock before and after, the text generated for a response, and what other threads and the network do. */
  datatype Circumstances = Circumstances(now: int, later: int, text: string, gone: bool, sent: bool)

  /** The client afterwards, the response given, and the notification applied. */
  datatype Outcome = Outcome(client: Client, response: Option<Response>, applied: Option<Applied>)

  // ------------------------------------------------------------------ the cache

  function Fresh(cache: seq<Cached>, now: int): (r: seq<Cached>)
    ensures |r| <= |cache|
  {
    if cache == [] then []
    else Fresh(cache[..|cache| - 1], now) + if now - cache[|cache| - 1].at < LIFETIME then [cache[|cache| - 1]] else []
  }

  function Find(cache: seq<Cached>, key: Key): Option<Response> {
    if cache == [] then None
    else if cache[|cache| - 1].key == key then Some(cache[|cache| - 1].value)
    else Find(cache[..|cache| - 1], key)
  }

  lemma {:induction false} FreshHas(cache: seq<Cached>, now: int, e: Cached)
    ensures e in Fresh(cache, now) <==> e in cache && now - e.at < LIFETIME
  {
    if cache != [] {
      var n := |cache| - 1;
      FreshHas(cache[..n], now, e);
      assert e in cache <==> e in cache[..n] || e == cache[n];
    }
  }

  lemma {:induction false} FindsIff(cache: seq<Cached>, key: Key)
    ensures Find(cache, key) == None <==> forall e :: e in cache ==> e.key != key
  {
    if cache != [] {
      var n := |cache| - 1;
      FindsIff(cache[..n], key);
      assert forall e :: e in cache <==> e in cache[..n] || e == cache[n];
    }
  }

  function Kept(cache: seq<Cached>, e: Cached): seq<Cached> {
    var all := cache + [e];
    if |all| > CAPACITY then all[|all| - CAPACITY..] else all
  }

  // ------------------------------------------------------------------ one message

  predicate Matches(s: Subscription, k: Key, event: string) {
    && (s.localTag != "" ==> k.toTag == s.localTag)
    && k.fromTag != "" && (s.remoteTag != "" ==> k.fromTag == s.remoteTag)
    && event != "" && event == s.event
  }

  predicate GoodState(h: StateHeader) {
    h.state in {"active", "pending", "terminated"} && (h.state != "terminated" ==> !h.badExpires)
  }

  /** The subscription with the notification applied; its CSeq is recorded only once the response is sent. */
  function Updated(s: Subscription, m: Message): Subscription
    requires m.key.Some?
  {
    s.(remoteTag := if m.key.value.fromTag != "" then m.key.value.fromTag else s.remoteTag,
       target := if m.contact != "" then m.contact else s.target,
       body := m.body,
       state := if m.stateHeader.state != "" then m.stateHeader.state else s.state,
       reason := if m.stateHeader.reason != "" then m.stateHeader.reason else s.reason,
       expires := if m.stateHeader.state != "terminated" && m.stateHeader.expires.Some? then m.stateHeader.expires else s.expires)
  }

  datatype Verdict = Ignore | Repeat(response: Response) | Refuse(code: nat) | Apply

  function Judge(c: Client, m: Message, w: Circumstances): Verdict {
    if m.key.None? then (if m.complete then Refuse(400) else Ignore)
    else
      var k, found := m.key.value, Find(Fresh(c.cache, w.now), m.key.value);
      if found.Some? then Repeat(found.value)
      else if k.callId !in c.subscriptions || !Matches(c.subscriptions[k.callId], k, m.event) then Refuse(481)
      else if !GoodState(m.stateHeader) then Refuse(400)
      else if w.gone then Refuse(481)
      else if c.subscriptions[k.callId].remoteCseq.Some? && k.number <= c.subscriptions[k.callId].remoteCseq.value then Refuse(500)
      else Apply
  }

  /** `_handle_notify` */
  function Handle(c: Client, m: Message, w: Circumstances): (o: Outcome)
    ensures o.applied.Some? <==> Judge(c, m, w).Apply?
  {
    var purged := if m.key.None? then c else c.(cache := Fresh(c.cache, w.now));
    match Judge(c, m, w)
    case Ignore => Outcome(purged, None, None)
    case Repeat(response) => Outcome(purged, Some(response), None)
    case Refuse(code) => Outcome(purged, Some(Response(code, w.text)), None)
    case Apply =>
      var k, s := m.key.value, Updated(c.subscriptions[m.key.value.callId], m);
      var applied := Some(Applied(s.id, k.number, w.sent));
      if !w.sent then Outcome(purged.(subscriptions := c.subscriptions[k.callId := s]), None, applied)
      else
        var response := Response(200, w.text);
        Outcome(Client(if s.state == "terminated" then c.subscriptions - {k.callId}
                       else c.subscriptions[k.callId := s.(remoteCseq := Some(k.number))],
                       Kept(purged.cache, Dated(k, w.later, response))),
                Some(response), applied)
  }

  class NotifyHandler {
    var subscriptions: map<string, Subscription>
    var cache: seq<Cached>

    ghost function View(): Client
      reads this
    {
      Client(subscriptions, cache)
    }

    constructor ()
      ensures View() == Client(map[], [])
    {
      subscriptions, cache := map[], [];
    }

    /** The loop that drops responses of 32 seconds and more. */
    method Purge(now: int)
      modifies this`cache
      ensures cache == Fresh(old(cache), now)
    {
      var kept: seq<Cached> := [];
      for i := 0 to |cache|
        invariant cache == old(cache) && kept == Fresh(cache[..i], now)
      {
        assert cache[..i + 1][..i] == cache[..i];
        if now - cache[i].at < LIFETIME {
          kept := kept + [cache[i]];
        }
      }
      assert cache[..|cache|] == cache;
      cache := kept;
    }

    /** Cache a response, and drop the oldest beyond 128. */
    method Remember(e: Cached)
      requires |cache| <= CAPACITY
      modifies this`cache
      ensures cache == Kept(old(cache), e)
    {
      cache := cache + [e];
      while |cache| > CAPACITY
        invariant |cache| >= CAPACITY ==> cache == (old(cache) + [e])[|old(cache)| + 1 - |cache|..]
        invariant |cache| < CAPACITY ==> cache == old(cache) + [e]
        invariant |cache| <= |old(cache)| + 1
        decreases |cache|
      {
        cache := cache[1..];
      }
    }

    /** Take in one NOTIFY. */
    method HandleNotify(m: Message, w: Circumstances) returns (response: Option<Response>)
      requires |cache| <= CAPACITY
      modifies this
      ensures |cache| <= CAPACITY
      ensures View() == Handle(old(View()), m, w).client && response == Handle(old(View()), m, w).response
    {
      hide Fresh, Find, Matches, GoodState;
      if m.key.None? {
        return if m.complete then Some(Response(400, w.text)) else None;
      }
      var k := m.key.value;
      Purge(w.now);
      var found := Find(cache, k);
      if found.Some? {
        return found;
      }
      if k.callId !in subscriptions || !Matches(subscriptions[k.callId], k, m.event) {
        return Some(Response(481, w.text));
      }
      if !GoodState(m.stateHeader) {
        return Some(Response(400, w.text));
      }
      if w.gone {
        return Some(Response(481, w.text));
      }
      var s := subscriptions[k.callId];
      if s.remoteCseq.Some? && k.number <= s.remoteCseq.value {
        return Some(Response(500, w.text));
      }
      s := Updated(s, m);
      subscriptions := subscriptions[k.callId := s];
      if !w.sent {
        return None;
      }
      response := Some(Response(200, w.text));
      subscriptions := subscriptions[k.callId := s.(remoteCseq := Some(k.number))];
      Remember(Dated(k, w.later, response.value));
      if s.state == "terminated" {
        subscriptions := subscriptions - {k.callId};
      }
    }
  }
}
