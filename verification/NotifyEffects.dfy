/** What one NOTIFY does, case by case: which answer it gets, and what it leaves of its subscription and of the others. */
module NotifyEffects {
  import opened Bytes
  import opened Dated
  import opened Notify

  /** The request is within the subscription's dialog and about its event. */
  predicate Belongs(s: Subscription, k: Key, event: string) {
    && k.fromTag != "" && (s.remoteTag == "" || s.remoteTag == k.fromTag)
    && (s.localTag == "" || s.localTag == k.toTag)
    && event != "" && s.event == event
  }

  /** An answer to the same request is under 32 seconds old. */
  ghost predicate AnsweredLately(c: Client, k: Key, now: int) {
    exists e :: e in c.cache && e.key == k && now - e.at < 32
  }

  /** The code of the refusal, if the request is refused. */
  ghost function Refusal(c: Client, m: Message, w: Circumstances): Option<nat>
    requires m.key.Some?
  {
    var k, h := m.key.value, m.stateHeader;
    if k.callId !in c.subscriptions || !Belongs(c.subscriptions[k.callId], k, m.event) then Some(481)
    else if h.state != "active" && h.state != "pending" && h.state != "terminated" then Some(400)
    else if h.badExpires && h.state != "terminated" then Some(400)
    else if w.gone then Some(481)
    else
      var last := c.subscriptions[k.callId].remoteCseq;
      if last.Some? && k.number <= last.value then Some(500) else None
  }

  /** The subscription after the notification. */
  ghost predicate Tells(s: Subscription, m: Message, sent: bool, s': Subscription)
    requires m.key.Some?
  {
    var k, h := m.key.value, m.stateHeader;
    && s'.id == s.id && s'.localTag == s.localTag && s'.event == s.event
    && s'.remoteTag == k.fromTag
    && s'.state == h.state
    && s'.reason == (if h.reason == "" then s.reason else h.reason)
    && s'.expires == (if h.state != "terminated" && h.expires.Some? then h.expires else s.expires)
    && s'.target == (if m.contact == "" then s.target else m.contact)
    && s'.body == m.body
    && s'.remoteCseq == (if sent then Some(k.number) else s.remoteCseq)
  }

  lemma JudgedAs(c: Client, m: Message, w: Circumstances)
    requires m.key.Some?
    ensures Judge(c, m, w).Repeat? <==> AnsweredLately(c, m.key.value, w.now)
    ensures !AnsweredLately(c, m.key.value, w.now) ==>
              Judge(c, m, w) == match Refusal(c, m, w) case Some(code) => Refuse(code) case None => Apply
  {
    hide Fresh, Find;
    FindsIff(Fresh(c.cache, w.now), m.key.value);
    forall e
      ensures e in Fresh(c.cache, w.now) <==> e in c.cache && w.now - e.at < 32
    {
      FreshHas(c.cache, w.now, e);
    }
  }

  /**
   A request whose answer is cached gets that answer; one that is out of place gets 481, 400 or 500; neither touches a
   subscription.  Any other is applied: its subscription then says what the request says, every other one is as it
   was, and once the response has been sent the subscription is gone if and only if the request terminated it.
   */
  lemma NotifyOutcome(c: Client, m: Message, w: Circumstances)
    requires m.key.Some?
    ensures var k, o := m.key.value, Handle(c, m, w);
            if AnsweredLately(c, k, w.now) then
              && o.applied == None && o.client.subscriptions == c.subscriptions
              && o.response.Some? && exists e :: e in c.cache && e.key == k && w.now - e.at < 32 && o.response == Some(e.value)
            else
              match Refusal(c, m, w)
              case Some(code) =>
                o.applied == None && o.client.subscriptions == c.subscriptions && o.response == Some(Response(code, w.text))
              case None =>
                && k.callId in c.subscriptions
                && o.applied == Some(Applied(c.subscriptions[k.callId].id, k.number, w.sent))
                && o.response == (if w.sent then Some(Response(200, w.text)) else None)
                && (k.callId in o.client.subscriptions <==> !(w.sent && m.stateHeader.state == "terminated"))
                && (k.callId in o.client.subscriptions ==>
                      Tells(c.subscriptions[k.callId], m, w.sent, o.client.subscriptions[k.callId]))
                && (forall d :: d != k.callId ==>
                      (d in o.client.subscriptions <==> d in c.subscriptions)
                      && (d in c.subscriptions ==> o.client.subscriptions[d] == c.subscriptions[d]))
  {
    JudgedAs(c, m, w);
    if AnsweredLately(c, m.key.value, w.now) {
      FoundIsCached(c.cache, m.key.value, w.now);
    }
    hide Fresh, Find, Judge, AnsweredLately, Kept;
  }

  lemma FoundIsCached(cache: seq<Cached>, key: Key, now: int)
    requires Find(Fresh(cache, now), key).Some?
    ensures exists e :: e in cache && e.key == key && now - e.at < 32 && Find(Fresh(cache, now), key) == Some(e.value)
  {
    hide Fresh;
    var e := FoundAt(Fresh(cache, now), key);
    FreshHas(cache, now, e);
  }

  lemma {:induction false} FoundAt(cache: seq<Cached>, key: Key) returns (e: Cached)
    requires Find(cache, key).Some?
    ensures e in cache && e.key == key && Find(cache, key) == Some(e.value)
  {
    var n := |cache| - 1;
    if cache[n].key == key {
      e := cache[n];
    } else {
      e := FoundAt(cache[..n], key);
    }
  }

  /** A request without a readable CSeq and Via is answered 400 when it can be answered, and changes nothing. */
  lemma MalformedOutcome(c: Client, m: Message, w: Circumstances)
    requires m.key.None?
    ensures Handle(c, m, w) == Outcome(c, if m.complete then Some(Response(400, w.text)) else None, None)
  {
  }
}
