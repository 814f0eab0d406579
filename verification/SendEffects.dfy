/**
 What one call does to the send queue, said in bytes, frames and times: which audio a read hands out and when it
 hands out silence, what goes stale, what a full queue loses, and what a write adds.
 */
module SendEffects {
  import opened Bytes
  import opened SendQueue

  // ------------------------------------------------------------------ frames and samples

  /** The fewest frames, at least one, that last `headroom`. */
  predicate Lasts(frames: nat, period: Pos, headroom: nat) {
    frames >= 1 && frames * period >= headroom && (frames > 1 ==> (frames - 1) * period < headroom)
  }

  /** The most frames that last no longer than `latency`. */
  predicate FitsIn(frames: nat, period: Pos, latency: Pos) {
    frames * period <= latency < (frames + 1) * period
  }

  /** `n` rounded up to whole samples. */
  predicate RoundedUp(n: nat, a: Pos, r: nat) {
    n <= r < n + a && r % a == 0
  }

  /** `n` rounded down to whole samples. */
  predicate RoundedDown(n: nat, a: Pos, r: nat) {
    r <= n < r + a && r % a == 0
  }

  /** The bytes at the head of the queue that are older than `latency`. */
  ghost predicate StalePrefix(queue: seq<Stamped>, now: int, latency: Pos, n: nat) {
    n <= |queue| && (forall i :: 0 <= i < n ==> now - queue[i].at > latency) && (n < |queue| ==> now - queue[n].at <= latency)
  }

  lemma {:induction false} StepsApart(p: nat, q: nat, d: Pos)
    requires p < q
    ensures p * d + d <= q * d
  {
    assert q * d == (q - 1) * d + d;
    if p < q - 1 {
      StepsApart(p, q - 1, d);
    }
  }

  lemma DivIs(n: nat, d: Pos, q: nat)
    requires q * d <= n < (q + 1) * d
    ensures n / d == q
  {
    var p := n / d;
    assert n == p * d + n % d;
    assert (q + 1) * d == q * d + d;
    if p < q {
      StepsApart(p, q, d);
    } else if q < p {
      StepsApart(q, p, d);
    }
  }

  lemma LastsIs(frames: nat, period: Pos, headroom: nat)
    requires Lasts(frames, period, headroom)
    ensures Most(1, (headroom + period - 1) / period) == frames
  {
    if headroom == 0 {
      assert frames == 1 by {
        assert frames > 1 ==> (frames - 1) * period >= 0;
      }
      DivIs(period - 1, period, 0);
    } else {
      assert (frames - 1) * period == frames * period - period;
      DivIs(headroom + period - 1, period, frames);
    }
  }

  lemma FitsInIs(frames: nat, period: Pos, latency: Pos)
    requires FitsIn(frames, period, latency)
    ensures latency / period == frames
  {
    DivIs(latency, period, frames);
  }

  /** Two multiples less than one step apart are the same. */
  lemma SameMultiple(x: nat, y: nat, a: Pos)
    requires x % a == 0 && y % a == 0 && x - a < y < x + a
    ensures x == y
  {
    var p, q := x / a, y / a;
    assert x == p * a && y == q * a;
    if p < q {
      StepsApart(p, q, a);
    } else if q < p {
      StepsApart(q, p, a);
    }
  }

  lemma RoundedUpIs(n: nat, a: Pos, r: nat)
    requires RoundedUp(n, a, r)
    ensures (n + a - 1) / a * a == r
    ensures r == if n % a == 0 then n else n + (a - n % a)
  {
    RoundsUp(n, a);
    SameMultiple((n + a - 1) / a * a, r, a);
    if n % a == 0 {
      SameMultiple(n, r, a);
    } else {
      var q := n / a;
      assert n == a * q + n % a;
      assert n + (a - n % a) == (q + 1) * a;
      MultipleHasNoRemainder(q + 1, a);
      SameMultiple(n + (a - n % a), r, a);
    }
  }

  lemma RoundedUpTo(n: nat, a: Pos)
    ensures RoundedUp(n, a, (n + a - 1) / a * a)
  {
    RoundsUp(n, a);
  }

  lemma RoundsDown(n: nat, a: Pos)
    ensures RoundedDown(n, a, n - n % a)
  {
    var q := n / a;
    assert n == a * q + n % a;
    assert n - n % a == q * a;
    MultipleHasNoRemainder(q, a);
  }

  lemma {:induction false} StaleIs(queue: seq<Stamped>, now: int, latency: Pos, n: nat)
    requires StalePrefix(queue, now, latency, n)
    ensures Stale(queue, now, latency) == n
  {
    if n > 0 {
      assert queue[0] == queue[..n][0];
      StaleIs(queue[1..], now, latency, n - 1);
    }
  }

  // ------------------------------------------------------------------ reading

  /** The queue is long enough, or its head old enough, to start playing. */
  predicate Ready(c: Config, prefill: nat, most: nat, queue: seq<Stamped>, now: int) {
    || |queue| >= prefill * c.frameBytes
    || |queue| >= Most(1, most) * c.frameBytes
    || (queue != [] && now - queue[0].at >= c.headroom)
  }

  /** The head of the queue is handed out, `length` bytes rounded down to whole samples. */
  ghost predicate HandsOut(c: Config, rest: seq<Stamped>, length: nat, o': Output, audio: seq<byte>) {
    && RoundedDown(length, c.alignment, |audio|) && |audio| <= |rest|
    && (forall i :: 0 <= i < |audio| ==> audio[i] == rest[i].value)
    && o'.queue == rest[|audio|..]
    && o'.mode == if audio == [] then Underrun else Audio
  }

  /** Expiry: stale bytes go, with the rest of the sample they break; what is missing of that is skipped in later writes. */
  ghost predicate Expires(c: Config, o: Output, now: int, latency: Pos, gone: nat, rounded: nat) {
    && (exists stale :: StalePrefix(o.queue, now, latency, stale) && RoundedUp(stale, c.alignment, rounded))
    && gone == Least(|o.queue|, rounded)
  }

  lemma ExpiresIs(c: Config, o: Output, now: int, latency: Pos, gone: nat, rounded: nat)
    requires c.latency == Some(latency) && Expires(c, o, now, latency, gone, rounded)
    ensures Expired(c, o, now) == o.(queue := o.queue[gone..], expired := o.expired + gone, skip := o.skip + rounded - gone)
  {
    var stale :| StalePrefix(o.queue, now, latency, stale) && RoundedUp(stale, c.alignment, rounded);
    StaleIs(o.queue, now, latency, stale);
    RoundedUpIs(stale, c.alignment, rounded);
  }

  lemma MostIs(c: Config, latency: Pos, most: nat)
    requires c.latency == Some(latency) && FitsIn(most, c.period, latency)
    ensures Maximum(c) == Some(Most(1, most) * c.frameBytes)
  {
    FitsInIs(most, c.period, latency);
    if most > 1 {
      StepsApart(1, most, c.frameBytes);
    }
  }

  lemma ReadyIs(c: Config, latency: Pos, prefill: nat, most: nat, o: Output, now: int)
    requires c.latency == Some(latency) && Lasts(prefill, c.period, c.headroom) && FitsIn(most, c.period, latency)
    ensures |o.queue| >= PrefillBytes(c) || (o.queue != [] && now - o.queue[0].at >= c.headroom)
            <==> Ready(c, prefill, most, o.queue, now)
  {
    hide Lasts, FitsIn, Maximum;
    LastsIs(prefill, c.period, c.headroom);
    MostIs(c, latency, most);
  }

  lemma DeliveryHandsOut(c: Config, o: Output, length: nat)
    requires |o.queue| >= length
    ensures var n := Available(c, o, length); n <= |o.queue| && RoundedDown(length, c.alignment, n)
  {
    RoundsDown(length, c.alignment);
  }

  /**
   A realtime read that is not primed hands out its audio if and only if, once the stale bytes are gone, the queue
   holds what the read asks for and is ready: it covers the prefill, or the most that may be queued, or its head has
   waited for as long as the prefill lasts.  Otherwise it hands out silence and keeps the queue.
   */
  lemma UnprimedRead(c: Config, o: Output, now: int, length: nat, latency: Pos, gone: nat, rounded: nat, prefill: nat, most: nat)
    requires c.latency == Some(latency) && !o.primed && length > 0
    requires Expires(c, o, now, latency, gone, rounded)
    requires Lasts(prefill, c.period, c.headroom) && FitsIn(most, c.period, latency)
    ensures var rest, (o', audio) := o.queue[gone..], ReadFrom(c, o, now, length);
            && (if |rest| >= length && Ready(c, prefill, most, rest, now)
                then HandsOut(c, rest, length, o', audio) && o'.primed
                else audio == [] && o'.queue == rest && !o'.primed && o'.mode == Prefill)
            && o'.underruns == o.underruns && o'.dropped == o.dropped
            && o'.expired == o.expired + gone && o'.skip == o.skip + rounded - gone
  {
    hide Expired, Expires, Lasts, FitsIn, PrefillBytes, Maximum, Ready, Available, RoundedDown;
    ExpiresIs(c, o, now, latency, gone, rounded);
    var e := Expired(c, o, now);
    ReadyIs(c, latency, prefill, most, e, now);
    if |e.queue| >= length {
      DeliveryHandsOut(c, e, length);
    }
  }

  /** A primed one needs only the bytes it asks for; without them it counts an underrun and has to be primed again. */
  lemma PrimedRead(c: Config, o: Output, now: int, length: nat, latency: Pos, gone: nat, rounded: nat)
    requires c.latency == Some(latency) && o.primed && length > 0
    requires Expires(c, o, now, latency, gone, rounded)
    ensures var rest, (o', audio) := o.queue[gone..], ReadFrom(c, o, now, length);
            && (if |rest| >= length
                then HandsOut(c, rest, length, o', audio) && o'.primed && o'.underruns == o.underruns
                else audio == [] && o'.queue == rest && !o'.primed && o'.mode == Underrun && o'.underruns == o.underruns + 1)
            && o'.dropped == o.dropped && o'.expired == o.expired + gone && o'.skip == o.skip + rounded - gone
  {
    hide Expired, Expires, Held, Available, RoundedDown;
    ExpiresIs(c, o, now, latency, gone, rounded);
    var e := Expired(c, o, now);
    if |e.queue| >= length {
      DeliveryHandsOut(c, e, length);
    }
  }

  /** Without realtime mode a read hands out what there is, in whole samples, and counts an underrun when that is too little. */
  lemma DefaultRead(c: Config, o: Output, now: int, length: nat)
    requires c.latency == None && length > 0
    ensures var (o', audio) := ReadFrom(c, o, now, length);
            && HandsOut(c, o.queue, Least(length, |o.queue|), o', audio)
            && o'.underruns == o.underruns + (if |o.queue| < length then 1 else 0)
            && o'.primed == o.primed && o'.dropped == o.dropped && o'.expired == o.expired && o'.skip == o.skip
  {
    hide Held, RoundedDown;
    NeverExpires(c, o, now);
    RoundsDown(Least(length, |o.queue|), c.alignment);
  }

  lemma {:induction false} StaleIsPrefix(queue: seq<Stamped>, now: int, latency: Pos)
    ensures StalePrefix(queue, now, latency, Stale(queue, now, latency))
  {
    if queue != [] && now - queue[0].at > latency {
      StaleIsPrefix(queue[1..], now, latency);
      var n := Stale(queue[1..], now, latency);
      forall i | 0 <= i < n + 1
        ensures now - queue[i].at > latency
      {
        assert i > 0 ==> queue[i] == queue[1..][i - 1];
      }
    }
  }

  lemma LastsAtLeast(period: Pos, headroom: nat)
    ensures Lasts(Most(1, (headroom + period - 1) / period), period, headroom)
  {
    var q := (headroom + period - 1) / period;
    assert headroom + period - 1 == q * period + (headroom + period - 1) % period;
    if q > 1 {
      assert (q - 1) * period == q * period - period;
    }
  }

  /** There always are such amounts. */
  lemma SomeExpire(c: Config, o: Output, now: int, latency: Pos) returns (gone: nat, rounded: nat, prefill: nat, most: nat)
    ensures Expires(c, o, now, latency, gone, rounded)
    ensures Lasts(prefill, c.period, c.headroom) && FitsIn(most, c.period, latency)
  {
    var stale := Stale(o.queue, now, latency);
    StaleIsPrefix(o.queue, now, latency);
    rounded := (stale + c.alignment - 1) / c.alignment * c.alignment;
    RoundedUpTo(stale, c.alignment);
    gone := Least(|o.queue|, rounded);
    prefill := Most(1, (c.headroom + c.period - 1) / c.period);
    LastsAtLeast(c.period, c.headroom);
    most := latency / c.period;
    FitsInQuotient(c.period, latency);
    hide Lasts, FitsIn, RoundedUp, StalePrefix, Stale;
  }

  lemma FitsInQuotient(period: Pos, latency: Pos)
    ensures FitsIn(latency / period, period, latency)
  {
    var q := latency / period;
    assert latency == q * period + latency % period;
    assert (q + 1) * period == q * period + period;
  }

  // ------------------------------------------------------------------ writing

  /** A queue of more than the most that may be queued loses its head, the excess rounded up to whole samples. */
  ghost predicate Loses(c: Config, most: nat, o: Output, o': Output) {
    var bytes := Most(1, most) * c.frameBytes;
    if c.latency == None || |o.queue| <= bytes then o' == o
    else
      exists rounded :: RoundedUp(|o.queue| - bytes, c.alignment, rounded)
                        && o' == o.(queue := o.queue[Least(|o.queue|, rounded)..], dropped := o.dropped + Least(|o.queue|, rounded))
  }

  lemma TrimLoses(c: Config, most: nat, o: Output)
    requires c.latency.Some? ==> FitsIn(most, c.period, c.latency.value)
    ensures Loses(c, most, o, Trimmed(c, o))
  {
    assert c.latency == None ==> Maximum(c) == None;
    hide FitsIn, Maximum, RoundedUp;
    assert o.queue[0..] == o.queue;
    if c.latency.Some? {
      MostIs(c, c.latency.value, most);
      var bytes := Most(1, most) * c.frameBytes;
      if |o.queue| > bytes {
        RoundedUpTo(|o.queue| - bytes, c.alignment);
        var rounded := (|o.queue| - bytes + c.alignment - 1) / c.alignment * c.alignment;
        assert RoundedUp(|o.queue| - bytes, c.alignment, rounded);
        assert Excess(c, |o.queue|) == Least(|o.queue|, rounded);
      }
    }
  }

  /** A write: the rest of an expired sample is skipped, the bytes after it are queued with the time, and a queue that is too long loses its head. */
  lemma WriteEffect(c: Config, o: Output, now: int, data: seq<byte>, most: nat) returns (queued: Output)
    requires c.latency.Some? ==> FitsIn(most, c.period, c.latency.value)
    ensures var skipped := Least(|data|, o.skip);
            && |queued.queue| == |o.queue| + |data| - skipped && queued.queue[..|o.queue|] == o.queue
            && (forall i :: skipped <= i < |data| ==> queued.queue[|o.queue| + i - skipped] == Stamped(now, data[i]))
            && queued == o.(queue := queued.queue, skip := o.skip - skipped, expired := o.expired + skipped)
            && (if |data| <= o.skip then Written(c, o, now, data) == queued else Loses(c, most, queued, Written(c, o, now, data)))
  {
    hide Loses, Trimmed, FitsIn, StampAll;
    var skipped := Least(|data|, o.skip);
    queued := o.(skip := o.skip - skipped, expired := o.expired + skipped, queue := o.queue + StampAll(now, data[skipped..]));
    if skipped == |data| {
      assert queued.queue == o.queue;
    } else {
      assert Written(c, o, now, data) == Trimmed(c, queued);
      TrimLoses(c, most, queued);
    }
  }
}
