/**
 Whole runs of the send queue: where every written byte went, in order; sample alignment; and how old and how
 much the queued audio can be in realtime mode.
 */
module SendRuns {
  import opened Bytes
  import opened SendQueue

  datatype Fate = Delivered | Dropped | Lapsed

  /** Configuring may also turn realtime mode on, which starts priming over. */
  datatype Event = Wrote(now: int, data: seq<byte>) | Took(now: int, length: int) | Configured(config: Config, primed: bool)

  /** Everything written, what became of each byte that has left the queue, and all audio delivered. */
  datatype Ledger = Ledger(written: seq<byte>, fates: seq<Fate>, heard: seq<byte>)

  datatype State = State(config: Config, out: Output, ledger: Ledger)

  function Many(f: Fate, n: nat): (s: seq<Fate>)
    ensures |s| == n && forall i :: 0 <= i < n ==> s[i] == f
  {
    seq<Fate>(n, _ => f)
  }

  function Start(c: Config): State {
    State(c, Output([], 0, 0, 0, 0, false, Prefill), Ledger([], [], []))
  }

  /** One call, with the bookkeeping: an expired or skipped byte has lapsed, a trimmed one was dropped. */
  function Next(s: State, e: Event): State {
    var State(c, o, l) := s;
    match e
    case Wrote(now, data) =>
      var skipped := Least(|data|, o.skip);
      var queued := |o.queue| + |data| - skipped;
      var trimmed := if skipped == |data| then 0 else Excess(c, queued);
      State(c, Written(c, o, now, data),
            Ledger(l.written + data, l.fates + Many(Lapsed, skipped) + Many(Dropped, trimmed), l.heard))
    case Took(now, length) =>
      if length <= 0 then s
      else
        var (o', audio) := ReadFrom(c, o, now, length);
        State(c, o', Ledger(l.written, l.fates + Many(Lapsed, Expiring(c, o, now)) + Many(Delivered, |audio|), l.heard + audio))
    case Configured(c', primed) =>
      State(c', Trimmed(c', o).(primed := primed), l.(fates := l.fates + Many(Dropped, Excess(c', |o.queue|))))
  }

  function Run(c: Config, events: seq<Event>): State {
    if events == [] then Start(c) else Next(Run(c, events[..|events| - 1]), events[|events| - 1])
  }

  // ------------------------------------------------------------------ conservation and order

  /** The written bytes whose fate is to be delivered, in order. */
  function Picked(written: seq<byte>, fates: seq<Fate>): seq<byte>
    requires |fates| <= |written|
  {
    if fates == [] then []
    else
      var n := |fates| - 1;
      Picked(written, fates[..n]) + if fates[n] == Delivered then [written[n]] else []
  }

  function Count(fates: seq<Fate>, f: Fate): nat {
    if fates == [] then 0
    else Count(fates[..|fates| - 1], f) + if fates[|fates| - 1] == f then 1 else 0
  }

  /** The queue is what has been written and has no fate yet, and the counters and the audio heard agree with the fates. */
  ghost predicate Balanced(s: State) {
    var State(_, o, l) := s;
    && |l.fates| + |o.queue| == |l.written|
    && Values(o.queue) == l.written[|l.fates|..]
    && l.heard == Picked(l.written, l.fates)
    && Count(l.fates, Dropped) == o.dropped && Count(l.fates, Lapsed) == o.expired
    && (o.skip > 0 ==> o.queue == [])
  }

  lemma {:induction false} CountMany(fates: seq<Fate>, g: Fate, n: nat, f: Fate)
    ensures Count(fates + Many(g, n), f) == Count(fates, f) + if f == g then n else 0
  {
    if n == 0 {
      assert fates + Many(g, 0) == fates;
    } else {
      CountMany(fates, g, n - 1, f);
      assert (fates + Many(g, n))[..|fates| + n - 1] == fates + Many(g, n - 1);
    }
  }

  lemma PickedOne(written: seq<byte>, fates: seq<Fate>, g: Fate)
    requires |fates| < |written|
    ensures Picked(written, fates + [g]) == Picked(written, fates) + if g == Delivered then [written[|fates|]] else []
  {
    assert (fates + [g])[..|fates|] == fates;
  }

  lemma {:induction false} PickedMany(written: seq<byte>, fates: seq<Fate>, g: Fate, n: nat)
    requires |fates| + n <= |written|
    ensures Picked(written, fates + Many(g, n))
            == Picked(written, fates) + if g == Delivered then written[|fates|..|fates| + n] else []
  {
    hide Picked;
    if n == 0 {
      assert fates + Many(g, 0) == fates;
    } else {
      PickedMany(written, fates, g, n - 1);
      assert fates + Many(g, n) == fates + Many(g, n - 1) + [g];
      PickedOne(written, fates + Many(g, n - 1), g);
      assert written[|fates|..|fates| + n] == written[|fates|..|fates| + n - 1] + [written[|fates| + n - 1]];
    }
  }

  lemma {:induction false} PickedPrefix(written: seq<byte>, more: seq<byte>, fates: seq<Fate>)
    requires |fates| <= |written|
    ensures Picked(written + more, fates) == Picked(written, fates)
  {
    if fates != [] {
      PickedPrefix(written, more, fates[..|fates| - 1]);
    }
  }

  lemma {:induction false} CountsAddUp(written: seq<byte>, fates: seq<Fate>)
    requires |fates| <= |written|
    ensures |Picked(written, fates)| == Count(fates, Delivered)
    ensures |fates| == Count(fates, Delivered) + Count(fates, Dropped) + Count(fates, Lapsed)
  {
    if fates != [] {
      CountsAddUp(written, fates[..|fates| - 1]);
    }
  }

  /** Taking `n` bytes from the head of the queue and giving them a fate. */
  lemma LeavesBalanced(s: State, f: Fate, n: nat, o': Output, heard: seq<byte>)
    requires Balanced(s) && n <= |s.out.queue|
    requires o'.queue == s.out.queue[n..]
    requires o'.dropped == s.out.dropped + (if f == Dropped then n else 0)
    requires o'.expired == s.out.expired + (if f == Lapsed then n else 0)
    requires o'.skip > 0 ==> o'.queue == []
    requires heard == s.ledger.heard + if f == Delivered then Values(s.out.queue[..n]) else []
    ensures Balanced(State(s.config, o', Ledger(s.ledger.written, s.ledger.fates + Many(f, n), heard)))
  {
    var l, queue := s.ledger, s.out.queue;
    CountMany(l.fates, f, n, Dropped);
    CountMany(l.fates, f, n, Lapsed);
    PickedMany(l.written, l.fates, f, n);
    assert l.written[|l.fates|..][..n] == l.written[|l.fates|..|l.fates| + n];
    assert Values(queue[..n]) == Values(queue)[..n];
    assert Values(queue[n..]) == Values(queue)[n..];
    assert l.written[|l.fates|..][n..] == l.written[|l.fates| + n..];
  }

  /** The part of a write that completes a skipped sample lapses; the rest is queued. */
  lemma QueuedBalanced(s: State, now: int, data: seq<byte>)
    requires Balanced(s)
    ensures var skipped := Least(|data|, s.out.skip);
            Balanced(State(s.config,
                           s.out.(skip := s.out.skip - skipped, expired := s.out.expired + skipped,
                                  queue := s.out.queue + StampAll(now, data[skipped..])),
                           Ledger(s.ledger.written + data, s.ledger.fates + Many(Lapsed, skipped), s.ledger.heard)))
  {
    hide Picked, Count;
    var o, l := s.out, s.ledger;
    var skipped := Least(|data|, o.skip);
    PickedPrefix(l.written, data, l.fates);
    PickedMany(l.written + data, l.fates, Lapsed, skipped);
    CountMany(l.fates, Lapsed, skipped, Dropped);
    CountMany(l.fates, Lapsed, skipped, Lapsed);
    TailAfterSkip(l.written, data, |l.fates|, skipped);
    assert Values(o.queue + StampAll(now, data[skipped..])) == Values(o.queue) + data[skipped..];
  }

  lemma TailAfterSkip(written: seq<byte>, data: seq<byte>, done: nat, skipped: nat)
    requires done <= |written| && skipped <= |data| && (skipped > 0 ==> done == |written|)
    ensures (written + data)[done + skipped..] == written[done..] + data[skipped..]
  {
  }

  lemma WriteBalanced(s: State, now: int, data: seq<byte>)
    requires Balanced(s)
    ensures Balanced(Next(s, Wrote(now, data)))
  {
    hide Excess, Picked, Count, Balanced, StampAll, Many;
    var State(c, o, l) := s;
    var skipped := Least(|data|, o.skip);
    var rest := data[skipped..];
    QueuedBalanced(s, now, data);
    var o' := o.(skip := o.skip - skipped, expired := o.expired + skipped, queue := o.queue + StampAll(now, rest));
    var l' := Ledger(l.written + data, l.fates + Many(Lapsed, skipped), l.heard);
    if rest == [] {
      NoMore(l'.fates, o.queue, now);
      assert Written(c, o, now, data) == o';
      assert Next(s, Wrote(now, data)) == State(c, o', l');
    } else {
      SkipMeansEmpty(State(c, o', l'));
      assert Written(c, o, now, data) == Trimmed(c, o');
      assert Next(s, Wrote(now, data)) == State(c, Trimmed(c, o'), l'.(fates := l'.fates + Many(Dropped, Excess(c, |o'.queue|))));
      LeavesBalanced(State(c, o', l'), Dropped, Excess(c, |o'.queue|), Trimmed(c, o'), l.heard);
    }
  }

  lemma NoMore(fates: seq<Fate>, queue: seq<Stamped>, now: int)
    ensures fates + Many(Dropped, 0) == fates && queue + StampAll(now, []) == queue
  {
  }

  /** What expiry does to the queue and the counters, and what a delivery does. */
  lemma ExpiredIs(c: Config, o: Output, now: int)
    requires o.skip > 0 ==> o.queue == []
    ensures var e, n := Expired(c, o, now), Expiring(c, o, now);
            e.queue == o.queue[n..] && e.expired == o.expired + n && e.dropped == o.dropped && (e.skip > 0 ==> e.queue == [])
  {
    SkipEmpties(c, o, now);
    hide Expiring, NewSkip;
  }

  lemma DeliveryIs(c: Config, o: Output, now: int, length: nat)
    ensures var (n, o') := Delivery(c, o, now, length);
            n <= |o.queue| && o'.queue == o.queue[n..] && o'.expired == o.expired && o'.dropped == o.dropped && o'.skip == o.skip
  {
    hide Available, Held;
  }

  lemma TookIs(s: State, now: int, length: nat)
    requires length > 0
    ensures var State(c, o, l) := s;
            var e, gone := Expired(c, o, now), Expiring(c, o, now);
            var (n, o') := Delivery(c, e, now, length);
            n <= |e.queue| &&
            Next(s, Took(now, length)) == State(c, o', Ledger(l.written, l.fates + Many(Lapsed, gone) + Many(Delivered, n), l.heard + Values(e.queue[..n])))
  {
    DeliveryIs(s.config, Expired(s.config, s.out, now), now, length);
    hide Expired, Expiring, Delivery;
  }

  lemma ReadBalanced(s: State, now: int, length: int)
    requires Balanced(s)
    ensures Balanced(Next(s, Took(now, length)))
  {
    if length > 0 {
      TookIs(s, now, length);
      SkipMeansEmpty(s);
      hide *;
      var State(c, o, l) := s;
      var e, gone := Expired(c, o, now), Expiring(c, o, now);
      ExpiredIs(c, o, now);
      LeavesBalanced(s, Lapsed, gone, e, l.heard);
      var mid := State(c, e, Ledger(l.written, l.fates + Many(Lapsed, gone), l.heard));
      var (n, o') := Delivery(c, e, now, length);
      DeliveryIs(c, e, now, length);
      LeavesBalanced(mid, Delivered, n, o', l.heard + Values(e.queue[..n]));
    }
  }

  /** Expiry leaves something to skip only when it has emptied the queue. */
  lemma SkipEmpties(c: Config, o: Output, now: int)
    requires o.skip > 0 ==> o.queue == []
    ensures Expired(c, o, now).skip > 0 ==> Expired(c, o, now).queue == []
  {
  }

  /**
   After any run of writes, reads and configurations, every byte written is either still queued or has exactly
   one fate; the audio heard is the delivered bytes in the order they were written; and the counters are exact:
   written = heard + dropped + expired + queued.  A pending alignment skip means an empty queue.
   */
  lemma {:induction false} EveryByteIsAccountedFor(c: Config, events: seq<Event>)
    ensures var s := Run(c, events);
            && Balanced(s)
            && |s.ledger.written| == |s.ledger.heard| + s.out.dropped + s.out.expired + |s.out.queue|
  {
    hide Next, Count, Picked;
    if events == [] {
      EmptyIsBalanced(c);
    } else {
      var before, e := events[..|events| - 1], events[|events| - 1];
      var s := Run(c, before);
      EveryByteIsAccountedFor(c, before);
      match e
      case Wrote(now, data) => WriteBalanced(s, now, data);
      case Took(now, length) => ReadBalanced(s, now, length);
      case Configured(c', primed) => ConfigureBalanced(s, c', primed);
    }
    var s := Run(c, events);
    CountsAddUp(s.ledger.written, s.ledger.fates);
  }

  lemma EmptyIsBalanced(c: Config)
    ensures Balanced(Start(c))
  {
  }

  lemma ConfigureBalanced(s: State, c: Config, primed: bool)
    requires Balanced(s)
    ensures Balanced(Next(s, Configured(c, primed)))
  {
    hide Excess, Picked, Count;
    LeavesBalanced(s, Dropped, Excess(c, |s.out.queue|), Trimmed(c, s.out).(primed := primed), s.ledger.heard);
  }

  // ------------------------------------------------------------------ alignment

  /** The head of the queue, counting the pending skip, is on a sample boundary. */
  predicate Aligned(s: State) {
    (|s.ledger.fates| + s.out.skip) % s.config.alignment == 0
  }

  lemma SumOfMultiples(x: nat, y: nat, a: Pos)
    requires x % a == 0
    ensures (x + y) % a == y % a
  {
    var q := x / a;
    assert x == q * a;
    AddsMultiple(y, q, a);
  }

  lemma AddsMultiple(y: nat, q: nat, a: Pos)
    ensures (q * a + y) % a == y % a
  {
    if q > 0 {
      AddsMultiple(y, q - 1, a);
      assert q * a + y == ((q - 1) * a + y) + a;
      RemainderOfSum((q - 1) * a + y, a);
    }
  }

  /** Trimming cuts a sample exactly when rounding up would take more than there is and what there is has a partial sample. */
  lemma TrimCutsSampleIff(c: Config, size: nat)
    ensures Excess(c, size) % c.alignment != 0 <==>
              && Maximum(c).Some? && size > Maximum(c).value && size % c.alignment != 0
              && (size - Maximum(c).value + c.alignment - 1) / c.alignment * c.alignment > size
  {
    if Maximum(c).Some? && size > Maximum(c).value {
      RoundsUp(size - Maximum(c).value, c.alignment);
    }
  }

  /** It never does when a frame holds at least one sample. */
  lemma FrameOfSampleIsEnough(c: Config, size: nat)
    requires c.frameBytes >= c.alignment
    ensures Excess(c, size) % c.alignment == 0
  {
    TrimCutsSampleIff(c, size);
    if Maximum(c).Some? && size > Maximum(c).value {
      RoundsUp(size - Maximum(c).value, c.alignment);
    }
  }

  /** With a maximum of one byte and samples of four, writing six bytes drops all six, a sample and a half: the next byte is mid-sample. */
  lemma SmallFramesCutSamples()
    ensures !Aligned(Run(Config(1, 1000, 0, 4, Some(1000), 0), [Wrote(0, [1, 2, 3, 4, 5, 6])]))
  {
    var c, e := Config(1, 1000, 0, 4, Some(1000), 0), Wrote(0, [1, 2, 3, 4, 5, 6]);
    assert Maximum(c) == Some(1) && Excess(c, 6) == 6;
    assert [e][..0] == [] && Run(c, [e]) == Next(Start(c), e);
    assert |Run(c, [e]).ledger.fates| == 6;
  }

  lemma ExpiryCompletesSample(c: Config, o: Output, now: int)
    ensures (Expiring(c, o, now) + NewSkip(c, o, now)) % c.alignment == 0
  {
    if c.latency.Some? {
      var stale := Stale(o.queue, now, c.latency.value);
      var q := stale / c.alignment;
      assert stale == q * c.alignment + stale % c.alignment;
      if stale % c.alignment != 0 {
        assert stale + (c.alignment - stale % c.alignment) == (q + 1) * c.alignment;
        MultipleHasNoRemainder(q + 1, c.alignment);
      }
    }
  }

  lemma AvailableIsWhole(c: Config, o: Output, length: nat)
    ensures Available(c, o, length) % c.alignment == 0
  {
    var count := Least(length, |o.queue|);
    var q := count / c.alignment;
    assert count - count % c.alignment == q * c.alignment;
    MultipleHasNoRemainder(q, c.alignment);
  }

  lemma StepStaysAligned(s: State, e: Event)
    requires Aligned(s) && s.config.frameBytes >= s.config.alignment
    requires e.Configured? ==> e.config.frameBytes >= e.config.alignment == s.config.alignment
    ensures Aligned(Next(s, e)) && Next(s, e).config.alignment == s.config.alignment
  {
    hide Excess, Expiring, NewSkip, Available, Held;
    var State(c, o, l) := s;
    match e
    case Wrote(now, data) =>
      var skipped := Least(|data|, o.skip);
      FrameOfSampleIsEnough(c, |o.queue| + |data| - skipped);
      SumOfMultiples(|l.fates| + o.skip, if skipped == |data| then 0 else Excess(c, |o.queue| + |data| - skipped), c.alignment);
    case Took(now, length) =>
      if length > 0 {
        ReadStaysAligned(s, now, length);
      }
    case Configured(c', _) =>
      FrameOfSampleIsEnough(c', |o.queue|);
      SumOfMultiples(|l.fates| + o.skip, Excess(c', |o.queue|), c.alignment);
  }

  lemma ReadStaysAligned(s: State, now: int, length: nat)
    requires Aligned(s) && length > 0
    ensures Aligned(Next(s, Took(now, length)))
  {
    hide Expiring, NewSkip, Available, Held;
    var State(c, o, l) := s;
    var gone, more, e := Expiring(c, o, now), NewSkip(c, o, now), Expired(c, o, now);
    ExpiryCompletesSample(c, o, now);
    SumOfMultiples(|l.fates| + o.skip, gone + more, c.alignment);
    AvailableIsWhole(c, e, length);
    SumOfMultiples(|l.fates| + gone + o.skip + more, Delivery(c, e, now, length).0, c.alignment);
  }

  /** Every frame of a run's configurations holds at least one sample, of one size throughout. */
  predicate WholeSampleFrames(c: Config, events: seq<Event>) {
    && c.frameBytes >= c.alignment
    && forall e :: e in events && e.Configured? ==> e.config.frameBytes >= e.config.alignment == c.alignment
  }

  lemma {:induction false} HeadStaysAligned(c: Config, events: seq<Event>)
    requires WholeSampleFrames(c, events)
    ensures Aligned(Run(c, events)) && Run(c, events).config.alignment == c.alignment
    ensures Run(c, events).config.frameBytes >= c.alignment
  {
    hide Excess, Written, ReadFrom, Expiring, Trimmed, Aligned;
    if events == [] {
      StartIsAligned(c);
    } else {
      var before, e := events[..|events| - 1], events[|events| - 1];
      assert e in events && forall x :: x in before ==> x in events;
      HeadStaysAligned(c, before);
      StepStaysAligned(Run(c, before), e);
    }
  }

  lemma StartIsAligned(c: Config)
    ensures Aligned(Start(c))
  {
  }

  // ------------------------------------------------------------------ realtime bounds

  ghost predicate InOrder(queue: seq<Stamped>, now: int) {
    && (forall i, j :: 0 <= i < j < |queue| ==> queue[i].at <= queue[j].at)
    && (forall i :: 0 <= i < |queue| ==> queue[i].at <= now)
  }

  function TimeOf(e: Event, now: int): int {
    match e case Wrote(t, _) => t case Took(t, _) => t case Configured(_, _) => now
  }

  /** The clock of a run does not go back. */
  ghost predicate Timed(events: seq<Event>, start: int) {
    events == [] ||
    (var before, e := events[..|events| - 1], events[|events| - 1];
     Timed(before, start) && Clock(before, start) <= TimeOf(e, Clock(before, start)))
  }

  ghost function Clock(events: seq<Event>, start: int): int {
    if events == [] then start else TimeOf(events[|events| - 1], Clock(events[..|events| - 1], start))
  }

  /** The queue is a suffix of the old one, with new bytes stamped now. */
  lemma SuffixInOrder(queue: seq<Stamped>, n: nat, now: int, now': int)
    requires InOrder(queue, now) && now <= now' && n <= |queue|
    ensures InOrder(queue[n..], now')
  {
  }

  lemma AppendInOrder(queue: seq<Stamped>, now: int, now': int, data: seq<byte>)
    requires InOrder(queue, now) && now <= now'
    ensures InOrder(queue + StampAll(now', data), now')
  {
  }

  /** The queue after a step: what was left of it and what was added, less a prefix. */
  lemma QueueAfter(s: State, e: Event) returns (n: nat)
    requires s.out.skip > 0 ==> s.out.queue == []
    ensures var added := if e.Wrote? then StampAll(e.now, e.data[Least(|e.data|, s.out.skip)..]) else [];
            n <= |s.out.queue + added| && Next(s, e).out.queue == (s.out.queue + added)[n..]
  {
    match e
    case Wrote(now, data) => n := QueueAfterWrite(s, now, data);
    case Took(now, length) => n := QueueAfterRead(s, now, length);
    case Configured(c', primed) =>
      hide Excess;
      assert s.out.queue + [] == s.out.queue;
      n := Excess(c', |s.out.queue|);
  }

  lemma QueueAfterWrite(s: State, now: int, data: seq<byte>) returns (n: nat)
    requires s.out.skip > 0 ==> s.out.queue == []
    ensures var added := StampAll(now, data[Least(|data|, s.out.skip)..]);
            n <= |s.out.queue + added| && Next(s, Wrote(now, data)).out.queue == (s.out.queue + added)[n..]
  {
    hide Excess;
    var skipped := Least(|data|, s.out.skip);
    var all := s.out.queue + StampAll(now, data[skipped..]);
    n := if skipped == |data| then 0 else Excess(s.config, |all|);
    assert all[0..] == all;
  }

  lemma QueueAfterRead(s: State, now: int, length: int) returns (n: nat)
    ensures n <= |s.out.queue + []| && Next(s, Took(now, length)).out.queue == (s.out.queue + [])[n..]
  {
    hide Expiring, NewSkip, Available, Held;
    var queue := s.out.queue;
    assert queue + [] == queue;
    if length > 0 {
      var x := Expiring(s.config, s.out, now);
      var y := Delivery(s.config, Expired(s.config, s.out, now), now, length).0;
      n := x + y;
      assert queue[x..][y..] == queue[x + y..];
    } else {
      n := 0;
    }
  }

  lemma {:induction false} QueueInOrder(c: Config, events: seq<Event>, start: int)
    requires Timed(events, start)
    ensures InOrder(Run(c, events).out.queue, Clock(events, start))
  {
    hide Next, InOrder, Balanced;
    if events == [] {
      EmptyInOrder(start);
    } else {
      var before, e := events[..|events| - 1], events[|events| - 1];
      var s, now, now' := Run(c, before), Clock(before, start), Clock(events, start);
      QueueInOrder(c, before, start);
      EveryByteIsAccountedFor(c, before);
      SkipMeansEmpty(s);
      var n := QueueAfter(s, e);
      if e.Wrote? {
        AppendInOrder(s.out.queue, now, now', e.data[Least(|e.data|, s.out.skip)..]);
        SuffixInOrder(s.out.queue + StampAll(e.now, e.data[Least(|e.data|, s.out.skip)..]), n, now', now');
      } else {
        assert s.out.queue + [] == s.out.queue;
        SuffixInOrder(s.out.queue, n, now, now');
      }
    }
  }

  lemma EmptyInOrder(now: int)
    ensures InOrder([], now)
  {
  }

  lemma SkipMeansEmpty(s: State)
    requires Balanced(s)
    ensures s.out.skip > 0 ==> s.out.queue == []
  {
  }

  /** What expiry leaves is not stale. */
  lemma {:induction false} StaleIsAll(queue: seq<Stamped>, now: int, latency: nat, i: nat)
    requires InOrder(queue, now) && Stale(queue, now, latency) <= i < |queue|
    ensures now - queue[i].at <= latency
  {
    if queue != [] && now - queue[0].at > latency {
      assert InOrder(queue[1..], now);
      StaleIsAll(queue[1..], now, latency, i - 1);
    } else {
      assert queue[0].at <= queue[i].at;
    }
  }

  /** In realtime mode, after any run, no byte that the next read delivers is older than the maximum latency. */
  lemma DeliveredIsFresh(c: Config, events: seq<Event>, start: int, now: int, length: nat, i: nat)
    requires Timed(events, start) && Clock(events, start) <= now && length > 0
    requires var s := Run(c, events);
             s.config.latency.Some? && i < |ReadFrom(s.config, s.out, now, length).1|
    ensures var s := Run(c, events);
            var e := Expired(s.config, s.out, now);
            && i < |e.queue| && ReadFrom(s.config, s.out, now, length).1[i] == e.queue[i].value
            && now - e.queue[i].at <= s.config.latency.value
  {
    hide Run, Stale, InOrder;
    var s := Run(c, events);
    QueueInOrder(c, events, start);
    assert s.out.queue[0..] == s.out.queue;
    SuffixInOrder(s.out.queue, 0, Clock(events, start), now);
    StaleIsAll(s.out.queue, now, s.config.latency.value, Expiring(s.config, s.out, now) + i);
  }

  /** In realtime mode the queue never holds more than its maximum. */
  lemma {:induction false} QueueIsBounded(c: Config, events: seq<Event>)
    requires c.latency == None
    ensures var s := Run(c, events);
            s.config.latency.Some? ==> Maximum(s.config).Some? && |s.out.queue| <= Maximum(s.config).value
  {
    hide Fitting, Expiring, NewSkip, Available, Held, Excess, Balanced;
    if events != [] {
      var before, e := events[..|events| - 1], events[|events| - 1];
      var s := Run(c, before);
      QueueIsBounded(c, before);
      EveryByteIsAccountedFor(c, before);
      SkipMeansEmpty(s);
      match e
      case Wrote(now, data) =>
        var skipped := Least(|data|, s.out.skip);
        TrimFits(s.config, s.out.(skip := s.out.skip - skipped, expired := s.out.expired + skipped,
                                  queue := s.out.queue + StampAll(now, data[skipped..])));
      case Took(now, length) =>
        var n := QueueAfter(s, e);
      case Configured(c', _) =>
        TrimFits(c', s.out);
    }
  }
}
