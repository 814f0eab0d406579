/** Both ends of a telephone-event stream as the program runs them, and the wire between them. */
module DtmfClient {
  import opened Bytes
  import opened Rtp
  import opened Dtmf
  import opened DtmfDelivery

  // ------------------------------------------------------------------ what is sent

  datatype Item = Item(segment: Segment, report: EventReport, volume: nat)

  function ItemsOf(s: Segment, reports: seq<EventReport>, volume: nat): (items: seq<Item>)
    ensures |items| == |reports| && forall i :: 0 <= i < |items| ==> items[i] == Item(s, reports[i], volume)
  {
    seq<Item>(|reports|, i requires 0 <= i < |reports| => Item(s, reports[i], volume))
  }

  /** Everything sent for a tone from `completed` ticks on. */
  function ToSend(t: Tone, start: nat, completed: nat, volume: nat): seq<Item>
    decreases t.duration - completed
  {
    if completed >= t.duration then []
    else
      var s := SegmentsFrom(t, start, completed)[0];
      ItemsOf(s, Reports(s, t.step), volume) + ToSend(t, start, completed + s.duration, volume)
  }

  function Packets(payloadType: int, ssrc: nat, items: seq<Item>, sequence: nat): seq<seq<byte>>
    requires 0 <= payloadType <= 127
  {
    if items == [] then []
    else
      var n := |items| - 1;
      Packets(payloadType, ssrc, items[..n], sequence)
      + [PacketOf(payloadType, ssrc, items[n].volume, items[n].segment, items[n].report, (sequence + n) % 0x1_0000).value]
  }

  /** Each report sent belongs to a segment of the tone, and each segment's final report is sent. */
  lemma {:induction false} AllIsSent(t: Tone, start: nat, completed: nat, volume: nat)
    ensures forall x :: x in ToSend(t, start, completed, volume) ==>
                          x.segment in SegmentsFrom(t, start, completed) && IsReport(x.segment, x.report)
    ensures forall s :: s in SegmentsFrom(t, start, completed) ==>
                          exists x :: x in ToSend(t, start, completed, volume) && x.segment == s && IsFinal(s, x.report)
    decreases t.duration - completed
  {
    if completed < t.duration {
      var segs, all := SegmentsFrom(t, start, completed), ToSend(t, start, completed, volume);
      var s := segs[0];
      var now, rest := ItemsOf(s, Reports(s, t.step), volume), ToSend(t, start, completed + s.duration, volume);
      AllIsSent(t, start, completed + s.duration, volume);
      ReportsAreReports(s, t.step);
      assert segs == [s] + SegmentsFrom(t, start, completed + s.duration);
      forall x | x in all
        ensures x.segment in segs && IsReport(x.segment, x.report)
      {
        if x in now {
          var i :| 0 <= i < |now| && now[i] == x;
        }
      }
      forall g | g in segs
        ensures exists x :: x in all && x.segment == g && IsFinal(g, x.report)
      {
        if g == s {
          var r :| r in Reports(s, t.step) && IsFinal(s, r);
          var i :| 0 <= i < |Reports(s, t.step)| && Reports(s, t.step)[i] == r;
          assert now[i] in all;
        } else {
          var x :| x in rest && x.segment == g && IsFinal(g, x.report);
          assert x in all;
        }
      }
    }
  }

  class Sender {
    const eventType: Option<nat>
    const ssrc: nat
    var running: bool
    var outTimestamp: nat
    var outSequence: nat
    var sent: seq<seq<byte>>

    ghost var clock: nat          // the timestamp, not reduced to 32 bits
    ghost var items: seq<Item>    // what has been sent
    ghost const initial: nat      // the first sequence number

    ghost predicate Valid()
      reads this
    {
      && outTimestamp == clock % WRAP
      && (eventType.Some? ==> eventType.value <= 127 && sent == Packets(eventType.value, ssrc, items, initial))
      && outSequence == (initial + |items|) % 0x1_0000
    }

    constructor (eventType: Option<nat>, ssrc: nat, timestamp: nat, sequence: nat)
      requires eventType.Some? ==> eventType.value <= 127
      requires timestamp < WRAP && sequence < 0x1_0000
      ensures Valid() && items == [] && clock == timestamp && running && this.eventType == eventType && this.ssrc == ssrc
    {
      this.eventType, this.ssrc := eventType, ssrc;
      running, outTimestamp, outSequence, sent := true, timestamp, sequence, [];
      clock, items, initial := timestamp, [], sequence;
    }

    /** One report on the wire; `s` is the segment it speaks for. */
    method Send(ghost s: Segment, code: nat, r: EventReport, volume: nat, timestamp: nat)
      requires Valid() && eventType.Some? && code == s.code && timestamp == s.start % WRAP
      modifies this`sent, this`outSequence, this`items
      ensures Valid() && items == old(items) + [Item(s, r, volume)]
    {
      hide EventPayload, Build;
      CanBuild(eventType.value, EventPayload(code, r, volume), r.marker, timestamp, outSequence, ssrc);
      var packet := Build(eventType.value, EventPayload(code, r, volume), r.marker, timestamp, outSequence, ssrc);
      sent := sent + [packet.value];
      NextSequence(initial, |items|);
      outSequence := (outSequence + 1) % 0x1_0000;
      PacketsMore(eventType.value, ssrc, items, Item(s, r, volume), initial);
      hide Packets;
      items := items + [Item(s, r, volume)];
    }

    /** The reports of one segment. */
    method SendSegment(ghost s: Segment, code: nat, duration: Pos, first: bool, last: bool, step: Pos, volume: nat, timestamp: nat)
      requires Valid() && eventType.Some? && s == Segment(code, s.start, duration, first, last) && timestamp == s.start % WRAP
      modifies this`sent, this`outSequence, this`items
      ensures Valid() && items == old(items) + ItemsOf(s, Reports(s, step), volume)
    {
      hide Valid, Packets, Reports, Updates, ItemsOf;
      var elapsed := if step < duration then step else duration;
      ghost var done := [EventReport(first, elapsed, false)];
      Send(s, code, EventReport(first, elapsed, false), volume, timestamp);
      FirstReport(s, step, volume);
      while elapsed + step < duration
        invariant 0 <= elapsed
        invariant Valid() && items == old(items) + ItemsOf(s, done, volume)
        invariant Reports(s, step) == done + Updates(elapsed, step, duration) + Thrice(EventReport(false, duration, last))
        decreases duration - elapsed
      {
        var r := EventReport(false, elapsed + step, false);
        Send(s, code, r, volume, timestamp);
        ItemsMore(s, done, r, volume);
        NextReport(s, step, done, elapsed, Thrice(EventReport(false, duration, last)));
        done := done + [r];
        elapsed := elapsed + step;
      }
      SendFinals(s, code, EventReport(false, duration, last), volume, timestamp);
      LastReports(s, step, done, elapsed, Thrice(EventReport(false, duration, last)));
      ItemsJoin(s, done, Thrice(EventReport(false, duration, last)), volume);
    }

    /** The final report, three times. */
    method SendFinals(ghost s: Segment, code: nat, final: EventReport, volume: nat, timestamp: nat)
      requires Valid() && eventType.Some? && code == s.code && timestamp == s.start % WRAP
      modifies this`sent, this`outSequence, this`items
      ensures Valid() && items == old(items) + ItemsOf(s, Thrice(final), volume)
    {
      hide Valid, Packets;
      for repeat := 0 to 3
        invariant Valid() && items == old(items) + ItemsOf(s, seq(repeat, _ => final), volume)
      {
        Send(s, code, final, volume, timestamp);
        ItemsMore(s, seq(repeat, _ => final), final, volume);
        assert seq(repeat + 1, _ => final) == seq(repeat, _ => final) + [final];
      }
    }

    /** Send one tone, in segments; false when telephone events cannot be sent. */
    method TransmitDtmf(code: nat, duration: int, step: int, volume: nat) returns (ok: bool)
      requires Valid()
      modifies this`sent, this`outSequence, this`items, this`outTimestamp, this`clock
      ensures Valid()
      ensures ok <==> eventType.Some? && running && code < 16
      ensures !ok ==> items == old(items) && sent == old(sent) && clock == old(clock)
      ensures ok ==> var t := Tone(code, AtLeastOne(duration), AtLeastOne(step));
                     items == old(items) + ToSend(t, old(clock), 0, volume) && clock == old(clock) + t.duration
    {
      if eventType.None? || !running || code >= CODES {
        return false;
      }
      hide Packets, ItemsOf, Reports;
      var t := Tone(code, AtLeastOne(duration), AtLeastOne(step));
      var start := outTimestamp;
      SendTone(t, volume, start);
      outTimestamp := (start + t.duration) % WRAP;
      AddModulo(clock, t.duration);
      clock := clock + t.duration;
      return true;
    }

    /** The loop over the segments of a tone. */
    method SendTone(t: Tone, volume: nat, start: nat)
      requires Valid() && eventType.Some? && start == clock % WRAP
      modifies this`sent, this`outSequence, this`items
      ensures Valid() && items == old(items) + ToSend(t, clock, 0, volume)
    {
      hide Valid, Packets, ItemsOf, Reports, ToSend, SegmentsFrom;
      var completed := 0;
      while completed < t.duration
        invariant 0 <= completed
        invariant Valid() && items + ToSend(t, clock, completed, volume) == old(items) + ToSend(t, clock, 0, volume)
        decreases t.duration - completed
      {
        var d := if t.duration - completed < MAX_SEGMENT then t.duration - completed else MAX_SEGMENT;
        ghost var s := Segment(t.code, clock + completed, d, completed == 0, completed + d == t.duration);
        AddModulo(clock, completed);
        SendMore(t, clock, completed, volume, s);
        SendSegment(s, t.code, d, completed == 0, completed + d == t.duration, t.step, volume, (start + completed) % WRAP);
        completed := completed + d;
      }
      SentAll(t, clock, completed, volume);
    }
  }

  /** max(1, ...) */
  function AtLeastOne(n: int): Pos {
    if n < 1 then 1 else n
  }

  lemma SendMore(t: Tone, start: nat, completed: nat, volume: nat, s: Segment)
    requires completed < t.duration
    requires s.duration == if t.duration - completed < MAX_SEGMENT then t.duration - completed else MAX_SEGMENT
    requires s == Segment(t.code, start + completed, s.duration, completed == 0, completed + s.duration == t.duration)
    ensures ToSend(t, start, completed, volume) == ItemsOf(s, Reports(s, t.step), volume) + ToSend(t, start, completed + s.duration, volume)
  {
    hide Reports;
  }

  lemma SentAll(t: Tone, start: nat, completed: nat, volume: nat)
    requires completed >= t.duration
    ensures ToSend(t, start, completed, volume) == []
  {
  }

  lemma NextSequence(initial: nat, n: nat)
    ensures ((initial + n) % 0x1_0000 + 1) % 0x1_0000 == (initial + (n + 1)) % 0x1_0000
  {
  }

  lemma CanBuild(payloadType: int, payload: seq<byte>, marker: bool, timestamp: nat, sequence: nat, ssrc: nat)
    ensures Build(payloadType, payload, marker, timestamp, sequence, ssrc).Ok? <==> 0 <= payloadType <= 127
  {
    hide ToBytes;
  }

  lemma PacketsMore(payloadType: int, ssrc: nat, items: seq<Item>, x: Item, sequence: nat)
    requires 0 <= payloadType <= 127
    ensures Packets(payloadType, ssrc, items + [x], sequence)
            == Packets(payloadType, ssrc, items, sequence)
               + [PacketOf(payloadType, ssrc, x.volume, x.segment, x.report, (sequence + |items|) % 0x1_0000).value]
  {
    hide PacketOf;
    assert (items + [x])[..|items|] == items;
  }

  function Thrice(r: EventReport): seq<EventReport> {
    seq(3, _ => r)
  }

  lemma FirstReport(s: Segment, step: Pos, volume: nat)
    ensures var elapsed := if step < s.duration then step else s.duration;
            var first := EventReport(s.first, elapsed, false);
            && Reports(s, step) == [first] + Updates(elapsed, step, s.duration) + Thrice(EventReport(false, s.duration, s.last))
            && ItemsOf(s, [first], volume) == [Item(s, first, volume)]
  {
    hide Updates;
    var final := EventReport(false, s.duration, s.last);
    assert Thrice(final) == [final, final, final];
  }

  lemma NextReport(s: Segment, step: Pos, done: seq<EventReport>, elapsed: nat, finals: seq<EventReport>)
    requires elapsed + step < s.duration && Reports(s, step) == done + Updates(elapsed, step, s.duration) + finals
    ensures Reports(s, step) == (done + [EventReport(false, elapsed + step, false)]) + Updates(elapsed + step, step, s.duration) + finals
  {
    hide Reports;
    var r, more := EventReport(false, elapsed + step, false), Updates(elapsed + step, step, s.duration);
    assert Updates(elapsed, step, s.duration) == [r] + more;
    hide Updates;
    assert done + ([r] + more) == (done + [r]) + more;
  }

  lemma LastReports(s: Segment, step: Pos, done: seq<EventReport>, elapsed: nat, finals: seq<EventReport>)
    requires elapsed + step >= s.duration && Reports(s, step) == done + Updates(elapsed, step, s.duration) + finals
    ensures Reports(s, step) == done + finals
  {
    hide Reports;
    assert done + [] == done;
  }

  lemma ItemsJoin(s: Segment, a: seq<EventReport>, b: seq<EventReport>, volume: nat)
    ensures ItemsOf(s, a + b, volume) == ItemsOf(s, a, volume) + ItemsOf(s, b, volume)
  {
  }

  lemma ItemsMore(s: Segment, reports: seq<EventReport>, r: EventReport, volume: nat)
    ensures ItemsOf(s, reports + [r], volume) == ItemsOf(s, reports, volume) + [Item(s, r, volume)]
  {
  }

  lemma AddModulo(x: nat, y: nat)
    ensures (x % WRAP + y) % WRAP == (x + y) % WRAP
  {
  }

  // ------------------------------------------------------------------ what is heard

  datatype EventError = TooFew | PartialReport | UnsupportedCode

  /** Every whole report of a payload is checked before any of them is acted on. */
  function Check(payload: seq<byte>): Option<EventError> {
    if |payload| < 4 then Some(TooFew)
    else if |payload| % 4 != 0 then Some(PartialReport)
    else if exists k :: 0 <= k < |payload| && k % 4 == 0 && payload[k] >= CODES then Some(UnsupportedCode)
    else None
  }

  function DurationAt(payload: seq<byte>, i: nat): nat
    requires i + 4 <= |payload|
  {
    var high: nat := payload[i + 2];
    high * 256 + payload[i + 3]
  }

  predicate EndAt(payload: seq<byte>, i: nat)
    requires i + 4 <= |payload|
  {
    payload[i + 1] >= 128
  }

  /** Consecutive reports from byte `i` on: each starts where the one before it ended. */
  function HearFrom(h: Heard, payload: seq<byte>, i: nat, ssrc: nat, timestamp: nat, marker: bool): Heard
    decreases |payload| - i
  {
    if i + 4 > |payload| then h
    else
      var duration, end := DurationAt(payload, i), EndAt(payload, i);
      HearFrom(Receive(h, Key(ssrc, timestamp, payload[i]), duration, end, marker, |payload| > 4),
               payload, i + 4, ssrc, (timestamp + duration) % WRAP, end)
  }

  /** `parse_telephone_event`, as far as the callback is concerned. */
  function Hear(h: Heard, m: Message): Heard {
    if Check(m.payload).Some? then h else HearFrom(h, m.payload, 0, m.ssrc, m.timestamp, m.marker)
  }

  /** A packet off the network; one that does not parse is dropped. */
  function HearPacket(h: Heard, packet: seq<byte>, accepts: set<nat>): Heard {
    match Parse(packet, accepts) case Err(_) => h case Ok(m) => Hear(h, m)
  }

  function HearAll(packets: seq<seq<byte>>, accepts: set<nat>): Heard {
    if packets == [] then Heard([], map[], [])
    else HearPacket(HearAll(packets[..|packets| - 1], accepts), packets[|packets| - 1], accepts)
  }

  /** A report comes off the wire as the report that was sent. */
  lemma ReportOffTheWire(payloadType: nat, ssrc: nat, volume: nat, s: Segment, r: EventReport, sequence: nat, accepts: set<nat>, h: Heard)
    requires payloadType <= 127 && payloadType in accepts && ssrc < 0x1_0000_0000 && s.code < 16 && r.duration <= 0xFFFF
    ensures var packet := PacketOf(payloadType, ssrc, volume, s, r, sequence);
            packet.Ok? && HearPacket(h, packet.value, accepts) == Receive(h, KeyOf(ssrc, s), r.duration, r.end, r.marker, false)
  {
    hide *;
    var payload := EventPayload(s.code, r, volume);
    WireRoundTrip(payloadType, payload, r.marker, s.start % 0x1_0000_0000, sequence, ssrc, accepts);
    PayloadSays(s.code, r, volume);
    PacketIs(payloadType, ssrc, volume, s, r, sequence);
    HearsMessage(h, PacketOf(payloadType, ssrc, volume, s, r, sequence).value, accepts,
                 Message(false, false, r.marker, payloadType, sequence % 0x1_0000, s.start % 0x1_0000_0000 % 0x1_0000_0000, ssrc % 0x1_0000_0000, [], None, [], payload));
    HearsOne(h, payload, ssrc, s.start % 0x1_0000_0000, r.marker);
    SameKey(ssrc, s);
  }

  lemma PacketIs(payloadType: int, ssrc: nat, volume: nat, s: Segment, r: EventReport, sequence: nat)
    ensures PacketOf(payloadType, ssrc, volume, s, r, sequence)
            == Build(payloadType, EventPayload(s.code, r, volume), r.marker, s.start % 0x1_0000_0000, sequence, ssrc)
  {
    hide Build, EventPayload;
  }

  lemma SameKey(ssrc: nat, s: Segment)
    requires ssrc < 0x1_0000_0000
    ensures KeyOf(ssrc, s) == Key(ssrc, s.start % 0x1_0000_0000, s.code)
    ensures s.start % 0x1_0000_0000 % 0x1_0000_0000 == s.start % 0x1_0000_0000 && ssrc % 0x1_0000_0000 == ssrc
  {
  }

  lemma HearsMessage(h: Heard, packet: seq<byte>, accepts: set<nat>, m: Message)
    requires Parse(packet, accepts) == Ok(m) && Check(m.payload) == None
    ensures HearPacket(h, packet, accepts) == HearFrom(h, m.payload, 0, m.ssrc, m.timestamp, m.marker)
  {
    hide Parse, Check, HearFrom;
  }

  /** A payload of one report. */
  lemma HearsOne(h: Heard, payload: seq<byte>, ssrc: nat, timestamp: nat, marker: bool)
    requires |payload| == 4
    ensures HearFrom(h, payload, 0, ssrc, timestamp, marker)
            == Receive(h, Key(ssrc, timestamp, payload[0]), DurationAt(payload, 0), EndAt(payload, 0), marker, false)
  {
    hide Receive, DurationAt, EndAt;
    var heard, next := Receive(h, Key(ssrc, timestamp, payload[0]), DurationAt(payload, 0), EndAt(payload, 0), marker, false), (timestamp + DurationAt(payload, 0)) % 0x1_0000_0000;
    assert HearFrom(heard, payload, 4, ssrc, next, EndAt(payload, 0)) == heard;
  }

  lemma PayloadSays(code: nat, r: EventReport, volume: nat)
    requires code < 16 && r.duration <= 0xFFFF
    ensures var payload := EventPayload(code, r, volume);
            |payload| == 4 && payload[0] == code && DurationAt(payload, 0) == r.duration && EndAt(payload, 0) == r.end && Check(payload) == None
  {
  }

  /** Everything sent for digits keyed back to back. */
  function AllToSend(tones: seq<Tone>, start: nat, volume: nat): seq<Item> {
    if tones == [] then [] else ToSend(tones[0], start, 0, volume) + AllToSend(tones[1..], start + tones[0].duration, volume)
  }

  /** The packets that reach the receiver: copies of sent ones, numbered by their place in what was sent. */
  function Received(sent: seq<seq<byte>>, picks: seq<nat>): (packets: seq<seq<byte>>)
    requires forall k :: 0 <= k < |picks| ==> picks[k] < |sent|
    ensures |packets| == |picks| && forall k :: 0 <= k < |picks| ==> packets[k] == sent[picks[k]]
  {
    seq(|picks|, k requires 0 <= k < |picks| => sent[picks[k]])
  }

  /** What the picked packets report. */
  ghost predicate Reporting(segs: seq<Segment>, items: seq<Item>, picks: seq<nat>, arrivals: seq<Arrival>) {
    && |arrivals| == |picks|
    && forall k :: 0 <= k < |picks| ==>
         picks[k] < |items| && arrivals[k].index < |segs|
         && items[picks[k]].segment == segs[arrivals[k].index] && items[picks[k]].report == arrivals[k].report
  }

  lemma {:induction false} PacketAt(payloadType: int, ssrc: nat, items: seq<Item>, sequence: nat, i: nat)
    requires 0 <= payloadType <= 127 && i < |items|
    ensures |Packets(payloadType, ssrc, items, sequence)| == |items|
    ensures Packets(payloadType, ssrc, items, sequence)[i]
            == PacketOf(payloadType, ssrc, items[i].volume, items[i].segment, items[i].report, (sequence + i) % 0x1_0000).value
  {
    hide PacketOf;
    var n := |items| - 1;
    if i < n {
      PacketAt(payloadType, ssrc, items[..n], sequence, i);
    } else if n > 0 {
      PacketAt(payloadType, ssrc, items[..n], sequence, n - 1);
    }
  }

  lemma ScheduledLast(segs: seq<Segment>, arrivals: seq<Arrival>)
    requires Chained(segs) && Scheduled(segs, arrivals) && arrivals != []
    ensures Scheduled(segs, arrivals[..|arrivals| - 1])
    ensures var a := arrivals[|arrivals| - 1];
            a.index < |segs| && segs[a.index].code < 16 && a.report.duration <= 0xFFFF
  {
    hide Finished, Follows;
  }

  lemma {:induction false} HeardIsAfter(payloadType: nat, ssrc: nat, segs: seq<Segment>, items: seq<Item>, sequence: nat,
                                        picks: seq<nat>, arrivals: seq<Arrival>, accepts: set<nat>)
    requires payloadType <= 127 && payloadType in accepts && ssrc < 0x1_0000_0000
    requires Chained(segs) && Scheduled(segs, arrivals) && Reporting(segs, items, picks, arrivals)
    requires |Packets(payloadType, ssrc, items, sequence)| == |items|
    ensures forall a :: a in arrivals ==> a.index < |segs|
    ensures HearAll(Received(Packets(payloadType, ssrc, items, sequence), picks), accepts) == After(ssrc, segs, arrivals)
  {
    assert forall a :: a in arrivals ==> a.index < |segs|;
    if picks == [] {
      assert arrivals == [];
    } else {
      var n := |picks| - 1;
      ScheduledLast(segs, arrivals);
      hide Chained, Scheduled, Packets, Receive, HearPacket, PacketOf;
      HeardIsAfter(payloadType, ssrc, segs, items, sequence, picks[..n], arrivals[..n], accepts);
      HeardNext(payloadType, ssrc, segs, items, sequence, picks, arrivals, accepts);
    }
  }

  lemma HeardNext(payloadType: nat, ssrc: nat, segs: seq<Segment>, items: seq<Item>, sequence: nat,
                  picks: seq<nat>, arrivals: seq<Arrival>, accepts: set<nat>)
    requires payloadType <= 127 && payloadType in accepts && ssrc < 0x1_0000_0000
    requires Reporting(segs, items, picks, arrivals) && picks != []
    requires segs[arrivals[|picks| - 1].index].code < 16 && arrivals[|picks| - 1].report.duration <= 0xFFFF
    requires |Packets(payloadType, ssrc, items, sequence)| == |items|
    requires forall a :: a in arrivals[..|picks| - 1] ==> a.index < |segs|
    requires HearAll(Received(Packets(payloadType, ssrc, items, sequence), picks[..|picks| - 1]), accepts) == After(ssrc, segs, arrivals[..|picks| - 1])
    ensures forall a :: a in arrivals ==> a.index < |segs|
    ensures HearAll(Received(Packets(payloadType, ssrc, items, sequence), picks), accepts) == After(ssrc, segs, arrivals)
  {
    hide Packets, Receive, HearPacket, PacketOf;
    var n := |picks| - 1;
    var a, x := arrivals[n], items[picks[n]];
    var sent := Packets(payloadType, ssrc, items, sequence);
    var before := Received(sent, picks[..n]);
    assert Received(sent, picks)[..n] == before;
    PacketAt(payloadType, ssrc, items, sequence, picks[n]);
    ReportOffTheWire(payloadType, ssrc, x.volume, x.segment, x.report, (sequence + picks[n]) % 0x1_0000, accepts, HearAll(before, accepts));
  }

  /**
   Digits keyed back to back, of any lengths, reported at any spacing: whatever packets the network loses or
   repeats, if the final report of each segment arrives before the next segment is heard of, the callback sees
   exactly the digits, once each and in order.
   */
  lemma DigitsSurviveTheWire(payloadType: nat, ssrc: nat, tones: seq<Tone>, start: nat, volume: nat, sequence: nat,
                             picks: seq<nat>, arrivals: seq<Arrival>, accepts: set<nat>)
    requires payloadType <= 127 && payloadType in accepts && ssrc < 0x1_0000_0000
    requires forall i :: 0 <= i < |tones| ==> tones[i].code < 16
    requires Reporting(AllSegments(tones, start), AllToSend(tones, start, volume), picks, arrivals)
    requires Scheduled(AllSegments(tones, start), arrivals) && Started(arrivals) == |AllSegments(tones, start)|
    ensures var sent := Packets(payloadType, ssrc, AllToSend(tones, start, volume), sequence);
            (forall k :: 0 <= k < |picks| ==> picks[k] < |sent|) && HearAll(Received(sent, picks), accepts).digits == Digits(tones)
  {
    var segs, items := AllSegments(tones, start), AllToSend(tones, start, volume);
    TonesAreChained(tones, start);
    PacketsLength(payloadType, ssrc, items, sequence);
    DigitsHeardOnce(ssrc, tones, start, arrivals);
    HeardIsAfter(payloadType, ssrc, segs, items, sequence, picks, arrivals, accepts);
  }

  lemma {:induction false} PacketsLength(payloadType: int, ssrc: nat, items: seq<Item>, sequence: nat)
    requires 0 <= payloadType <= 127
    ensures |Packets(payloadType, ssrc, items, sequence)| == |items|
  {
    if items != [] {
      PacketAt(payloadType, ssrc, items, sequence, 0);
    }
  }

  function FinalOf(s: Segment): EventReport {
    EventReport(false, s.duration, s.last)
  }

  function FinalsOf(segs: seq<Segment>, n: nat): (arrivals: seq<Arrival>)
    requires n <= |segs|
    ensures |arrivals| == n && forall i :: 0 <= i < n ==> arrivals[i] == Arrival(i, FinalOf(segs[i]))
  {
    seq(n, i requires 0 <= i < n => Arrival(i, FinalOf(segs[i])))
  }

  /** Even when only one final report of each segment gets through, that is enough. */
  lemma {:induction false} FinalsAreEnough(segs: seq<Segment>, n: nat)
    requires n <= |segs|
    ensures Scheduled(segs, FinalsOf(segs, n)) && Started(FinalsOf(segs, n)) == n
  {
    if n > 0 {
      FinalsAreEnough(segs, n - 1);
      assert FinalsOf(segs, n)[..n - 1] == FinalsOf(segs, n - 1);
      if n > 1 {
        assert FinalsOf(segs, n - 1)[n - 2] in FinalsOf(segs, n - 1);
      }
    }
  }

  method ReadReport(report: seq<byte>) returns (duration: nat, end: bool)
    requires |report| == 4
    ensures duration == DurationAt(report, 0) && end == EndAt(report, 0)
  {
    var high: nat := report[2];
    return high * 256 + report[3], report[1] >= 128;
  }

  class EventReceiver {
    const listening: bool            // a callback is installed
    var received: set<Key>
    var order: seq<Key>
    var segments: map<Key, (nat, bool)>
    var digits: seq<nat>             // what the callback has been given

    ghost predicate Valid()
      reads this`received, this`order, this`segments
    {
      && |order| <= KEPT && (forall i, j :: 0 <= i < j < |order| ==> order[i] != order[j])
      && (forall k :: k in received <==> k in order) && segments.Keys == received
    }

    ghost function View(): Heard
      reads this
    {
      Heard(order, segments, digits)
    }

    constructor (listening: bool)
      ensures Valid() && this.listening == listening && View() == Heard([], map[], [])
    {
      this.listening := listening;
      received, order, segments, digits := {}, [], map[], [];
    }

    /** One report of four bytes. */
    method Report(report: seq<byte>, ssrc: nat, timestamp: nat, marker: bool, packed: bool)
      requires Valid() && |report| == 4
      modifies this
      ensures Valid()
      ensures View() == if listening then Receive(old(View()), Key(ssrc, timestamp, report[0]), DurationAt(report, 0), EndAt(report, 0), marker, packed)
                        else old(View())
    {
      hide DurationAt, EndAt, Valid;
      if !listening {
        return;
      }
      var duration, end := ReadReport(report);
      var key := Key(ssrc, timestamp, report[0]);
      ValidMeans(key);
      if key in received {
        Sharpen(key, duration, end);
        return;
      }
      var preceding := Key(ssrc, (timestamp - MAX_SEGMENT) % WRAP, report[0]);
      var continuation := (!marker || packed) && preceding in segments && segments[preceding] == (MAX_SEGMENT, false);
      Remember(key, duration, end);
      if !continuation {
        digits := digits + [report[0]];
      }
    }

    lemma ValidMeans(key: Key)
      requires Valid()
      ensures |order| <= KEPT && (key in received <==> key in order) && (key in received <==> key in segments)
    {
    }

    /** A repeat only sharpens what is known of its segment. */
    method Sharpen(key: Key, duration: nat, end: bool)
      requires Valid() && key in segments
      modifies this`segments
      ensures Valid()
      ensures segments == old(segments)[key := (if duration > old(segments)[key].0 then duration else old(segments)[key].0, end || old(segments)[key].1)]
    {
      var previous: (nat, bool) := segments[key];
      segments := segments[key := (if duration > previous.0 then duration else previous.0, end || previous.1)];
      assert segments.Keys == received;
    }

    /** Add a key, and forget the oldest beyond 256. */
    method Remember(key: Key, duration: nat, end: bool)
      requires Valid() && key !in received
      modifies this`received, this`order, this`segments
      ensures Valid()
      ensures order == (var all := old(order) + [key]; if |all| > 256 then all[1..] else all)
      ensures segments == (var all := old(segments)[key := (duration, end)]; if |old(order)| == 256 then all - {old(order)[0]} else all)
    {
      assert forall k :: k in order + [key] <==> k in received + {key};
      received := received + {key};
      order := order + [key];
      segments := segments[key := (duration, end)];
      if |order| > KEPT {
        var expired := order[0];
        WithoutFirst(order, received);
        order := order[1..];
        received := received - {expired};
        segments := segments - {expired};
      }
    }
  }
}
