/** Telephone-event packets byte by byte: the reports of a tone, and several of them packed into one packet. */
module DtmfPackets {
  import opened Bytes
  import opened Dtmf
  import opened DtmfDelivery
  import opened DtmfClient
  import MediaReceiver
  import R = Rtp
  import T = ReceiveTimeline

  // ------------------------------------------------------------------ the reports of a segment

  lemma {:induction false} UpdatesAre(m: nat, step: Pos, duration: nat)
    ensures var u := Updates(m * step, step, duration);
            && (forall i :: 0 <= i < |u| ==> u[i] == EventReport(false, (m + 1 + i) * step, false) && (m + 1 + i) * step < duration)
            && (m + 1 + |u|) * step >= duration
    decreases duration - m * step
  {
    assert m * step + step == (m + 1) * step;
    if (m + 1) * step < duration {
      UpdatesAre(m + 1, step, duration);
      var u, rest := Updates(m * step, step, duration), Updates((m + 1) * step, step, duration);
      assert u == [EventReport(false, (m + 1) * step, false)] + rest;
      hide Updates;
      forall i | 0 <= i < |u|
        ensures u[i] == EventReport(false, (m + 1 + i) * step, false) && (m + 1 + i) * step < duration
      {
        if i > 0 {
          assert u[i] == rest[i - 1] && m + 1 + i == (m + 1) + 1 + (i - 1);
        }
      }
      assert m + 1 + |u| == (m + 1) + 1 + |rest|;
    }
  }

  /**
   A segment is reported every `step` ticks until its end, the first report with the marker of a new event, and its
   end is reported three times.
   */
  lemma ReportTimes(s: Segment, step: Pos)
    ensures var r := Reports(s, step);
            var n := |r| - 3;
            && n >= 1
            && r[0] == EventReport(s.first, if step < s.duration then step else s.duration, false)
            && (forall k :: 0 < k < n ==> r[k] == EventReport(false, (k + 1) * step, false) && (k + 1) * step < s.duration)
            && (n + 1) * step >= s.duration
            && (forall k :: n <= k < n + 3 ==> r[k] == EventReport(false, s.duration, s.last))
  {
    var r := Reports(s, step);
    if step < s.duration {
      UpdatesAre(1, step, s.duration);
      var u := Updates(1 * step, step, s.duration);
      assert 1 * step == step;
      assert r == [EventReport(s.first, step, false)] + u + [EventReport(false, s.duration, s.last), EventReport(false, s.duration, s.last), EventReport(false, s.duration, s.last)];
      hide Reports, Updates;
      forall k | 0 < k < |r| - 3
        ensures r[k] == EventReport(false, (k + 1) * step, false) && (k + 1) * step < s.duration
      {
        assert r[k] == u[k - 1] && k + 1 == 1 + 1 + (k - 1);
      }
      assert |r| - 3 + 1 == 1 + 1 + |u|;
    } else {
      assert |r| == 4;
      assert (|r| - 3 + 1) * step == 2 * step;
    }
  }

  /** The four bytes of a report. */
  lemma PayloadLaidOut(code: nat, r: EventReport, volume: nat)
    requires code < 16 && r.duration <= 0xFFFF
    ensures var p := EventPayload(code, r, volume);
            && |p| == 4 && p[0] == code
            && (p[1] / 128 == 1 <==> r.end) && p[1] / 64 % 2 == 0 && p[1] % 64 == volume % 64
            && 256 * (p[2] as int) + p[3] == r.duration
  {
  }

  // ------------------------------------------------------------------ several reports in one packet

  lemma CheckedIff(payload: seq<byte>)
    ensures Check(payload) == None <==> |payload| >= 4 && |payload| % 4 == 0 && forall k :: 0 <= k < |payload| && k % 4 == 0 ==> payload[k] < 16
  {
  }

  /** The final reports of segments, one after another in one payload. */
  function Packed(segs: seq<Segment>, volume: nat): seq<byte> {
    if segs == [] then []
    else Packed(segs[..|segs| - 1], volume) + EventPayload(segs[|segs| - 1].code, FinalOf(segs[|segs| - 1]), volume)
  }

  lemma {:induction false} PackedAt(segs: seq<Segment>, volume: nat, k: nat)
    requires k < |segs|
    ensures |Packed(segs, volume)| == 4 * |segs|
    ensures Packed(segs, volume)[4 * k..4 * k + 4] == EventPayload(segs[k].code, FinalOf(segs[k]), volume)
  {
    hide EventPayload;
    var n := |segs| - 1;
    assert |EventPayload(segs[n].code, FinalOf(segs[n]), volume)| == 4 by { FourBytes(segs[n].code, FinalOf(segs[n]), volume); }
    if n > 0 {
      PackedAt(segs[..n], volume, if k < n then k else 0);
    }
    var before, last := Packed(segs[..n], volume), EventPayload(segs[n].code, FinalOf(segs[n]), volume);
    if k < n {
      assert (before + last)[4 * k..4 * k + 4] == before[4 * k..4 * k + 4];
    } else {
      assert (before + last)[4 * k..4 * k + 4] == last;
    }
  }

  lemma FourBytes(code: nat, r: EventReport, volume: nat)
    ensures |EventPayload(code, r, volume)| == 4
  {
  }

  /** What the payload says of segment `k`. */
  lemma PackedSays(segs: seq<Segment>, volume: nat, k: nat)
    requires Chained(segs) && k < |segs|
    ensures |Packed(segs, volume)| == 4 * |segs|
    ensures var p := Packed(segs, volume);
            p[4 * k] == segs[k].code && DurationAt(p, 4 * k) == segs[k].duration && EndAt(p, 4 * k) == segs[k].last
  {
    PackedAt(segs, volume, k);
    var p, one := Packed(segs, volume), EventPayload(segs[k].code, FinalOf(segs[k]), volume);
    PayloadLaidOut(segs[k].code, FinalOf(segs[k]), volume);
    var four := p[4 * k..4 * k + 4];
    assert four[0] == p[4 * k] && four[1] == p[4 * k + 1] && four[2] == p[4 * k + 2] && four[3] == p[4 * k + 3];
    hide EventPayload, Packed, Chained;
  }

  lemma PackedChecks(segs: seq<Segment>, volume: nat)
    requires Chained(segs) && segs != []
    ensures Check(Packed(segs, volume)) == None
  {
    var p := Packed(segs, volume);
    PackedSays(segs, volume, 0);
    forall k | 0 <= k < |p| && k % 4 == 0
      ensures p[k] < 16
    {
      assert k == 4 * (k / 4);
      PackedSays(segs, volume, k / 4);
    }
    hide Check;
    CheckedIff(p);
  }

  /** A report in a packet with others is taken as one of its own packet would be. */
  lemma PackedReceived(h: Heard, key: Key, duration: nat, end: bool, marker: bool, packed: bool)
    requires packed || h == Heard([], map[], [])
    ensures Receive(h, key, duration, end, marker, packed) == Receive(h, key, duration, end, false, false)
  {
  }

  lemma FinalsNext(ssrc: nat, segs: seq<Segment>, k: nat)
    requires k < |segs|
    ensures After(ssrc, segs, FinalsOf(segs, k + 1))
            == Receive(After(ssrc, segs, FinalsOf(segs, k)), KeyOf(ssrc, segs[k]), segs[k].duration, segs[k].last, false, false)
  {
    hide Receive;
    assert FinalsOf(segs, k + 1)[..k] == FinalsOf(segs, k);
  }

  lemma KeyIs(ssrc: nat, s: Segment)
    ensures KeyOf(ssrc, s) == Key(ssrc, s.start % 0x1_0000_0000, s.code)
  {
  }

  lemma HearsFinal(ssrc: nat, segs: seq<Segment>, volume: nat, k: nat, marker: bool)
    requires Chained(segs) && k < |segs| && (k > 0 ==> |segs| > 1)
    ensures HearFrom(After(ssrc, segs, FinalsOf(segs, k)), Packed(segs, volume), 4 * k, ssrc, segs[k].start % 0x1_0000_0000, marker)
            == HearFrom(After(ssrc, segs, FinalsOf(segs, k + 1)), Packed(segs, volume), 4 * k + 4, ssrc,
                        (segs[k].start % 0x1_0000_0000 + segs[k].duration) % 0x1_0000_0000, segs[k].last)
  {
    hide *;
    var p, h, s := Packed(segs, volume), After(ssrc, segs, FinalsOf(segs, k)), segs[k];
    var t := s.start % 0x1_0000_0000;
    KeyIs(ssrc, s);
    PackedSays(segs, volume, k);
    HearsNext(h, p, 4 * k, ssrc, t, marker);
    FinalsNext(ssrc, segs, k);
    NoneYet(ssrc, segs);
    PackedReceived(h, Key(ssrc, t, s.code), s.duration, s.last, marker, |p| > 4);
  }

  lemma {:induction false} HearsOn(ssrc: nat, segs: seq<Segment>, volume: nat, k: nat, marker: bool)
    requires Chained(segs) && BackToBack(segs) && k < |segs| && (k > 0 ==> |segs| > 1)
    ensures HearFrom(After(ssrc, segs, FinalsOf(segs, k)), Packed(segs, volume), 4 * k, ssrc, segs[k].start % 0x1_0000_0000, marker)
            == After(ssrc, segs, FinalsOf(segs, |segs|))
    decreases |segs| - k
  {
    hide *;
    HearsFinal(ssrc, segs, volume, k, marker);
    assert 4 * k + 4 == 4 * (k + 1);
    if k + 1 < |segs| {
      NextTick(segs, k);
      HearsOn(ssrc, segs, volume, k + 1, segs[k].last);
    } else {
      PackedSays(segs, volume, k);
      HearsNothing(After(ssrc, segs, FinalsOf(segs, k + 1)), Packed(segs, volume), 4 * k + 4, ssrc,
                   (segs[k].start % 0x1_0000_0000 + segs[k].duration) % 0x1_0000_0000, segs[k].last);
    }
  }

  lemma NoneYet(ssrc: nat, segs: seq<Segment>)
    ensures After(ssrc, segs, FinalsOf(segs, 0)) == Heard([], map[], [])
  {
  }

  lemma NextTick(segs: seq<Segment>, k: nat)
    requires BackToBack(segs) && k + 1 < |segs|
    ensures (segs[k].start % 0x1_0000_0000 + segs[k].duration) % 0x1_0000_0000 == segs[k + 1].start % 0x1_0000_0000
  {
    AddModulo(segs[k].start, segs[k].duration);
  }

  lemma HearsNext(h: Heard, p: seq<byte>, i: nat, ssrc: nat, timestamp: nat, marker: bool)
    requires i + 4 <= |p|
    ensures HearFrom(h, p, i, ssrc, timestamp, marker)
            == HearFrom(Receive(h, Key(ssrc, timestamp, p[i]), DurationAt(p, i), EndAt(p, i), marker, |p| > 4),
                        p, i + 4, ssrc, (timestamp + DurationAt(p, i)) % 0x1_0000_0000, EndAt(p, i))
  {
    hide Receive, DurationAt, EndAt;
  }

  lemma HearsNothing(h: Heard, p: seq<byte>, i: nat, ssrc: nat, timestamp: nat, marker: bool)
    requires i == |p|
    ensures HearFrom(h, p, i, ssrc, timestamp, marker) == h
  {
  }

  /**
   One packet that packs the final reports of digits sent back to back, of any lengths, gives the callback exactly
   those digits: each report starts where the one before it ends.
   */
  lemma PackedDigits(m: R.Message, tones: seq<Tone>, start: nat, volume: nat)
    requires tones != [] && forall i :: 0 <= i < |tones| ==> tones[i].code < 16
    requires m.payload == Packed(AllSegments(tones, start), volume) && m.timestamp == start % 0x1_0000_0000
    ensures Hear(Heard([], map[], []), m).digits == Digits(tones)
  {
    var segs := AllSegments(tones, start);
    TonesAreChained(tones, start);
    PackedChecks(segs, volume);
    HearsOn(m.ssrc, segs, volume, 0, m.marker);
    NoneYet(m.ssrc, segs);
    FinalsAreEnough(segs, |segs|);
    DigitsHeardOnce(m.ssrc, tones, start, FinalsOf(segs, |segs|));
  }

  /**
   What one report does: a repeat gives no digit and sharpens what is known of its segment; a new one gives a digit,
   unless it continues a full segment that has not ended 65535 ticks before.
   */
  lemma ReceiveOutcome(h: Heard, key: Key, duration: nat, end: bool, marker: bool, packed: bool)
    requires h.segments.Keys == set k | k in h.order
    ensures var h' := Receive(h, key, duration, end, marker, packed);
            var full := Key(key.ssrc, (key.timestamp - 65535) % 0x1_0000_0000, key.code);
            if key in h.order then
              && h'.digits == h.digits && h'.order == h.order
              && h'.segments[key].0 == (if duration > h.segments[key].0 then duration else h.segments[key].0)
              && (h'.segments[key].1 <==> end || h.segments[key].1)
              && forall k :: k in h.segments && k != key ==> k in h'.segments && h'.segments[k] == h.segments[k]
            else
              && (h'.digits == h.digits <==> (!marker || packed) && full in h.segments && h.segments[full] == (65535, false))
              && (h'.digits != h.digits ==> h'.digits == h.digits + [key.code])
              && h'.order == (if |h.order| < 256 then h.order else h.order[1..]) + [key]
  {
  }

  /** Even if nothing of the end of the digit before it came through, a marked report of its own packet starts a new digit. */
  lemma MarkedBegins(h: Heard, key: Key, duration: nat, end: bool)
    requires h.segments.Keys == (set k | k in h.order) && key !in h.order
    ensures Receive(h, key, duration, end, true, false).digits == h.digits + [key.code]
  {
    ReceiveOutcome(h, key, duration, end, true, false);
  }

  // ------------------------------------------------------------------ the timeline's view

  /** The ticks that the first `k` reports of a payload last. */
  function Ticks(payload: seq<byte>, k: nat): nat
    requires 4 * k <= |payload|
  {
    if k == 0 then 0 else Ticks(payload, k - 1) + 256 * (payload[4 * k - 2] as int) + payload[4 * k - 1]
  }

  /** Report `k`, as the timeline is told of it. */
  function ReportOf(payload: seq<byte>, timestamp: nat, number: Option<nat>, k: nat): T.Report
    requires 4 * k + 4 <= |payload|
  {
    T.Report(timestamp, 8000, number, false, if payload[4 * k + 1] >= 128 then Some(256 * (payload[4 * k + 2] as int) + payload[4 * k + 3]) else None)
  }

  lemma ReportsNext(payload: seq<byte>, i: nat, timestamp: nat, number: Option<nat>)
    requires 4 * i + 4 <= |payload|
    ensures MediaReceiver.EventReports(payload, 4 * i, timestamp, number)
            == [ReportOf(payload, timestamp, number, i)]
               + MediaReceiver.EventReports(payload, 4 * (i + 1), (timestamp + 256 * (payload[4 * i + 2] as int) + payload[4 * i + 3]) % 0x1_0000_0000, number)
  {
  }

  lemma NoReports(payload: seq<byte>, i: nat, timestamp: nat, number: Option<nat>)
    requires 4 * i == |payload|
    ensures MediaReceiver.EventReports(payload, 4 * i, timestamp, number) == []
  {
  }

  lemma TicksNext(payload: seq<byte>, first: nat, i: nat)
    requires 4 * i + 4 <= |payload|
    ensures ((first + Ticks(payload, i)) % 0x1_0000_0000 + 256 * (payload[4 * i + 2] as int) + payload[4 * i + 3]) % 0x1_0000_0000
            == (first + Ticks(payload, i + 1)) % 0x1_0000_0000
  {
    AddModulo(first + Ticks(payload, i), 256 * (payload[4 * i + 2] as int) + payload[4 * i + 3]);
  }

  lemma {:induction false} ReportsFrom(payload: seq<byte>, i: nat, first: nat, number: Option<nat>, k: nat)
    requires |payload| % 4 == 0 && i <= k < |payload| / 4
    ensures var reports := MediaReceiver.EventReports(payload, 4 * i, (first + Ticks(payload, i)) % 0x1_0000_0000, number);
            && |reports| == |payload| / 4 - i
            && reports[k - i] == ReportOf(payload, (first + Ticks(payload, k)) % 0x1_0000_0000, number, k)
    decreases |payload| - i
  {
    hide Ticks, MediaReceiver.EventReports, ReportOf;
    ReportsNext(payload, i, (first + Ticks(payload, i)) % 0x1_0000_0000, number);
    TicksNext(payload, first, i);
    if i + 1 < |payload| / 4 {
      ReportsFrom(payload, i + 1, first, number, if k > i then k else i + 1);
    } else {
      NoReports(payload, i + 1, (first + Ticks(payload, i + 1)) % 0x1_0000_0000, number);
    }
  }

  /** The timeline is told of each report of a packet at the packet's timestamp plus what the reports before it last, with the end that it reports. */
  lemma EventReportsAre(payload: seq<byte>, timestamp: nat, number: Option<nat>, k: nat)
    requires |payload| % 4 == 0 && timestamp < 0x1_0000_0000 && k < |payload| / 4
    ensures |MediaReceiver.EventReports(payload, 0, timestamp, number)| == |payload| / 4
    ensures MediaReceiver.EventReports(payload, 0, timestamp, number)[k]
            == T.Report((timestamp + Ticks(payload, k)) % 0x1_0000_0000, 8000, number, false,
                        if payload[4 * k + 1] >= 128 then Some(256 * (payload[4 * k + 2] as int) + payload[4 * k + 3]) else None)
  {
    hide MediaReceiver.EventReports;
    ReportsFrom(payload, 0, timestamp, number, k);
  }
}
