/**
 Telephone events: the sender splits a tone into segments of at most 65535 ticks and reports each one several
 times; the receiver tells repeats, segments and new digits apart (section 2.5.1.3 of RFC 4733).
 */
module Dtmf {
  import opened Bytes
  import opened Rtp

  const MAX_SEGMENT := 0xFFFF
  const WRAP := 0x1_0000_0000
  const KEPT := 256
  const CODES := 16

  type Pos = n: int | 0 < n witness 1

  // ------------------------------------------------------------------ the sender

  /** A tone of `duration` ticks, reported every `step` ticks. */
  datatype Tone = Tone(code: nat, duration: Pos, step: Pos)

  /** One segment of a tone; `start` is not reduced to 32 bits. */
  datatype Segment = Segment(code: nat, start: nat, duration: Pos, first: bool, last: bool)

  datatype EventReport = EventReport(marker: bool, duration: nat, end: bool)

  /** The segments of a tone from `completed` ticks on. */
  function SegmentsFrom(t: Tone, start: nat, completed: nat): seq<Segment>
    decreases t.duration - completed
  {
    if completed >= t.duration then []
    else
      var d := if t.duration - completed < MAX_SEGMENT then t.duration - completed else MAX_SEGMENT;
      [Segment(t.code, start + completed, d, completed == 0, completed + d == t.duration)] + SegmentsFrom(t, start, completed + d)
  }

  /** The updates after the first one, up to the segment's end. */
  function Updates(elapsed: nat, step: Pos, duration: nat): seq<EventReport>
    decreases duration - elapsed
  {
    if elapsed + step < duration then [EventReport(false, elapsed + step, false)] + Updates(elapsed + step, step, duration) else []
  }

  /** All reports of a segment: a first one, updates, and the final one three times. */
  function Reports(s: Segment, step: Pos): seq<EventReport> {
    var d := if step < s.duration then step else s.duration;
    var final := EventReport(false, s.duration, s.last);
    [EventReport(s.first, d, false)] + Updates(d, step, s.duration) + [final, final, final]
  }

  function EventPayload(code: nat, r: EventReport, volume: nat): seq<byte> {
    [code % 256, (if r.end then 0x80 else 0) + volume % 64, r.duration / 256 % 256, r.duration % 256]
  }

  /** One packet of a report; the sequence number is the sender's next one. */
  function PacketOf(payloadType: int, ssrc: nat, volume: nat, s: Segment, r: EventReport, sequence: nat): Result<seq<byte>, Error> {
    Build(payloadType, EventPayload(s.code, r, volume), r.marker, s.start % WRAP, sequence, ssrc)
  }

  /** A segment never ends before its tone unless it has the longest duration; its reports fit in 16 bits. */
  ghost predicate IsReport(s: Segment, r: EventReport) {
    && 0 < r.duration <= s.duration && (r.marker ==> s.first && !r.end)
    && (r.end ==> s.last && r.duration == s.duration)
  }

  ghost predicate IsFinal(s: Segment, r: EventReport) {
    r == EventReport(false, s.duration, s.last)
  }

  lemma {:induction false} UpdatesAreReports(s: Segment, elapsed: nat, step: Pos, r: EventReport)
    requires r in Updates(elapsed, step, s.duration)
    ensures IsReport(s, r)
    decreases s.duration - elapsed
  {
    if r != EventReport(false, elapsed + step, false) {
      UpdatesAreReports(s, elapsed + step, step, r);
    }
  }

  /** Every report sent speaks for its segment, and the final one is among them. */
  lemma ReportsAreReports(s: Segment, step: Pos)
    ensures forall r :: r in Reports(s, step) ==> IsReport(s, r)
    ensures exists r :: r in Reports(s, step) && IsFinal(s, r)
  {
    var d := if step < s.duration then step else s.duration;
    var final := EventReport(false, s.duration, s.last);
    forall r | r in Reports(s, step)
      ensures IsReport(s, r)
    {
      if r in Updates(d, step, s.duration) {
        UpdatesAreReports(s, d, step, r);
      }
    }
    var all := Reports(s, step);
    assert all[|all| - 1] == final && final in all && IsFinal(s, final);
  }

  // ------------------------------------------------------------------ sequences of segments

  /** A tone's segments follow one another without a gap and are full but for the last; then the next tone begins. */
  ghost predicate Follows(s: Segment, next: Segment) {
    && s.start + s.duration <= next.start
    && next.first == s.last
    && (!s.last ==> s.duration == 0xFFFF && next.code == s.code && next.start == s.start + 0xFFFF)
  }

  /** Segments of a stream of digits, in time order. */
  ghost predicate Chained(segs: seq<Segment>) {
    && (segs != [] ==> segs[0].first && segs[|segs| - 1].last)
    && (forall i :: 0 <= i < |segs| ==> segs[i].duration <= 0xFFFF && segs[i].code < 16)
    && (forall i :: 0 <= i < |segs| - 1 ==> Follows(segs[i], segs[i + 1]))
  }

  /** Any 257 successive segments start within one wrap of the 32-bit clock. */
  ghost predicate Spaced(segs: seq<Segment>) {
    forall i, j :: 0 <= i < j < |segs| && j <= i + 256 ==> segs[j].start - segs[i].start < 0x1_0000_0000
  }

  lemma {:induction false} ToneIsChained(t: Tone, start: nat, completed: nat)
    requires t.code < 16 && completed < t.duration
    ensures var segs := SegmentsFrom(t, start, completed);
            && segs != [] && segs[0].start == start + completed && segs[0].first == (completed == 0)
            && segs[|segs| - 1].last && segs[|segs| - 1].start + segs[|segs| - 1].duration == start + t.duration
            && (forall i :: 0 <= i < |segs| ==> segs[i].duration <= 0xFFFF && segs[i].code == t.code)
            && (forall i :: 0 < i < |segs| ==> !segs[i].first)
            && (forall i :: 0 <= i < |segs| - 1 ==>
                  !segs[i].last && segs[i].duration == 0xFFFF && segs[i + 1].start == segs[i].start + 0xFFFF)
    decreases t.duration - completed
  {
    var segs := SegmentsFrom(t, start, completed);
    var d := segs[0].duration;
    if completed + d < t.duration {
      ToneIsChained(t, start, completed + d);
      var rest := SegmentsFrom(t, start, completed + d);
      assert segs == [segs[0]] + rest;
      assert forall i :: 0 < i < |segs| ==> segs[i] == rest[i - 1];
    } else {
      assert SegmentsFrom(t, start, completed + d) == [];
    }
  }

  /** The segments of digits sent back to back, from timestamp `start`. */
  function AllSegments(tones: seq<Tone>, start: nat): seq<Segment> {
    if tones == [] then [] else SegmentsFrom(tones[0], start, 0) + AllSegments(tones[1..], start + tones[0].duration)
  }

  function Digits(tones: seq<Tone>): (codes: seq<nat>)
    ensures |codes| == |tones| && forall i :: 0 <= i < |codes| ==> codes[i] == tones[i].code
  {
    seq<nat>(|tones|, i requires 0 <= i < |tones| => tones[i].code)
  }

  /** The digits whose first segment is among `segs`. */
  function Begun(segs: seq<Segment>): seq<nat> {
    if segs == [] then []
    else Begun(segs[..|segs| - 1]) + if segs[|segs| - 1].first then [segs[|segs| - 1].code] else []
  }

  lemma {:induction false} BegunConcat(a: seq<Segment>, b: seq<Segment>)
    ensures Begun(a + b) == Begun(a) + Begun(b)
  {
    if b == [] {
      assert a + b == a;
    } else {
      BegunConcat(a, b[..|b| - 1]);
      assert (a + b)[..|a + b| - 1] == a + b[..|b| - 1];
    }
  }

  lemma {:induction false} BegunOfOne(segs: seq<Segment>)
    requires segs != [] && segs[0].first && forall i :: 0 < i < |segs| ==> !segs[i].first
    ensures Begun(segs) == [segs[0].code]
  {
    if |segs| == 1 {
      assert segs[..0] == [];
    } else {
      BegunOfOne(segs[..|segs| - 1]);
    }
  }

  ghost predicate BackToBack(segs: seq<Segment>) {
    forall i :: 0 <= i < |segs| - 1 ==> segs[i + 1].start == segs[i].start + segs[i].duration
  }

  lemma ChainsJoin(a: seq<Segment>, b: seq<Segment>)
    requires Chained(a) && Chained(b)
    requires a != [] && b != [] ==> a[|a| - 1].start + a[|a| - 1].duration <= b[0].start
    ensures Chained(a + b)
  {
    var all := a + b;
    if a != [] && b != [] {
      assert Follows(a[|a| - 1], b[0]);
    }
    hide Follows;
    assert forall i :: 0 <= i < |a| ==> all[i] == a[i];
    assert forall i :: |a| <= i < |all| ==> all[i] == b[i - |a|];
  }

  lemma BackToBackJoins(a: seq<Segment>, b: seq<Segment>)
    requires BackToBack(a) && BackToBack(b)
    requires a != [] && b != [] ==> a[|a| - 1].start + a[|a| - 1].duration == b[0].start
    ensures BackToBack(a + b)
  {
    var all := a + b;
    forall i | 0 <= i < |all| - 1
      ensures all[i + 1].start == all[i].start + all[i].duration
    {
      if i + 1 < |a| {
        assert all[i] == a[i] && all[i + 1] == a[i + 1];
      } else if i >= |a| {
        var k := i - |a|;
        assert all[i] == b[k] && all[i + 1] == b[k + 1];
      }
    }
  }

  lemma ToneIsChain(t: Tone, start: nat)
    requires t.code < 16
    ensures var segs := SegmentsFrom(t, start, 0);
            && Chained(segs) && BackToBack(segs) && segs != [] && segs[0].start == start && segs[0].first && segs[0].code == t.code
            && segs[|segs| - 1].start + segs[|segs| - 1].duration == start + t.duration
            && forall i :: 0 < i < |segs| ==> !segs[i].first
  {
    ToneIsChained(t, start, 0);
    hide SegmentsFrom;
  }

  /** Digits sent back to back make a chain that begins each of them once, in order. */
  lemma {:induction false} TonesAreChained(tones: seq<Tone>, start: nat)
    requires forall i :: 0 <= i < |tones| ==> tones[i].code < 16
    ensures Chained(AllSegments(tones, start)) && BackToBack(AllSegments(tones, start))
    ensures Begun(AllSegments(tones, start)) == Digits(tones)
    ensures tones != [] ==> AllSegments(tones, start) != [] && AllSegments(tones, start)[0].start == start
  {
    if tones != [] {
      var a, b := SegmentsFrom(tones[0], start, 0), AllSegments(tones[1..], start + tones[0].duration);
      ToneIsChain(tones[0], start);
      hide Chained, BackToBack, SegmentsFrom;
      TonesAreChained(tones[1..], start + tones[0].duration);
      BegunConcat(a, b);
      BegunOfOne(a);
      ChainsJoin(a, b);
      BackToBackJoins(a, b);
      assert Digits(tones) == [tones[0].code] + Digits(tones[1..]);
    } else {
      assert Digits(tones) == [];
    }
  }

  lemma {:induction false} BackToBackSpan(segs: seq<Segment>, i: nat, j: nat)
    requires Chained(segs) && BackToBack(segs) && i <= j < |segs|
    ensures segs[j].start - segs[i].start <= (j - i) * 0xFFFF
  {
    if i < j {
      BackToBackSpan(segs, i, j - 1);
      assert segs[(j - 1) + 1].start == segs[j - 1].start + segs[j - 1].duration;
    }
  }

  lemma BackToBackIsSpaced(segs: seq<Segment>)
    requires Chained(segs) && BackToBack(segs)
    ensures Spaced(segs)
  {
    forall i, j | 0 <= i < j < |segs| && j <= i + 256
      ensures segs[j].start - segs[i].start < 0x1_0000_0000
    {
      BackToBackSpan(segs, i, j);
    }
  }

  // ------------------------------------------------------------------ the receiver

  datatype Key = Key(ssrc: nat, timestamp: nat, code: nat)

  /** The latest keys, oldest first, what is known of each, and the digits given to the callback. */
  datatype Heard = Heard(order: seq<Key>, segments: map<Key, (nat, bool)>, digits: seq<nat>)

  /** `_parse_telephone_event_report`, with a callback installed. */
  function Receive(h: Heard, key: Key, duration: nat, end: bool, marker: bool, packed: bool): Heard {
    if key in h.order then
      (if key in h.segments then
         h.(segments := h.segments[key := (if duration > h.segments[key].0 then duration else h.segments[key].0, end || h.segments[key].1)])
       else h)
    else
      var preceding := Key(key.ssrc, (key.timestamp - MAX_SEGMENT) % WRAP, key.code);
      var continuation := (!marker || packed) && preceding in h.segments && h.segments[preceding] == (MAX_SEGMENT, false);
      var order, segments := h.order + [key], h.segments[key := (duration, end)];
      Heard(if |order| > KEPT then order[1..] else order,
            if |order| > KEPT then segments - {order[0]} else segments,
            if continuation then h.digits else h.digits + [key.code])
  }
}
