/**
 Arrival order again, from the wire: the packets carry only the low bits of their sequence numbers and
 timestamps, and the receiver itself restores the rest, drops duplicates and starts over for the new source.
 */
module WireOrder {
  import opened Bytes
  import opened ReceiveTimeline
  import opened ArrivalOrder
  import opened MediaReceiver
  import opened DtmfClient
  import AnyOrder
  import OrderMatters
  import LateReport
  import ClockEpochs
  import J = JitterBuffer
  import R = Rtp

  /** What a packet of the stream looks like once parsed; an event packet has one report. */
  ghost predicate Carries(st: Stream, ssrc: nat, p: Sent, w: Wire) {
    if Audio(p) then
      w == AudioWire(AudioPacket(ssrc, Some(p.number % 0x1_0000), p.stamp % 0x1_0000_0000, st.rate, Some(p.data)))
    else
      w.EventWire? && CarriesEvent(st, ssrc, p, w.message)
  }

  ghost predicate CarriesEvent(st: Stream, ssrc: nat, p: Sent, m: R.Message) {
    && m.ssrc == ssrc && m.sequence == p.number % 0x1_0000 && m.timestamp == p.stamp % 0x1_0000_0000
    && |m.payload| == 4 && Check(m.payload) == None
    && (EndAt(m.payload, 0) <==> p.kind == During(true))
    && (EndAt(m.payload, 0) ==> DurationAt(m.payload, 0) == st.duration)
  }

  function StateBefore(s0: Intake, states: seq<Intake>, i: nat): Intake
    requires i <= |states|
  {
    if i == 0 then s0 else states[i - 1]
  }

  /** The receiver takes in one wire packet after another; nothing of this source has been played before. */
  ghost predicate Run(st: Stream, ssrc: nat, span: nat, sent: seq<Sent>, s0: Intake, wires: seq<Wire>, states: seq<Intake>) {
    && |wires| == |states| == |sent|
    && (forall i :: 0 <= i < |sent| ==> Carries(st, ssrc, sent[i], wires[i]) && J.WellKept(states[i].jitter))
    && s0.ssrc != Some(ssrc) && |s0.seen| <= 256 && (forall t :: t in s0.seen ==> t.0 != ssrc)
    && (forall i :: 0 <= i < |sent| ==> Taken(st.f, span, StateBefore(s0, states, i), wires[i], states[i]))
  }

  /** The packets as they come, audio that has come before left out. */
  function WithoutRepeats(sent: seq<Sent>): (arr: seq<Sent>)
    ensures forall p :: p in arr <==> p in sent
  {
    if sent == [] then []
    else
      var n := |sent| - 1;
      assert sent == sent[..n] + [sent[n]];
      var before := WithoutRepeats(sent[..n]);
      if Audio(sent[n]) && sent[n] in before then before else before + [sent[n]]
  }

  function TagOf(ssrc: nat, p: Sent): Tag {
    (ssrc, p.number % 0x1_0000)
  }

  /** How the duplicate filter knows the audio that has arrived. */
  function Tags(ssrc: nat, arr: seq<Sent>): (tags: seq<Tag>)
    ensures |tags| <= |arr|
    ensures forall t :: t in tags <==> exists p :: p in arr && Audio(p) && t == TagOf(ssrc, p)
  {
    if arr == [] then []
    else
      var n := |arr| - 1;
      assert arr == arr[..n] + [arr[n]];
      Tags(ssrc, arr[..n]) + if Audio(arr[n]) then [TagOf(ssrc, arr[n])] else []
  }

  lemma TagsNext(ssrc: nat, arr: seq<Sent>, p: Sent)
    ensures Tags(ssrc, arr + [p]) == Tags(ssrc, arr) + if Audio(p) then [TagOf(ssrc, p)] else []
  {
    assert (arr + [p])[..|arr|] == arr;
  }

  /** The filter knows all audio of the source that has arrived, after packets of other sources. */
  ghost predicate Filters(ssrc: nat, arr: seq<Sent>, seen: seq<Tag>) {
    && |seen| <= 256
    && exists older: seq<Tag> :: seen == older + Tags(ssrc, arr) && forall t :: t in older ==> t.0 != ssrc
  }

  lemma FiltersNext(ssrc: nat, arr: seq<Sent>, p: Sent, seen: seq<Tag>, a: AudioPacket)
    requires Filters(ssrc, arr, seen) && Audio(p) && |arr| < 256 && a.ssrc == ssrc && a.number == Some(p.number % 0x1_0000)
    ensures Filters(ssrc, arr + [p], Noted(seen, a))
  {
    hide Tags;
    var older: seq<Tag> :| seen == older + Tags(ssrc, arr) && forall t :: t in older ==> t.0 != ssrc;
    TagsNext(ssrc, arr, p);
    var left := if |seen| < 256 then older else older[1..];
    assert Noted(seen, a) == left + Tags(ssrc, arr + [p]);
  }

  lemma FiltersStay(ssrc: nat, arr: seq<Sent>, p: Sent, seen: seq<Tag>)
    requires Filters(ssrc, arr, seen) && !Audio(p)
    ensures Filters(ssrc, arr + [p], seen)
  {
    TagsNext(ssrc, arr, p);
    assert Tags(ssrc, arr + [p]) == Tags(ssrc, arr);
  }

  /** The latest timestamp of the audio that has arrived. */
  ghost predicate IsLatest(arr: seq<Sent>, stamp: int) {
    && (exists p :: p in arr && Audio(p) && p.stamp == stamp)
    && forall p :: p in arr && Audio(p) ==> p.stamp <= stamp
  }

  lemma LatestNext(arr: seq<Sent>, stamp: int, p: Sent)
    requires IsLatest(arr, stamp)
    ensures IsLatest(arr + [p], if Audio(p) && p.stamp > stamp then p.stamp else stamp)
  {
    var q :| q in arr && Audio(q) && q.stamp == stamp;
    assert q in arr + [p] && p in arr + [p];
  }

  /** The source is playing, its timestamps are extended to the true ones, and its audio that has arrived counts as seen. */
  ghost predicate Follows(st: Stream, ssrc: nat, arr: seq<Sent>, s: Intake) {
    && s.ssrc == Some(ssrc)
    && s.high.Some? && IsLatest(arr, s.high.value) && st.first.stamp <= s.high.value < st.first.stamp + 0x8000_0000
    && Filters(ssrc, arr, s.seen)
  }

  /** Within half a wrap, different sequence numbers have different low bits. */
  lemma NumbersDiffer(first: int, x: int, y: int)
    requires first <= x < first + 0x8000 && first <= y < first + 0x8000 && x != y
    ensures x % 0x1_0000 != y % 0x1_0000
  {
  }

  lemma StampIsTrue(st: Stream, ssrc: nat, s: Intake, arr: seq<Sent>, p: Sent, a: AudioPacket)
    requires Follows(st, ssrc, arr, s) && FromStream(st, p) && Audio(p) && a.ssrc == ssrc && a.timestamp == p.stamp % 0x1_0000_0000
    ensures AudioReport(s, a).stamp == p.stamp
  {
    ClockEpochs.ExtendIsUnwrap(s.high, a.timestamp);
    ClockEpochs.UnwrapRecovers(s.high.value, p.stamp, 0x1_0000_0000);
  }

  lemma NotSeen(st: Stream, ssrc: nat, s: Intake, arr: seq<Sent>, p: Sent, a: AudioPacket)
    requires Follows(st, ssrc, arr, s) && arr != [] && Arrivals(st, arr + [p]) && Audio(p)
    requires a.ssrc == ssrc && a.number == Some(p.number % 0x1_0000)
    ensures !IsDuplicate(s, a)
  {
    hide Tags, Arrivals, FromStream;
    Together(st, arr, p);
    forall q | q in arr
      ensures q.number % 0x1_0000 != p.number % 0x1_0000
    {
      InHalfWrap(st, p);
      InHalfWrap(st, q);
      NumbersDiffer(st.first.number, q.number, p.number);
    }
  }

  lemma InHalfWrap(st: Stream, p: Sent)
    requires FromStream(st, p)
    ensures st.first.number <= p.number < st.first.number + 0x8000
  {
  }

  /** Audio off the wire is what the arrival-order argument takes an arrival to be. */
  lemma AudioTaken(st: Stream, ssrc: nat, span: nat, arr: seq<Sent>, s: Intake, p: Sent, w: Wire, s': Intake)
    requires Follows(st, ssrc, arr, s) && arr != [] && Arrivals(st, arr + [p]) && Audio(p)
    requires Carries(st, ssrc, p, w) && Taken(st.f, span, s, w, s')
    ensures AnyOrder.Arrives(st, span, s.clock, s.jitter, p, s'.clock, s'.jitter)
    ensures Follows(st, ssrc, arr + [p], s')
  {
    var a := w.packet;
    Together(st, arr, p);
    StampIsTrue(st, ssrc, s, arr, p, a);
    NotSeen(st, ssrc, s, arr, p, a);
    FiltersNext(ssrc, arr, p, s.seen, a);
    LatestNext(arr, s.high.value, p);
    hide PlaceStep, J.WriteStep, ClockEpochs.Extend, Arrivals, Filters, Noted, IsLatest;
    assert AudioReport(s, a) == ReportOf(st, p);
  }

  /** Audio that has come before is dropped by the filter. */
  lemma RepeatDropped(st: Stream, ssrc: nat, span: nat, arr: seq<Sent>, s: Intake, p: Sent, w: Wire, s': Intake)
    requires Follows(st, ssrc, arr, s) && Audio(p) && p in arr
    requires Carries(st, ssrc, p, w) && Taken(st.f, span, s, w, s')
    ensures s' == s
  {
    hide Tags;
    var older: seq<Tag> :| s.seen == older + Tags(ssrc, arr) && forall t :: t in older ==> t.0 != ssrc;
    assert TagOf(ssrc, p) in Tags(ssrc, arr);
  }

  lemma EventTaken(st: Stream, ssrc: nat, span: nat, arr: seq<Sent>, s: Intake, p: Sent, w: Wire, s': Intake)
    requires Follows(st, ssrc, arr, s) && !Audio(p)
    requires Carries(st, ssrc, p, w) && Taken(st.f, span, s, w, s')
    ensures AnyOrder.Arrives(st, span, s.clock, s.jitter, p, s'.clock, s'.jitter)
    ensures Follows(st, ssrc, arr + [p], s')
  {
    hide PlaceStep, Check, EndAt, DurationAt, IsLatest;
    LatestNext(arr, s.high.value, p);
    var m := w.message;
    var reports := EventReports(m.payload, 0, m.timestamp, Some(m.sequence));
    assert EventReports(m.payload, 4, (m.timestamp + DurationAt(m.payload, 0)) % 0x1_0000_0000, Some(m.sequence)) == [];
    assert reports == [ReportOf(st, p)];
    assert reports[1..] == [];
    var middle :| ReportPlaced(st.f, span, s, reports[0], middle) && ReportsPlaced(st.f, span, middle, [], s');
    assert ReportPlaced(st.f, span, s, reports[0], s');
    FiltersStay(ssrc, arr, p, s.seen);
  }

  lemma FirstTaken(st: Stream, ssrc: nat, span: nat, first: Sent, s0: Intake, w: Wire, s: Intake)
    requires Arrivals(st, [first]) && s0.ssrc != Some(ssrc) && |s0.seen| <= 256 && forall t :: t in s0.seen ==> t.0 != ssrc
    requires Carries(st, ssrc, first, w) && Taken(st.f, span, s0, w, s)
    ensures var placed := Place(st.f, Unset, ReportOf(st, first));
            s.clock == placed.clock && s.jitter == J.Fresh(placed.offset, first.data)
    ensures Follows(st, ssrc, [first], s)
  {
    hide Place;
    var a := w.packet;
    assert AudioReport(s0, a) == ReportOf(st, first);
    assert s0.seen == s0.seen + Tags(ssrc, []);
    FiltersNext(ssrc, [], first, s0.seen, a);
    assert [] + [first] == [first];
  }

  lemma {:induction false} NothingLeftOut(sent: seq<Sent>, n: nat)
    requires n < |sent|
    ensures var before := WithoutRepeats(sent[..n]);
            WithoutRepeats(sent[..n + 1]) == if Audio(sent[n]) && sent[n] in before then before else before + [sent[n]]
  {
    assert sent[..n + 1][..n] == sent[..n];
  }

  /** Whatever the wire repeats and reorders, timeline and buffer see the packets arrive one by one. */
  lemma {:induction false} AlwaysFollows(st: Stream, ssrc: nat, span: nat, sent: seq<Sent>, s0: Intake, wires: seq<Wire>, states: seq<Intake>, n: nat)
    returns (dl: AnyOrder.Delivery)
    requires Run(st, ssrc, span, sent, s0, wires, states) && n < |sent| && Arrivals(st, WithoutRepeats(sent[..n + 1]))
    ensures Follows(st, ssrc, WithoutRepeats(sent[..n + 1]), states[n])
    ensures AnyOrder.Delivered(st, span, WithoutRepeats(sent[..n + 1]), dl) && Reaches(dl, states[n])
  {
    hide Run, Follows, Carries, Taken, Place, AnyOrder.Arrives, AnyOrder.Delivered, Arrivals, J.WellKept, WithoutRepeats;
    NothingLeftOut(sent, n);
    RunAt(st, ssrc, span, sent, s0, wires, states, n);
    var before, p := WithoutRepeats(sent[..n]), sent[n];
    if n == 0 {
      assert sent[..0] == [] && before == [] by { NoneSent(); }
      assert before + [p] == [p];
      FirstTaken(st, ssrc, span, p, s0, wires[0], states[0]);
      AnyOrder.FirstDelivered(st, span, p, states[0].clock, states[0].jitter);
      dl := AnyOrder.Delivery([states[0].clock], [states[0].jitter]);
    } else if Audio(p) && p in before {
      dl := AlwaysFollows(st, ssrc, span, sent, s0, wires, states, n - 1);
      RepeatDropped(st, ssrc, span, before, states[n - 1], p, wires[n], states[n]);
    } else {
      assert before != [] by { SomeSent(sent, n); }
      Together(st, before, p);
      var dl0 := AlwaysFollows(st, ssrc, span, sent, s0, wires, states, n - 1);
      if Audio(p) {
        AudioTaken(st, ssrc, span, before, states[n - 1], p, wires[n], states[n]);
      } else {
        EventTaken(st, ssrc, span, before, states[n - 1], p, wires[n], states[n]);
      }
      AnyOrder.DeliveredNext(st, span, before, p, dl0, states[n].clock, states[n].jitter);
      dl := AnyOrder.Delivery(dl0.clocks + [states[n].clock], dl0.buffers + [states[n].jitter]);
    }
  }

  lemma RunAt(st: Stream, ssrc: nat, span: nat, sent: seq<Sent>, s0: Intake, wires: seq<Wire>, states: seq<Intake>, n: nat)
    requires Run(st, ssrc, span, sent, s0, wires, states) && n < |sent|
    ensures |wires| == |states| == |sent| && Carries(st, ssrc, sent[n], wires[n]) && J.WellKept(states[n].jitter)
    ensures s0.ssrc != Some(ssrc) && |s0.seen| <= 256 && forall t :: t in s0.seen ==> t.0 != ssrc
    ensures Taken(st.f, span, if n == 0 then s0 else states[n - 1], wires[n], states[n])
  {
    hide Carries, Taken, J.WellKept;
    assert Taken(st.f, span, StateBefore(s0, states, n), wires[n], states[n]);
  }

  lemma RunLengths(st: Stream, ssrc: nat, span: nat, sent: seq<Sent>, s0: Intake, wires: seq<Wire>, states: seq<Intake>)
    requires Run(st, ssrc, span, sent, s0, wires, states) && Arrivals(st, WithoutRepeats(sent))
    ensures |wires| == |states| == |sent| > 0
  {
  }

  lemma ReachesEnd(dl: AnyOrder.Delivery, s: Intake)
    requires Reaches(dl, s)
    ensures AnyOrder.End(dl) == s.jitter
  {
  }

  lemma NoneSent()
    ensures WithoutRepeats([]) == []
  {
  }

  lemma SomeSent(sent: seq<Sent>, n: nat)
    requires 0 < n <= |sent|
    ensures WithoutRepeats(sent[..n]) != []
  {
    hide WithoutRepeats;
    assert sent[0] in sent[..n];
  }

  /** The receiver is in the state that a delivery ends in. */
  predicate Reaches(dl: AnyOrder.Delivery, s: Intake) {
    dl.clocks != [] && dl.clocks[|dl.clocks| - 1] == s.clock && AnyOrder.End(dl) == s.jitter
  }

  /**
   A new source sends audio, one telephone-event and audio again, and the network reorders and repeats its packets
   after the first.  Every audio frame ends up at the PCM offset that its own true timestamp gives it, resumed audio
   displaced as one of its packets implies.
   */
  lemma WireOrderEndsInPlace(st: Stream, ssrc: nat, span: nat, sent: seq<Sent>, s0: Intake, wires: seq<Wire>, states: seq<Intake>)
    returns (d: int)
    requires Arrivals(st, WithoutRepeats(sent)) && AnyOrder.Roomy(st, WithoutRepeats(sent), span) && st.first.stamp <= st.event
    requires Run(st, ssrc, span, sent, s0, wires, states)
    ensures |states| == |sent| > 0
    ensures AnyOrder.InPlace(st, WithoutRepeats(sent), d, states[|sent| - 1].jitter) && Settled(st, WithoutRepeats(sent), d)
  {
    hide *;
    RunLengths(st, ssrc, span, sent, s0, wires, states);
    assert sent[..|sent| - 1 + 1] == sent;
    var dl := AlwaysFollows(st, ssrc, span, sent, s0, wires, states, |sent| - 1);
    ReachesEnd(dl, states[|sent| - 1]);
    d := AnyOrder.EveryOrderEndsInPlace(st, span, WithoutRepeats(sent), dl);
  }

  /**
   Two runs of the same packets play the same PCM if no report is among them, an end report was sent after resumed
   audio, or all resumed packets imply one displacement.
   */
  lemma WireOrderDoesNotMatter(st: Stream, ssrc: nat, span: nat,
                               sent: seq<Sent>, s0: Intake, wires: seq<Wire>, states: seq<Intake>,
                               sent': seq<Sent>, s0': Intake, wires': seq<Wire>, states': seq<Intake>)
    requires Arrivals(st, WithoutRepeats(sent)) && AnyOrder.Roomy(st, WithoutRepeats(sent), span) && st.first.stamp <= st.event
    requires Arrivals(st, WithoutRepeats(sent')) && forall p :: p in sent <==> p in sent'
    requires Run(st, ssrc, span, sent, s0, wires, states) && Run(st, ssrc, span, sent', s0', wires', states')
    requires !HasEvent(sent) || HasLate(sent) || OrderMatters.Alike(st, sent)
    ensures |states| == |sent| > 0 && |states'| == |sent'| > 0
    ensures OrderMatters.SamePcm(states[|sent| - 1].jitter, states'[|sent'| - 1].jitter)
  {
    hide Run, Arrivals, AnyOrder.Roomy, AnyOrder.InPlace, Settled, OrderMatters.Alike, OrderMatters.SamePcm, WithoutRepeats, HasEvent, HasLate, LateReport.Consistent;
    var arr, arr' := WithoutRepeats(sent), WithoutRepeats(sent');
    OrderMatters.RoomyToo(st, arr, arr', span);
    LateReport.ArrivalsConsistent(st, arr);
    var d := WireOrderEndsInPlace(st, ssrc, span, sent, s0, wires, states);
    var d' := WireOrderEndsInPlace(st, ssrc, span, sent', s0', wires', states');
    OrderMatters.InPlaceToo(st, arr', arr, d', states'[|sent'| - 1].jitter);
    OrderMatters.SettledToo(st, arr', arr, d');
    OrderMatters.SameKinds(st, sent, arr);
    OrderMatters.AlikeToo(st, sent, arr);
    OrderMatters.SettledAlike(st, arr, d, d');
    OrderMatters.SamePlaces(st, arr, d, states[|sent| - 1].jitter, d', states'[|sent'| - 1].jitter);
  }
}
