/**
 The timeline and the jitter buffer together, with nothing read yet and room for the audio: whatever the order
 of arrival after the first packet, every frame ends up at its own offset, the resumed ones displaced alike.
 Every order leaves the same PCM exactly when all resumed packets imply the same displacement.
 */
module AnyOrder {
  import opened Bytes
  import opened ReceiveTimeline
  import opened ArrivalOrder
  import opened LateReport
  import ClockEpochs
  import FrameBuffer
  import J = JitterBuffer

  // ------------------------------------------------------------------ frames

  function FrameOf(st: Stream, d: int, p: Sent): J.Packet {
    J.Packet(PcmOf(st, d, p), p.data)
  }

  /** The audio frames that have arrived, the resumed ones displaced by `d`. */
  function FramesOf(st: Stream, arr: seq<Sent>, d: int): seq<J.Packet> {
    if arr == [] then []
    else
      var p := arr[|arr| - 1];
      FramesOf(st, arr[..|arr| - 1], d) + if Audio(p) then [FrameOf(st, d, p)] else []
  }

  lemma {:induction false} FrameIsOf(st: Stream, arr: seq<Sent>, d: int, f: J.Packet) returns (p: Sent)
    requires f in FramesOf(st, arr, d)
    ensures p in arr && Audio(p) && f == FrameOf(st, d, p)
  {
    var last := arr[|arr| - 1];
    if Audio(last) && f == FrameOf(st, d, last) {
      p := last;
    } else {
      p := FrameIsOf(st, arr[..|arr| - 1], d, f);
    }
  }

  lemma {:induction false} HasFrame(st: Stream, arr: seq<Sent>, d: int, p: Sent)
    requires p in arr && Audio(p)
    ensures FrameOf(st, d, p) in FramesOf(st, arr, d)
  {
    var last := arr[|arr| - 1];
    if p != last {
      assert arr == arr[..|arr| - 1] + [last];
      HasFrame(st, arr[..|arr| - 1], d, p);
    }
  }

  lemma FramesNext(st: Stream, arr: seq<Sent>, d: int, p: Sent)
    ensures FramesOf(st, arr + [p], d) == FramesOf(st, arr, d) + if Audio(p) then [FrameOf(st, d, p)] else []
  {
    assert (arr + [p])[..|arr|] == arr;
  }

  lemma {:induction false} DisplacementUnused(st: Stream, arr: seq<Sent>, d: int, d': int)
    requires !HasResumed(arr)
    ensures FramesOf(st, arr, d) == FramesOf(st, arr, d')
  {
    if arr != [] {
      var before, last := arr[..|arr| - 1], arr[|arr| - 1];
      assert last in arr && forall p :: p in before ==> p in arr;
      DisplacementUnused(st, before, d, d');
    }
  }

  // ------------------------------------------------------------------ room

  function Base(st: Stream): int {
    R(st, st.first.stamp)
  }

  /** An audio frame's PCM ends where the event, or the next frame of its own part, begins. */
  ghost predicate Disjoint(st: Stream, arr: seq<Sent>) {
    && (forall p :: p in arr && Audio(p) ==> p.data != [])
    && (forall p :: p in arr && p.kind == Before ==> R(st, p.stamp) + |p.data| <= R(st, st.event))
    && (forall p, q :: p in arr && q in arr && Audio(p) && p.kind == q.kind && p.number < q.number ==>
          R(st, p.stamp) + |p.data| <= R(st, q.stamp))
  }

  /** Wherever the packets can displace the resumed audio to, it stays between the event and the end of the span. */
  ghost predicate Roomy(st: Stream, arr: seq<Sent>, span: nat) {
    && Disjoint(st, arr)
    && (forall p :: p in arr && p.kind == Before ==> R(st, p.stamp) <= Base(st) + span)
    && (forall d, b :: Candidate(st, arr, d) && b in arr && b.kind == Resumed ==>
          R(st, st.event) <= d + R(st, b.stamp) <= Base(st) + span)
  }

  lemma CandidateOfMore(st: Stream, arr: seq<Sent>, all: seq<Sent>, d: int)
    requires Candidate(st, arr, d) && forall p :: p in arr ==> p in all
    ensures Candidate(st, all, d)
  {
    hide Displacement;
  }

  lemma SettledIsCandidate(st: Stream, arr: seq<Sent>, d: int)
    requires Settled(st, arr, d) && HasResumed(arr)
    ensures Candidate(st, arr, d)
  {
    hide Displacement;
  }

  /** Frames of arrived packets start between the base and the end of the span; those before the event end by it. */
  lemma FrameFits(st: Stream, all: seq<Sent>, span: nat, d: int, p: Sent)
    requires Roomy(st, all, span) && p in all && Audio(p) && FromStream(st, p) && st.first.stamp <= st.event
    requires p.kind == Resumed ==> Candidate(st, all, d)
    ensures Base(st) <= PcmOf(st, d, p) <= Base(st) + span && p.data != []
    ensures p.kind == Before ==> PcmOf(st, d, p) + |p.data| <= R(st, st.event)
    ensures p.kind == Resumed ==> R(st, st.event) <= PcmOf(st, d, p)
  {
    hide OffsetAt, Candidate;
    ClockEpochs.OffsetNeverFalls(st.f, st.first.stamp, p.stamp, st.rate);
    ClockEpochs.OffsetNeverFalls(st.f, st.first.stamp, st.event, st.rate);
  }

  lemma FramesApart(st: Stream, all: seq<Sent>, span: nat, d: int, p: Sent, q: Sent)
    requires Roomy(st, all, span) && p in all && q in all && Audio(p) && Audio(q) && p.number != q.number
    requires FromStream(st, p) && FromStream(st, q) && st.first.stamp <= st.event
    requires p.kind == Resumed || q.kind == Resumed ==> Candidate(st, all, d)
    ensures FrameBuffer.Apart(FrameOf(st, d, p), FrameOf(st, d, q))
  {
    FrameFits(st, all, span, d, p);
    FrameFits(st, all, span, d, q);
    hide OffsetAt, Candidate;
  }

  // ------------------------------------------------------------------ one arrival

  /** What `parse_audio` and `parse_telephone_event` do with the timeline and the jitter buffer. */
  ghost predicate Arrives(st: Stream, span: nat, c: Clock, j: J.Jitter, p: Sent, c': Clock, j': J.Jitter) {
    exists offset ::
      if Audio(p) then
        PlaceStep(st.f, span, c, j, ReportOf(st, p), offset, c', j) && J.WriteStep(j, span, J.Packet(offset, p.data), j')
      else PlaceStep(st.f, span, c, j, ReportOf(st, p), offset, c', j')
  }

  /** Timeline and buffer agree on a displacement. */
  ghost predicate Good(st: Stream, arr: seq<Sent>, top: Sent, d: int, c: Clock, j: J.Jitter) {
    Inv(st, arr, top, d, c) && FrameBuffer.HoldsFrames(j, Base(st), FramesOf(st, arr, d))
  }

  /** There is room for the frame of an audio packet beside those that have arrived. */
  lemma AudioFits(st: Stream, all: seq<Sent>, span: nat, arr: seq<Sent>, top: Sent, d: int, p: Sent, c: Clock, j: J.Jitter)
    requires arr != [] && Arrivals(st, arr + [p]) && Good(st, arr, top, d, c, j) && Audio(p)
    requires Roomy(st, all, span) && st.first.stamp <= st.event && forall q :: q in arr + [p] ==> q in all
    ensures var d' := NextDisplacement(st, arr, d, p);
            var frames, frame, placed := FramesOf(st, arr, d'), FrameOf(st, d', p), Place(st.f, c, ReportOf(st, p));
            && FrameBuffer.HoldsFrames(j, Base(st), frames)
            && Base(st) <= frame.offset <= Base(st) + span && frame.data != []
            && (forall g :: g in frames ==> g.offset <= Base(st) + span && FrameBuffer.Apart(frame, g))
            && placed.repair == None && placed.offset == frame.offset && Inv(st, arr + [p], NextTop(top, p), d', placed.clock)
  {
    hide Inv, FrameBuffer.HoldsFrames, Place, Roomy, Arrivals, NextDisplacement, FromStream, Settled, PcmOf, ReportOf, Candidate;
    var d' := NextDisplacement(st, arr, d, p);
    AudioStep(st, arr, top, d, c, p);
    KindsOfMore(arr, p);
    Together(st, arr, p);
    NextSettled(st, all, arr, top, d, p, Place(st.f, c, ReportOf(st, p)).clock);
    SameFrames(st, arr, d, p);
    FrameFits(st, all, span, d', p);
    forall g | g in FramesOf(st, arr, d')
      ensures g.offset <= Base(st) + span && FrameBuffer.Apart(FrameOf(st, d', p), g)
    {
      var q := FrameIsOf(st, arr, d', g);
      ResumedInArr(arr, q);
      FrameFits(st, all, span, d', q);
      FramesApart(st, all, span, d', p, q);
    }
  }

  lemma AudioArrives(st: Stream, all: seq<Sent>, span: nat, arr: seq<Sent>, top: Sent, d: int, p: Sent,
                     c: Clock, j: J.Jitter, c': Clock, j': J.Jitter)
    requires arr != [] && Arrivals(st, arr + [p]) && Good(st, arr, top, d, c, j) && Audio(p)
    requires Roomy(st, all, span) && st.first.stamp <= st.event && forall q :: q in arr + [p] ==> q in all
    requires Arrives(st, span, c, j, p, c', j') && J.WellKept(j')
    ensures Good(st, arr + [p], NextTop(top, p), NextDisplacement(st, arr, d, p), c', j')
  {
    hide Inv, FrameBuffer.HoldsFrames, J.WriteStep, J.WellKept, Place, Roomy, Arrivals, NextDisplacement, PcmOf, ReportOf;
    var d' := NextDisplacement(st, arr, d, p);
    AudioFits(st, all, span, arr, top, d, p, c, j);
    FramesNext(st, arr, d', p);
    FrameBuffer.WriteAddsFrame(j, Base(st), span, FramesOf(st, arr, d'), FrameOf(st, d', p), j');
  }

  lemma ResumedInArr(arr: seq<Sent>, q: Sent)
    requires q in arr
    ensures q.kind == Resumed ==> HasResumed(arr)
  {
  }

  lemma NextSettled(st: Stream, all: seq<Sent>, arr: seq<Sent>, top: Sent, d: int, p: Sent, c: Clock)
    requires Inv(st, arr + [p], NextTop(top, p), NextDisplacement(st, arr, d, p), c)
    requires forall q :: q in arr + [p] ==> q in all
    ensures HasResumed(arr + [p]) ==> Candidate(st, all, NextDisplacement(st, arr, d, p))
  {
    hide HistoryOk, EpochsOk, IsTop, NextDisplacement;
    if HasResumed(arr + [p]) {
      SettledIsCandidate(st, arr + [p], NextDisplacement(st, arr, d, p));
      CandidateOfMore(st, arr + [p], all, NextDisplacement(st, arr, d, p));
    }
  }

  lemma SameFrames(st: Stream, arr: seq<Sent>, d: int, p: Sent)
    ensures FramesOf(st, arr, d) == FramesOf(st, arr, NextDisplacement(st, arr, d, p))
  {
    if NextDisplacement(st, arr, d, p) != d {
      DisplacementUnused(st, arr, d, NextDisplacement(st, arr, d, p));
    }
  }

  // ------------------------------------------------------------------ a report arrives

  lemma FramesOfReport(st: Stream, arr: seq<Sent>, d: int, p: Sent)
    requires p.kind.During?
    ensures FramesOf(st, arr + [p], d) == FramesOf(st, arr, d)
  {
    FramesNext(st, arr, d, p);
  }

  /** A repair moves exactly the frames of the resumed audio. */
  lemma {:induction false} MovedFramesAre(st: Stream, all: seq<Sent>, span: nat, arr: seq<Sent>, d: int, d': int, boundary: int)
    requires Roomy(st, all, span) && st.first.stamp <= st.event && Candidate(st, all, d)
    requires forall p :: p in arr ==> p in all && FromStream(st, p)
    requires R(st, st.event) <= boundary && forall p :: p in arr && p.kind == Resumed ==> boundary <= PcmOf(st, d, p)
    ensures FrameBuffer.MovedFrames(FramesOf(st, arr, d), boundary, d' - d) == FramesOf(st, arr, d')
  {
    if arr != [] {
      var before, last := arr[..|arr| - 1], arr[|arr| - 1];
      assert last in arr && forall p :: p in before ==> p in arr;
      MovedFramesAre(st, all, span, before, d, d', boundary);
      if Audio(last) {
        FrameFits(st, all, span, d, last);
        assert FrameBuffer.MovedFrame(FrameOf(st, d, last), boundary, d' - d) == FrameOf(st, d', last);
      }
      var moved := FrameBuffer.MovedFrames(FramesOf(st, arr, d), boundary, d' - d);
      assert moved == FrameBuffer.MovedFrames(FramesOf(st, before, d), boundary, d' - d)
                      + if Audio(last) then [FrameBuffer.MovedFrame(FrameOf(st, d, last), boundary, d' - d)] else [];
    }
  }

  lemma CanShift(st: Stream, all: seq<Sent>, span: nat, arr: seq<Sent>, d: int, d': int, b: Sent)
    requires Roomy(st, all, span) && st.first.stamp <= st.event && Candidate(st, all, d) && Candidate(st, all, d')
    requires forall p :: p in arr ==> p in all && FromStream(st, p)
    requires EarliestResumed(arr, b)
    ensures var boundary := d + R(st, b.stamp);
            && FrameBuffer.Shiftable(Base(st), span, FramesOf(st, arr, d), boundary, d' - d)
            && R(st, st.event) <= boundary
            && forall p :: p in arr && p.kind == Resumed ==> boundary <= PcmOf(st, d, p)
  {
    hide OffsetAt, Candidate, Roomy, FromStream;
    var boundary, delta := d + R(st, b.stamp), d' - d;
    FrameFits(st, all, span, d, b);
    FrameFits(st, all, span, d', b);
    EventAfterBase(st);
    forall p | p in arr && p.kind == Resumed
      ensures boundary <= PcmOf(st, d, p)
    {
      ClockEpochs.OffsetNeverFalls(st.f, b.stamp, p.stamp, st.rate);
    }
    forall g | g in FramesOf(st, arr, d)
      ensures Base(st) <= g.offset <= Base(st) + span
      ensures FrameBuffer.MovedFrame(g, boundary, delta).offset <= Base(st) + span
      ensures g.offset < boundary ==> g.offset + |g.data| <= boundary && g.offset + |g.data| <= boundary + delta
    {
      var p := FrameIsOf(st, arr, d, g);
      FrameFits(st, all, span, d, p);
      FrameFits(st, all, span, d', p);
    }
  }

  lemma EventAfterBase(st: Stream)
    requires st.first.stamp <= st.event
    ensures Base(st) <= R(st, st.event)
  {
    ClockEpochs.OffsetNeverFalls(st.f, st.first.stamp, st.event, st.rate);
  }

  /** A late report leaves timeline and buffer agreeing, on the displacement that the event now implies. */
  lemma ReportArrives(st: Stream, all: seq<Sent>, span: nat, arr: seq<Sent>, top: Sent, d: int, p: Sent,
                      c: Clock, j: J.Jitter, c': Clock, j': J.Jitter) returns (d': int)
    requires arr != [] && Arrivals(st, arr + [p]) && Good(st, arr, top, d, c, j) && p.kind.During?
    requires Roomy(st, all, span) && st.first.stamp <= st.event && forall q :: q in arr + [p] ==> q in all
    requires Arrives(st, span, c, j, p, c', j') && J.WellKept(j')
    ensures Good(st, arr + [p], NextTop(top, p), d', c', j')
  {
    hide FrameBuffer.HoldsFrames, J.WellKept, Place, Roomy, Arrivals, FromStream, Candidate, PlanRepair, Repaired, RepairSeq, J.ShiftStep, Inv;
    FramesOfReport(st, arr, d, p);
    Together(st, arr, p);
    TopOf(st, arr, top, d, c);
    var placed := Place(st.f, c, ReportOf(st, p));
    TopResumed(st, arr, top, d, c, p);
    if !Lately(top, p) {
      EventForward(st, arr, top, d, c, p);
      d' := d;
    } else {
      d' := LateArrives(st, all, span, arr, top, d, p, c, j, c', j');
    }
  }

  /** A report that comes late leaves the latest packet as it is. */
  lemma TopResumed(st: Stream, arr: seq<Sent>, top: Sent, d: int, c: Clock, p: Sent)
    requires Inv(st, arr, top, d, c) && p.kind.During? && InOrder(p, top) && (p.number == top.number ==> p == top)
    ensures NextTop(top, p) == if Lately(top, p) then top else p
  {
  }

  lemma TopOf(st: Stream, arr: seq<Sent>, top: Sent, d: int, c: Clock)
    requires Inv(st, arr, top, d, c)
    ensures top in arr
  {
  }

  lemma LateArrives(st: Stream, all: seq<Sent>, span: nat, arr: seq<Sent>, top: Sent, d: int, p: Sent,
                    c: Clock, j: J.Jitter, c': Clock, j': J.Jitter) returns (d': int)
    requires arr != [] && Arrivals(st, arr + [p]) && Good(st, arr, top, d, c, j) && p.kind.During? && Lately(top, p)
    requires Roomy(st, all, span) && st.first.stamp <= st.event && forall q :: q in arr + [p] ==> q in all
    requires Arrives(st, span, c, j, p, c', j') && J.WellKept(j')
    ensures Good(st, arr + [p], top, d', c', j')
  {
    hide FrameBuffer.HoldsFrames, J.WellKept, Place, Roomy, Arrivals, FromStream, Candidate, PlanRepair, Repaired, RepairSeq, J.ShiftStep, Inv, Implied, RepairPoint, Consistent, HistoryOk, EpochsOk, PlanIs, FramesOf;
    var more, number := arr + [p], RepairSeq(c.history, p.stamp, p.number);
    var placed := Place(st.f, c, ReportOf(st, p));
    FramesOfReport(st, arr, d, p);
    Together(st, arr, p);
    TopOf(st, arr, top, d, c);
    KindsOfMore(arr, p);
    ArrivalsConsistent(st, more);
    AllFromStream(st, more);
    ShortEnough(st, more, d, placed.clock.history);
    LateRecorded(st, arr, top, d, c, p);
    OnlyFirstEpochBefore(st, more, d, c.epochs, number);
    var b := PlanOfLate(st, more, d, placed.clock, number);
    if HasResumed(more) && Implied(st, more, b) != d {
      d' := Implied(st, more, b);
      var plan := PlanRepair(st.f, placed.clock, number, st.event).value;
      LateRepaired(st, more, top, d, placed.clock, number, b, plan);
      CorrectionOf(st, more, d, number, b, plan);
      SettledCandidate(st, all, arr, top, d, c);
      SettledCandidate(st, all, more, top, d', Repaired(placed.clock, plan));
      ShiftArrives(st, all, span, more, d, d', b, plan, placed.clock, j, number, c', j');
    } else {
      d' := d;
      LateUnrepaired(st, arr, top, d, c, p, placed.clock, b);
    }
  }

  lemma AllFromStream(st: Stream, arr: seq<Sent>)
    requires Arrivals(st, arr)
    ensures forall q :: q in arr ==> FromStream(st, q)
  {
  }

  lemma ShortEnough(st: Stream, arr: seq<Sent>, d: int, history: seq<Observation>)
    requires Arrivals(st, arr)
    ensures HistoryOk(st, arr, d, history) ==> |history| <= 256
  {
  }

  lemma SettledCandidate(st: Stream, all: seq<Sent>, arr: seq<Sent>, top: Sent, d: int, c: Clock)
    requires Inv(st, arr, top, d, c) && HasResumed(arr) && forall q :: q in arr ==> q in all
    ensures Candidate(st, all, d)
  {
    hide HistoryOk, EpochsOk, IsTop;
    SettledIsCandidate(st, arr, d);
    CandidateOfMore(st, arr, all, d);
  }

  lemma ShiftArrives(st: Stream, all: seq<Sent>, span: nat, arr: seq<Sent>, d: int, d': int, b: Sent, plan: Plan,
                     c: Clock, j: J.Jitter, number: int, c': Clock, j': J.Jitter)
    requires Roomy(st, all, span) && st.first.stamp <= st.event && Candidate(st, all, d) && Candidate(st, all, d')
    requires (forall q :: q in arr ==> q in all && FromStream(st, q)) && EarliestResumed(arr, b)
    requires PlanRepair(st.f, c, number, st.event) == Some(plan) && plan.boundary == d + R(st, b.stamp) && plan.correction == d' - d
    requires FrameBuffer.HoldsFrames(j, Base(st), FramesOf(st, arr, d)) && J.WellKept(j')
    requires RepairStep(st.f, span, c, j, number, st.event, c', j')
    ensures c' == Repaired(c, plan) && FrameBuffer.HoldsFrames(j', Base(st), FramesOf(st, arr, d'))
  {
    hide FrameBuffer.HoldsFrames, FrameBuffer.Shiftable, J.WellKept, Roomy, FromStream, Candidate, PlanRepair, Repaired, J.ShiftStep, FramesOf, EarliestResumed;
    var boundary := d + R(st, b.stamp);
    CanShift(st, all, span, arr, d, d', b);
    var ok :| J.ShiftStep(j, span, boundary, d' - d, ok, j') && c' == if ok then Repaired(c, plan) else c;
    FrameBuffer.ShiftMovesFrames(j, Base(st), span, FramesOf(st, arr, d), boundary, d' - d, ok, j');
    MovedFramesAre(st, all, span, arr, d, d', boundary);
  }

  // ------------------------------------------------------------------ a whole delivery

  /** Timeline and buffer after each arrival. */
  datatype Delivery = Delivery(clocks: seq<Clock>, buffers: seq<J.Jitter>)

  /** The buffer after the last arrival. */
  function End(dl: Delivery): J.Jitter {
    if dl.buffers == [] then J.Jitter(0, 0, map[], map[], false, false) else dl.buffers[|dl.buffers| - 1]
  }

  /** The first packet starts the buffer over (a new source); the others arrive in the order of `arr`. */
  ghost predicate Delivered(st: Stream, span: nat, arr: seq<Sent>, dl: Delivery) {
    && |dl.clocks| == |dl.buffers| == |arr| > 0
    && (var placed := Place(st.f, Unset, ReportOf(st, arr[0]));
        dl.clocks[0] == placed.clock && dl.buffers[0] == J.Fresh(placed.offset, arr[0].data))
    && (forall i :: 0 <= i < |arr| ==> J.WellKept(dl.buffers[i]))
    && (forall i :: 0 < i < |arr| ==> Arrives(st, span, dl.clocks[i - 1], dl.buffers[i - 1], arr[i], dl.clocks[i], dl.buffers[i]))
  }

  lemma FirstDelivered(st: Stream, span: nat, p: Sent, c: Clock, j: J.Jitter)
    requires var placed := Place(st.f, Unset, ReportOf(st, p)); c == placed.clock && j == J.Fresh(placed.offset, p.data)
    requires J.WellKept(j)
    ensures Delivered(st, span, [p], Delivery([c], [j]))
  {
    hide Place, J.WellKept;
  }

  lemma DeliveredNext(st: Stream, span: nat, arr: seq<Sent>, p: Sent, dl: Delivery, c: Clock, j: J.Jitter)
    requires Delivered(st, span, arr, dl) && |dl.clocks| > 0 && J.WellKept(j)
    requires Arrives(st, span, dl.clocks[|dl.clocks| - 1], End(dl), p, c, j)
    ensures Delivered(st, span, arr + [p], Delivery(dl.clocks + [c], dl.buffers + [j]))
  {
    hide Place, J.WellKept, Arrives;
  }

  /** The first packet's place, and the timeline it leaves. */
  lemma FirstPlaced(st: Stream, arr: seq<Sent>)
    requires Arrivals(st, arr)
    ensures var placed := Place(st.f, Unset, ReportOf(st, st.first));
            && placed.offset == R(st, st.first.stamp)
            && placed.clock == Clock(Some(st.first.number), Some(st.first.stamp), [FirstEpoch(st)],
                                     [Observation(st.first.number, st.first.stamp, st.rate, R(st, st.first.stamp), true, None)], None)
  {
    hide OffsetAt;
    assert FromStream(st, st.first) by { assert arr[0] in arr; }
    FromFirst(st, st.first.stamp);
    assert EpochsWith(st.f, Unset, ReportOf(st, st.first)) == [FirstEpoch(st)];
    EpochAtOfThree(FirstEpoch(st), FirstEpoch(st), FirstEpoch(st), st.first.number);
  }

  lemma FirstGood(st: Stream, arr: seq<Sent>)
    requires Arrivals(st, arr)
    ensures var placed := Place(st.f, Unset, ReportOf(st, st.first));
            Good(st, [st.first], st.first, 0, placed.clock, J.Fresh(placed.offset, st.first.data))
  {
    hide *;
    FirstPlaced(st, arr);
    FirstIsAudio(st, arr);
    var placed := Place(st.f, Unset, ReportOf(st, st.first));
    FirstInv(st, placed.clock);
    FirstFrame(st);
    FrameBuffer.FreshHoldsFrame(J.Packet(placed.offset, st.first.data));
    FirstIsGood(st, placed.clock, J.Fresh(placed.offset, st.first.data));
  }

  lemma FirstIsGood(st: Stream, c: Clock, j: J.Jitter)
    requires Inv(st, [st.first], st.first, 0, c)
    requires FrameBuffer.HoldsFrames(j, R(st, st.first.stamp), FramesOf(st, [st.first], 0))
    ensures Good(st, [st.first], st.first, 0, c, j)
  {
    hide Inv, FrameBuffer.HoldsFrames, FramesOf;
  }

  lemma FirstIsAudio(st: Stream, arr: seq<Sent>)
    requires Arrivals(st, arr)
    ensures st.first.kind == Before
  {
  }

  lemma FirstFrame(st: Stream)
    requires st.first.kind == Before
    ensures FramesOf(st, [st.first], 0) == [J.Packet(R(st, st.first.stamp), st.first.data)]
  {
    hide OffsetAt;
    assert [st.first][..0] == [];
  }

  lemma FirstInv(st: Stream, c: Clock)
    requires st.first.kind == Before
    requires c == Clock(Some(st.first.number), Some(st.first.stamp), [FirstEpoch(st)],
                        [Observation(st.first.number, st.first.stamp, st.rate, R(st, st.first.stamp), true, None)], None)
    ensures Inv(st, [st.first], st.first, 0, c)
  {
    hide OffsetAt, HistoryOk, Implied, HasLate;
    FirstRecorded(st, c.history);
    assert !HasResumed([st.first]) && !HasEvent([st.first]) && !HasEnd([st.first]) && st.first in [st.first];
  }

  lemma FirstRecorded(st: Stream, history: seq<Observation>)
    requires st.first.kind == Before
    requires history == [Observation(st.first.number, st.first.stamp, st.rate, R(st, st.first.stamp), true, None)]
    ensures HistoryOk(st, [st.first], 0, history)
  {
    assert st.first in [st.first] && history[0] in history;
    assert IsSeen(st, [st.first], 0, st.first, history[0]);
  }

  lemma ArrivalsPrefix(st: Stream, arr: seq<Sent>, n: nat)
    requires Arrivals(st, arr) && 0 < n <= |arr|
    ensures Arrivals(st, arr[..n]) && forall p :: p in arr[..n] ==> p in arr
  {
    LateOfMore(arr[..n], arr);
    hide HasLate, Gapped, FromStream, InOrder;
  }

  /** After every arrival, timeline and buffer agree on one displacement that the packets so far allow. */
  lemma {:induction false} AlwaysGood(st: Stream, span: nat, arr: seq<Sent>, dl: Delivery, n: nat) returns (top: Sent, d: int)
    requires Arrivals(st, arr) && Roomy(st, arr, span) && Delivered(st, span, arr, dl) && st.first.stamp <= st.event
    requires 0 < n <= |arr|
    ensures Good(st, arr[..n], top, d, dl.clocks[n - 1], dl.buffers[n - 1])
  {
    hide Good, Roomy, Arrives, Place;
    if n == 1 {
      FirstGood(st, arr);
      assert arr[..1] == [st.first];
      return st.first, 0;
    }
    var before, p := arr[..n - 1], arr[n - 1];
    var top0, d0 := AlwaysGood(st, span, arr, dl, n - 1);
    assert arr[..n] == before + [p];
    ArrivalsPrefix(st, arr, n);
    ArrivalsPrefix(st, arr, n - 1);
    hide Arrivals;
    top := NextTop(top0, p);
    if Audio(p) {
      AudioArrives(st, arr, span, before, top0, d0, p, dl.clocks[n - 2], dl.buffers[n - 2], dl.clocks[n - 1], dl.buffers[n - 1]);
      d := NextDisplacement(st, before, d0, p);
    } else {
      d := ReportArrives(st, arr, span, before, top0, d0, p, dl.clocks[n - 2], dl.buffers[n - 2], dl.clocks[n - 1], dl.buffers[n - 1]);
    }
  }

  /** The jitter buffer holds exactly the frames of `arr`, the resumed ones displaced by `d`, and nothing has been played. */
  ghost predicate InPlace(st: Stream, arr: seq<Sent>, d: int, j: J.Jitter) {
    && j.cursor == Base(st) && !j.started
    && (forall p, k :: p in arr && Audio(p) && FrameBuffer.Inside(FrameOf(st, d, p), k) ==>
          k in j.mem && j.mem[k] == J.At(PcmOf(st, d, p), p.data, k))
    && (forall k :: k in j.mem ==> exists p :: p in arr && Audio(p) && FrameBuffer.Inside(FrameOf(st, d, p), k))
  }

  lemma FramesInPlace(st: Stream, arr: seq<Sent>, d: int, j: J.Jitter)
    requires FrameBuffer.HoldsFrames(j, Base(st), FramesOf(st, arr, d))
    ensures InPlace(st, arr, d, j)
  {
    hide PcmOf, J.WellKept, J.LogComplete;
    forall p, k | p in arr && Audio(p) && FrameBuffer.Inside(FrameOf(st, d, p), k)
      ensures k in j.mem && j.mem[k] == J.At(PcmOf(st, d, p), p.data, k)
    {
      HasFrame(st, arr, d, p);
    }
    forall k | k in j.mem
      ensures exists p :: p in arr && Audio(p) && FrameBuffer.Inside(FrameOf(st, d, p), k)
    {
      var g :| g in FramesOf(st, arr, d) && FrameBuffer.Inside(g, k);
      var p := FrameIsOf(st, arr, d, g);
    }
  }

  /**
   In whatever order the packets arrive after the first, every audio frame lies at the offset that its own
   timestamp gives it, resumed audio displaced as one of its packets implies, and nothing else is there.
   */
  lemma EveryOrderEndsInPlace(st: Stream, span: nat, arr: seq<Sent>, dl: Delivery) returns (d: int)
    requires Arrivals(st, arr) && Roomy(st, arr, span) && Delivered(st, span, arr, dl) && st.first.stamp <= st.event
    ensures InPlace(st, arr, d, End(dl)) && Settled(st, arr, d)
  {
    hide Arrivals, Roomy, Delivered, InPlace, HistoryOk, EpochsOk, IsTop;
    LengthsOf(st, span, arr, dl);
    var top;
    top, d := AlwaysGood(st, span, arr, dl, |arr|);
    assert arr[..|arr|] == arr;
    FramesInPlace(st, arr, d, End(dl));
  }

  lemma LengthsOf(st: Stream, span: nat, arr: seq<Sent>, dl: Delivery)
    requires Delivered(st, span, arr, dl)
    ensures |dl.clocks| == |dl.buffers| == |arr| > 0
  {
  }
}
