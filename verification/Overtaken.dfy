/**
 An end report that was sent after resumed audio, as a sender repeats it when the first reports may have been lost.
 When it arrives after that audio, the repair puts the audio where it belongs; when it overtakes the audio, nothing
 does: the audio lies where an uninterrupted audio clock would have put it.
 */
module Overtaken {
  import opened Bytes
  import opened ReceiveTimeline
  import opened ArrivalOrder
  import opened AnyOrder
  import FrameBuffer
  import LateReport
  import ClockEpochs
  import J = JitterBuffer

  /** Resumed audio that arrives after reports which were all sent after it. */
  ghost predicate IsOvertaken(st: Stream, arr: seq<Sent>, b: Sent) {
    && b.kind == Resumed && FromStream(st, b) && st.event < b.stamp
    && HasEvent(arr) && !HasResumed(arr)
    && (forall q :: q in arr && q.kind.During? ==> b.number < q.number)
    && (forall q :: q in arr && q.kind == Before ==> q.number < b.number)
  }

  /** It is placed by the audio clock alone, and no repair is asked for. */
  lemma OvertakenPlaced(st: Stream, arr: seq<Sent>, top: Sent, d: int, c: Clock, b: Sent)
    requires Inv(st, arr, top, d, c) && IsOvertaken(st, arr, b) && FromStream(st, top) && st.first in arr && st.first.kind == Before
    ensures Place(st.f, c, ReportOf(st, b)).offset == R(st, b.stamp) && Place(st.f, c, ReportOf(st, b)).repair == None
  {
    hide OffsetAt, Measure, Settled, HistoryOk, StampOf, SeqOf, FromStream, HasResumed, HasEvent, RepairSeq, OldestSeq;
    Unwrapped(st, arr, top, c, b);
    FromFirst(st, b.stamp);
    var e0 := FirstEpoch(st);
    OvertakenEpochs(st, arr, d, c, b);
    NotForward(st, arr, top, c, b);
    if |c.epochs| == 1 {
      EpochAtOfThree(e0, e0, e0, b.number);
    } else {
      assert c.epochs == [e0, c.epochs[1]];
      EpochAtOfThree(e0, c.epochs[1], e0, b.number);
    }
  }

  lemma OvertakenEpochs(st: Stream, arr: seq<Sent>, d: int, c: Clock, b: Sent)
    requires EpochsOk(st, arr, d, c.epochs) && IsOvertaken(st, arr, b)
    ensures 1 <= |c.epochs| <= 2 && c.epochs[0] == FirstEpoch(st)
    ensures |c.epochs| == 2 ==> b.number < c.epochs[1].number
    ensures |c.epochs| == 1 ==> st.rate == EVENT_RATE
  {
    hide OffsetAt;
  }

  lemma NotForward(st: Stream, arr: seq<Sent>, top: Sent, c: Clock, b: Sent)
    requires IsTop(arr, top, c) && IsOvertaken(st, arr, b)
    ensures !IsForward(c, b.number, b.stamp)
  {
    var q :| q in arr && q.kind.During?;
    assert q.number <= top.number || Late(top, q);
  }

  lemma OvertakenFits(st: Stream, span: nat, arr: seq<Sent>, b: Sent)
    requires IsOvertaken(st, arr, b) && Roomy(st, arr + [b], span) && st.first.stamp <= st.event && forall q :: q in arr ==> FromStream(st, q)
    ensures Base(st) <= R(st, b.stamp) <= Base(st) + span && b.data != [] && R(st, st.event) <= R(st, b.stamp)
    ensures forall g :: g in FramesOf(st, arr, 0) ==> g.offset <= Base(st) + span && g.offset + |g.data| <= R(st, b.stamp)
  {
    hide OffsetAt, Candidate, Roomy, FromStream, HasEvent, FramesOf;
    assert b in arr + [b];
    NoDisplacement(st, arr + [b]);
    FrameFits(st, arr + [b], span, 0, b);
    forall g | g in FramesOf(st, arr, 0)
      ensures g.offset <= Base(st) + span && g.offset + |g.data| <= R(st, b.stamp)
    {
      var q := FrameIsOf(st, arr, 0, g);
      assert q in arr + [b];
      FrameFits(st, arr + [b], span, 0, q);
    }
  }

  lemma NoDisplacement(st: Stream, arr: seq<Sent>)
    ensures Candidate(st, arr, 0)
  {
  }

  /** Timeline and buffer take it in as audio without displacement. */
  lemma OvertakenArrives(st: Stream, span: nat, arr: seq<Sent>, top: Sent, d: int, b: Sent, c: Clock, j: J.Jitter, c': Clock, j': J.Jitter)
    requires Arrivals(st, arr) && Good(st, arr, top, d, c, j) && IsOvertaken(st, arr, b)
    requires Roomy(st, arr + [b], span) && st.first.stamp <= st.event
    requires Arrives(st, span, c, j, b, c', j') && J.WellKept(j')
    ensures FrameBuffer.HoldsFrames(j', Base(st), FramesOf(st, arr + [b], 0))
  {
    hide Inv, FrameBuffer.HoldsFrames, J.WriteStep, J.WellKept, Place, Roomy, FramesOf, FromStream, InOrder, HasEvent, HasResumed, HasLate, Gapped, NoneOvertakes, ReportOf;
    TopOf(st, arr, top, d, c);
    assert st.first in arr;
    OvertakenPlaced(st, arr, top, d, c, b);
    OvertakenFits(st, span, arr, b);
    DisplacementUnused(st, arr, d, 0);
    FramesNext(st, arr, 0, b);
    FrameBuffer.WriteAddsFrame(j, Base(st), span, FramesOf(st, arr, 0), J.Packet(R(st, b.stamp), b.data), j');
  }

  lemma OvertakenEndsAtZero(st: Stream, span: nat, arr: seq<Sent>, b: Sent, dl: Delivery)
    requires Arrivals(st, arr) && IsOvertaken(st, arr, b) && Roomy(st, arr + [b], span) && st.first.stamp <= st.event
    requires Delivered(st, span, arr + [b], dl)
    ensures InPlace(st, arr + [b], 0, End(dl))
  {
    hide Arrivals, Roomy, Good, Arrives, Place, J.WellKept, IsOvertaken, InPlace;
    var n := |arr|;
    var before := Delivery(dl.clocks[..n], dl.buffers[..n]);
    StartsWith(st, arr);
    assert Delivered(st, span, arr, before);
    LessRoomy(st, arr, b, span);
    var top, d := AlwaysGood(st, span, arr, before, n);
    assert arr[..n] == arr && (arr + [b])[n] == b;
    OvertakenArrives(st, span, arr, top, d, b, dl.clocks[n - 1], dl.buffers[n - 1], dl.clocks[n], dl.buffers[n]);
    FramesInPlace(st, arr + [b], 0, End(dl));
  }

  lemma StartsWith(st: Stream, arr: seq<Sent>)
    requires Arrivals(st, arr)
    ensures arr != [] && arr[0] == st.first
  {
  }

  lemma LessRoomy(st: Stream, arr: seq<Sent>, b: Sent, span: nat)
    requires Roomy(st, arr + [b], span) && IsOvertaken(st, arr, b)
    ensures Roomy(st, arr, span)
  {
    hide Candidate, OffsetAt, FromStream;
    KindsOfMore(arr, b);
    assert Disjoint(st, arr) by { assert forall p :: p in arr ==> p in arr + [b]; }
    assert forall x :: x in arr ==> x.kind != Resumed;
  }

  /**
   Resumed audio that all reports have overtaken: the buffer ends up as the event wants it if and only if the event
   displaces that audio by nothing.
   */
  lemma OvertakenInPlaceIff(st: Stream, span: nat, arr: seq<Sent>, b: Sent, dl: Delivery)
    requires Arrivals(st, arr) && IsOvertaken(st, arr, b) && Roomy(st, arr + [b], span) && st.first.stamp <= st.event
    requires Delivered(st, span, arr + [b], dl)
    ensures InPlace(st, arr + [b], Implied(st, arr + [b], b), End(dl)) <==> Implied(st, arr + [b], b) == 0
  {
    hide Arrivals, Roomy, Delivered, InPlace, Implied, IsOvertaken;
    OvertakenEndsAtZero(st, span, arr, b, dl);
    if InPlace(st, arr + [b], Implied(st, arr + [b], b), End(dl)) && Implied(st, arr + [b], b) != 0 {
      NotTwice(st, span, arr, b, Implied(st, arr + [b], b), End(dl));
    }
  }

  lemma FrameIsHeld(st: Stream, arr: seq<Sent>, d: int, j: J.Jitter, b: Sent, k: int)
    requires InPlace(st, arr, d, j) && b in arr && Audio(b) && FrameBuffer.Inside(FrameOf(st, d, b), k)
    ensures k in j.mem
  {
    hide PcmOf;
  }

  lemma HeldIsFrame(st: Stream, arr: seq<Sent>, d: int, j: J.Jitter, k: int) returns (p: Sent)
    requires InPlace(st, arr, d, j) && k in j.mem
    ensures p in arr && Audio(p) && FrameBuffer.Inside(FrameOf(st, d, p), k)
  {
    hide PcmOf;
    p :| p in arr && Audio(p) && FrameBuffer.Inside(FrameOf(st, d, p), k);
  }

  /** One buffer does not hold the audio both displaced and not. */
  lemma NotTwice(st: Stream, span: nat, arr: seq<Sent>, b: Sent, d: int, j: J.Jitter)
    requires Arrivals(st, arr) && IsOvertaken(st, arr, b) && Roomy(st, arr + [b], span) && st.first.stamp <= st.event
    requires d == Implied(st, arr + [b], b) && d != 0 && InPlace(st, arr + [b], 0, j)
    ensures !InPlace(st, arr + [b], d, j)
  {
    var k := d + R(st, b.stamp) + if d > 0 then |b.data| - 1 else 0;
    OvertakenRoom(st, span, arr, b, d);
    assert b.kind == Resumed && Audio(b) && b in arr + [b];
    hide Arrivals, Roomy, R, Implied, IsOvertaken, InPlace, FramesOf;
    if InPlace(st, arr + [b], d, j) {
      FrameIsHeld(st, arr + [b], d, j, b, k);
      var p := HeldIsFrame(st, arr + [b], 0, j, k);
      if p != b {
        HasFrame(st, arr, 0, p);
      }
      assert false;
    }
  }

  lemma OvertakenRoom(st: Stream, span: nat, arr: seq<Sent>, b: Sent, d: int)
    requires Arrivals(st, arr) && IsOvertaken(st, arr, b) && Roomy(st, arr + [b], span) && st.first.stamp <= st.event
    requires d == Implied(st, arr + [b], b)
    ensures b.data != [] && R(st, st.event) <= d + R(st, b.stamp)
    ensures forall g :: g in FramesOf(st, arr, 0) ==> g.offset + |g.data| <= R(st, st.event)
  {
    hide OffsetAt, Roomy, FromStream, FramesOf, Displacement;
    assert b in arr + [b];
    KindsOfMore(arr, b);
    assert Candidate(st, arr + [b], d);
    AllFromStream(st, arr);
    hide Candidate, Implied, HasEvent, HasEnd, Arrivals;
    FrameFits(st, arr + [b], span, d, b);
    forall g | g in FramesOf(st, arr, 0)
      ensures g.offset + |g.data| <= R(st, st.event)
    {
      var q := FrameIsOf(st, arr, 0, g);
      NoDisplacement(st, arr + [b]);
      assert q in arr + [b] && q.kind == Before;
      FrameFits(st, arr + [b], span, 0, q);
    }
  }

  // ------------------------------------------------------------------ the reports lost, the end report repeated

  /** 8 kHz PCM of one byte a sample, audio with a 48 kHz clock, an event of 800 ticks from timestamp 1920. */
  const Fullband := Stream(Format(8000, 1), 48000, Sent(10, 0, Before, [1]), 1920, 800)
  const Second := Sent(11, 960, Before, [2])
  const Back := Sent(15, 2720, Resumed, [3])
  const Again := Sent(16, 1920, During(true), [])

  lemma FullbandPlaces()
    ensures R(Fullband, 0) == 0 && R(Fullband, 960) == 160 && R(Fullband, 1920) == 320 && R(Fullband, 2720) == 453
    ensures Displacement(Fullband, 2720) == 667
  {
  }

  lemma RepeatArrives()
    ensures Arrivals(Fullband, [Fullband.first, Second, Back, Again]) && Fullband.first.stamp <= Fullband.event
  {
  }

  lemma OvertakenBefore()
    ensures Arrivals(Fullband, [Fullband.first, Second, Again]) && IsOvertaken(Fullband, [Fullband.first, Second, Again], Back)
    ensures Fullband.first.stamp <= Fullband.event
  {
    var arr := [Fullband.first, Second, Again];
    assert arr[2] == Again && Again in arr;
  }

  lemma RepeatSettles(d: int)
    requires Settled(Fullband, [Fullband.first, Second, Back, Again], d)
    ensures d == Implied(Fullband, [Fullband.first, Second, Back, Again], Back)
  {
    hide Implied, OffsetAt;
    var arr := [Fullband.first, Second, Back, Again];
    assert arr[2] == Back && arr[3] == Again;
    assert Back in arr && Again in arr && Late(Back, Again);
  }

  lemma FullbandIsRoomy(arr: seq<Sent>)
    requires forall p :: p in arr ==> p in {Fullband.first, Second, Back, Again}
    ensures Roomy(Fullband, arr, 2000) && Implied(Fullband, arr, Back) == 667
  {
    FullbandPlaces();
    hide R, Displacement;
    forall d | Candidate(Fullband, arr, d)
      ensures 0 <= d <= 667
    {
    }
  }

  /**
   The first reports are lost and the end report comes after the audio that was sent before it: that audio, placed
   at offset 453 when it arrived, is moved to 1120, where the event's 800 ticks put it.
   */
  lemma LostReportsAreRepaired(dl: Delivery)
    requires Delivered(Fullband, 2000, [Fullband.first, Second, Back, Again], dl)
    ensures InPlace(Fullband, [Fullband.first, Second, Back, Again], 667, End(dl)) && PcmOf(Fullband, 667, Back) == 1120
  {
    hide *;
    var arr := [Fullband.first, Second, Back, Again];
    RepeatArrives();
    FullbandIsRoomy(arr);
    FullbandPlaces();
    var d := EveryOrderEndsInPlace(Fullband, 2000, arr, dl);
    RepeatSettles(d);
    DisplacedPlace(667);
  }

  lemma DisplacedPlace(d: int)
    ensures PcmOf(Fullband, d, Back) == R(Fullband, 2720) + d
  {
  }

  /** When the end report overtakes that audio, it stays at 453. */
  lemma OvertakenStays(dl: Delivery)
    requires Delivered(Fullband, 2000, [Fullband.first, Second, Again, Back], dl)
    ensures var arr := [Fullband.first, Second, Again, Back];
            InPlace(Fullband, arr, 0, End(dl)) && !InPlace(Fullband, arr, 667, End(dl)) && PcmOf(Fullband, 0, Back) == 453
  {
    hide *;
    var arr := [Fullband.first, Second, Again];
    OvertakenBefore();
    FullbandIsRoomy(arr + [Back]);
    FullbandPlaces();
    DisplacedPlace(0);
    assert arr + [Back] == [Fullband.first, Second, Again, Back];
    OvertakenEndsAtZero(Fullband, 2000, arr, Back, dl);
    OvertakenInPlaceIff(Fullband, 2000, arr, Back, dl);
  }
}
