/**
 When the order of arrival matters.  Every order of a set of packets leaves the same PCM exactly when no report of
 the event is among them or all resumed packets imply the same displacement; so not without an end report, in
 general, nor for audio resumed before the end.
 */
module OrderMatters {
  import opened Bytes
  import opened ReceiveTimeline
  import opened ArrivalOrder
  import opened AnyOrder
  import LateReport
  import FrameBuffer
  import J = JitterBuffer

  /** `arr'` brings the packets of `arr` in another order. */
  ghost predicate Reordered(st: Stream, arr: seq<Sent>, arr': seq<Sent>) {
    Arrivals(st, arr') && forall p :: p in arr <==> p in arr'
  }

  ghost predicate SamePcm(j: J.Jitter, j': J.Jitter) {
    j.mem == j'.mem && j.cursor == j'.cursor
  }

  /** Every two orders of arrival leave the same PCM to be played. */
  ghost predicate OrderIsIrrelevant(st: Stream, span: nat, arr: seq<Sent>) {
    forall a, dl, a', dl' :: Reordered(st, arr, a) && Delivered(st, span, a, dl) && Reordered(st, arr, a') && Delivered(st, span, a', dl') ==>
      SamePcm(End(dl), End(dl'))
  }

  /** All resumed packets imply the same displacement. */
  ghost predicate Alike(st: Stream, arr: seq<Sent>) {
    forall x, y :: x in arr && y in arr && x.kind == Resumed && y.kind == Resumed ==> Implied(st, arr, x) == Implied(st, arr, y)
  }

  lemma SameKinds(st: Stream, arr: seq<Sent>, arr': seq<Sent>)
    requires forall p :: p in arr <==> p in arr'
    ensures HasEvent(arr) == HasEvent(arr') && HasEnd(arr) == HasEnd(arr') && HasResumed(arr) == HasResumed(arr')
    ensures HasLate(arr) == HasLate(arr') && forall b :: EarliestResumed(arr, b) <==> EarliestResumed(arr', b)
    ensures forall p :: Implied(st, arr, p) == Implied(st, arr', p)
  {
    hide Displacement;
  }

  lemma RoomyToo(st: Stream, arr: seq<Sent>, arr': seq<Sent>, span: nat)
    requires Roomy(st, arr, span) && forall p :: p in arr <==> p in arr'
    ensures Roomy(st, arr', span)
  {
    hide Candidate, OffsetAt;
    forall d | Candidate(st, arr', d)
      ensures Candidate(st, arr, d)
    {
      CandidateOfMore(st, arr', arr, d);
    }
  }

  /** Whatever the order, the PCM is that of the same packets, for some displacement that one of them implies. */
  lemma ReorderedEndsInPlace(st: Stream, span: nat, arr: seq<Sent>, a: seq<Sent>, dl: Delivery) returns (d: int)
    requires Arrivals(st, arr) && Roomy(st, arr, span) && st.first.stamp <= st.event
    requires Reordered(st, arr, a) && Delivered(st, span, a, dl)
    ensures InPlace(st, arr, d, End(dl)) && Settled(st, arr, d)
  {
    hide Roomy, Delivered, Arrivals, Implied;
    RoomyToo(st, arr, a, span);
    SameKinds(st, arr, a);
    d := EveryOrderEndsInPlace(st, span, a, dl);
    hide InPlace;
    InPlaceToo(st, a, arr, d, End(dl));
    SettledToo(st, a, arr, d);
  }

  lemma InPlaceToo(st: Stream, arr: seq<Sent>, arr': seq<Sent>, d: int, j: J.Jitter)
    requires InPlace(st, arr, d, j) && forall p :: p in arr <==> p in arr'
    ensures InPlace(st, arr', d, j)
  {
    hide FrameOf, PcmOf, Base;
    forall k | k in j.mem
      ensures exists p :: p in arr' && Audio(p) && FrameBuffer.Inside(FrameOf(st, d, p), k)
    {
      var p :| p in arr && Audio(p) && FrameBuffer.Inside(FrameOf(st, d, p), k);
    }
  }

  lemma SettledToo(st: Stream, arr: seq<Sent>, arr': seq<Sent>, d: int)
    requires Settled(st, arr, d) && forall p :: p in arr <==> p in arr'
    ensures Settled(st, arr', d)
  {
    hide Implied, HasEvent, HasLate, HasResumed, EarliestResumed;
    SameKinds(st, arr, arr');
  }

  lemma SameByte(st: Stream, arr: seq<Sent>, d: int, j: J.Jitter, d': int, j': J.Jitter, k: int)
    requires InPlace(st, arr, d, j) && InPlace(st, arr, d', j') && k in j.mem
    requires forall p :: p in arr ==> PcmOf(st, d, p) == PcmOf(st, d', p)
    ensures k in j'.mem && j.mem[k] == j'.mem[k]
  {
    hide Base, PcmOf;
    var p :| p in arr && Audio(p) && FrameBuffer.Inside(FrameOf(st, d, p), k);
    assert FrameBuffer.Inside(FrameOf(st, d', p), k);
  }

  lemma SamePlaces(st: Stream, arr: seq<Sent>, d: int, j: J.Jitter, d': int, j': J.Jitter)
    requires InPlace(st, arr, d, j) && InPlace(st, arr, d', j') && (d == d' || !HasResumed(arr))
    ensures SamePcm(j, j')
  {
    assert forall p :: p in arr ==> PcmOf(st, d, p) == PcmOf(st, d', p);
    assert j.cursor == j'.cursor;
    hide InPlace, PcmOf;
    forall k
      ensures k in j.mem <==> k in j'.mem
      ensures k in j.mem ==> j.mem[k] == j'.mem[k]
    {
      if k in j.mem {
        SameByte(st, arr, d, j, d', j', k);
      }
      if k in j'.mem {
        SameByte(st, arr, d', j', d, j, k);
      }
    }
  }

  // ------------------------------------------------------------------ different displacements can be heard

  lemma {:induction false} LastResumed(arr: seq<Sent>) returns (z: Sent)
    requires HasResumed(arr)
    ensures z in arr && z.kind == Resumed && forall q :: q in arr && q.kind == Resumed ==> q.number <= z.number
  {
    var before, last := arr[..|arr| - 1], arr[|arr| - 1];
    assert arr == before + [last];
    KindsOfMore(before, last);
    if HasResumed(before) {
      z := LastResumed(before);
      if last.kind == Resumed && last.number > z.number {
        z := last;
      }
    } else {
      z := last;
    }
  }

  lemma EndsBefore(st: Stream, arr: seq<Sent>, span: nat, p: Sent, q: Sent)
    requires Roomy(st, arr, span) && p in arr && q in arr && p.kind == q.kind == Resumed && p.number < q.number
    ensures R(st, p.stamp) + |p.data| <= R(st, q.stamp)
  {
    hide Candidate, OffsetAt;
  }

  lemma SameNumber(st: Stream, arr: seq<Sent>, p: Sent, q: Sent)
    requires Arrivals(st, arr) && p in arr && q in arr && p.number == q.number
    ensures p == q
  {
    LateReport.ArrivalsConsistent(st, arr);
  }

  /** The last byte of the last resumed packet lies past everything that is displaced less. */
  lemma PastAll(st: Stream, arr: seq<Sent>, span: nat, d: int, d': int, z: Sent, p: Sent)
    requires Arrivals(st, arr) && Roomy(st, arr, span) && st.first.stamp <= st.event && d > d'
    requires Candidate(st, arr, d) && Candidate(st, arr, d')
    requires z in arr && z.kind == Resumed && forall q :: q in arr && q.kind == Resumed ==> q.number <= z.number
    requires p in arr && Audio(p)
    ensures z.data != [] && !FrameBuffer.Inside(FrameOf(st, d', p), PcmOf(st, d, z) + |z.data| - 1)
  {
    hide Candidate, Arrivals, FromStream, Roomy, R;
    AllFromStream(st, arr);
    FrameFits(st, arr, span, d, z);
    FrameFits(st, arr, span, d', p);
    if p.kind == Resumed {
      if p.number == z.number {
        SameNumber(st, arr, p, z);
      } else {
        EndsBefore(st, arr, span, p, z);
      }
    }
  }

  lemma DisplacedElsewhere(st: Stream, arr: seq<Sent>, span: nat, d: int, j: J.Jitter, d': int, j': J.Jitter)
    requires Arrivals(st, arr) && Roomy(st, arr, span) && st.first.stamp <= st.event && HasResumed(arr)
    requires InPlace(st, arr, d, j) && InPlace(st, arr, d', j') && d > d'
    requires Candidate(st, arr, d) && Candidate(st, arr, d')
    ensures j.mem != j'.mem
  {
    hide Candidate, Arrivals, Roomy, PcmOf, HasResumed;
    var z := LastResumed(arr);
    var k := PcmOf(st, d, z) + |z.data| - 1;
    PastAll(st, arr, span, d, d', z, z);
    assert k in j.mem by {
      assert Audio(z) && FrameBuffer.Inside(FrameOf(st, d, z), k);
    }
    if k in j'.mem {
      var p :| p in arr && Audio(p) && FrameBuffer.Inside(FrameOf(st, d', p), k);
      PastAll(st, arr, span, d, d', z, p);
    }
  }

  // ------------------------------------------------------------------ orders there are

  /** The displacement that an order with the reports in sending order leads to. */
  ghost function Led(st: Stream, arr: seq<Sent>): int {
    if |arr| <= 1 then 0
    else
      var before := arr[..|arr| - 1];
      NextDisplacement(st, before, Led(st, before), arr[|arr| - 1])
  }

  lemma {:induction false} LedEarly(st: Stream, arr: seq<Sent>)
    requires !HasResumed(arr)
    ensures Led(st, arr) == 0
  {
    if |arr| > 1 {
      var before, p := arr[..|arr| - 1], arr[|arr| - 1];
      assert arr == before + [p];
      KindsOfMore(before, p);
      LedEarly(st, before);
    }
  }

  lemma {:induction false} LedStays(st: Stream, arr: seq<Sent>, more: seq<Sent>)
    requires HasResumed(arr) && arr != []
    ensures Led(st, arr + more) == Led(st, arr) && HasResumed(arr + more)
  {
    if more == [] {
      assert arr + more == arr;
    } else {
      var before, p := more[..|more| - 1], more[|more| - 1];
      LedStays(st, arr, before);
      assert arr + more == (arr + before) + [p] && (arr + more)[..|arr + more| - 1] == arr + before;
      KindsOfMore(arr + before, p);
    }
  }

  /** No report arrives late. */
  ghost predicate ReportsForward(arr: seq<Sent>) {
    forall i, j :: 0 <= i < j < |arr| && arr[j].kind.During? ==> arr[i].number < arr[j].number
  }

  lemma ForwardPrefix(arr: seq<Sent>, top: Sent)
    requires arr != [] && ReportsForward(arr) && top in arr[..|arr| - 1]
    ensures ReportsForward(arr[..|arr| - 1])
    ensures arr[|arr| - 1].kind.During? ==> top.number < arr[|arr| - 1].number
  {
  }

  /** Timeline and buffer can take in one more packet. */
  lemma CanArrive(st: Stream, all: seq<Sent>, span: nat, arr: seq<Sent>, top: Sent, d: int, p: Sent, c: Clock, j: J.Jitter)
    returns (top': Sent, c': Clock, j': J.Jitter)
    requires arr != [] && Arrivals(st, arr + [p]) && Good(st, arr, top, d, c, j)
    requires Roomy(st, all, span) && st.first.stamp <= st.event && forall q :: q in arr + [p] ==> q in all
    requires p.kind.During? ==> !Lately(top, p) && p.number > top.number
    ensures Arrives(st, span, c, j, p, c', j') && J.WellKept(j')
    ensures Good(st, arr + [p], top', NextDisplacement(st, arr, d, p), c', j')
  {
    hide Inv, FrameBuffer.HoldsFrames, J.WriteStep, J.WellKept, Place, Roomy, Arrivals, ReportOf, PcmOf, FramesOf, HasEvent, HasResumed, Implied;
    top', c', j' := NextTop(top, p), Place(st.f, c, ReportOf(st, p)).clock, j;
    if Audio(p) {
      AudioFits(st, all, span, arr, top, d, p, c, j);
      var d' := NextDisplacement(st, arr, d, p);
      j' := FrameBuffer.FrameIsWritten(j, Base(st), span, FramesOf(st, arr, d'), FrameOf(st, d', p));
      AudioArrives(st, all, span, arr, top, d, p, c, j, c', j');
    } else {
      EventForward(st, arr, top, d, c, p);
      FramesOfReport(st, arr, d, p);
      FrameBuffer.HeldIsWellKept(j, Base(st), FramesOf(st, arr, d));
      assert PlaceStep(st.f, span, c, j, ReportOf(st, p), Place(st.f, c, ReportOf(st, p)).offset, c', j');
    }
  }

  /** With the reports in sending order, the rest in any order, the packets can be delivered. */
  lemma {:induction false} CanBeDelivered(st: Stream, all: seq<Sent>, span: nat, arr: seq<Sent>) returns (top: Sent, dl: Delivery)
    requires Arrivals(st, arr) && Roomy(st, all, span) && st.first.stamp <= st.event
    requires ReportsForward(arr) && !HasLate(all) && forall q :: q in arr ==> q in all
    ensures Delivered(st, span, arr, dl) && |dl.clocks| == |arr| > 0
    ensures Good(st, arr, top, Led(st, arr), dl.clocks[|arr| - 1], End(dl))
  {
    hide Good, Roomy, Arrives, Place, J.WellKept, ReportsForward, Delivered, Arrivals, NextDisplacement, HasLate, InOrder;
    assert arr != [] && arr[0] == st.first by { StartsFirst(st, arr); }
    if |arr| == 1 {
      FirstGood(st, arr);
      assert arr == [st.first];
      var placed := Place(st.f, Unset, ReportOf(st, st.first));
      var j := J.Fresh(placed.offset, st.first.data);
      GoodIsWellKept(st, arr, st.first, 0, placed.clock, j);
      FirstDelivered(st, span, st.first, placed.clock, j);
      top, dl := st.first, Delivery([placed.clock], [j]);
    } else {
      var n := |arr| - 1;
      var before, p := arr[..n], arr[n];
      assert arr == before + [p];
      ArrivalsPrefix(st, arr, n);
      ForwardPrefix(arr, arr[0]);
      var top0, dl0 := CanBeDelivered(st, all, span, before);
      LengthsOf(st, span, before, dl0);
      GoodTop(st, before, top0, Led(st, before), dl0.clocks[n - 1], End(dl0));
      ForwardPrefix(arr, top0);
      NotLate(st, all, arr, top0, p);
      var c', j';
      top, c', j' := CanArrive(st, all, span, before, top0, Led(st, before), p, dl0.clocks[n - 1], End(dl0));
      DeliveredNext(st, span, before, p, dl0, c', j');
      dl := Delivery(dl0.clocks + [c'], dl0.buffers + [j']);
    }
  }

  lemma NotLate(st: Stream, all: seq<Sent>, arr: seq<Sent>, top: Sent, p: Sent)
    requires Arrivals(st, arr) && !HasLate(all) && (forall q :: q in arr ==> q in all) && top in arr && p in arr
    ensures p.kind.During? && top.number < p.number ==> !Lately(top, p)
  {
    assert InOrder(top, p);
  }

  lemma StartsFirst(st: Stream, arr: seq<Sent>)
    requires Arrivals(st, arr)
    ensures arr != [] && arr[0] == st.first
  {
  }

  lemma GoodIsWellKept(st: Stream, arr: seq<Sent>, top: Sent, d: int, c: Clock, j: J.Jitter)
    requires Good(st, arr, top, d, c, j)
    ensures J.WellKept(j)
  {
  }

  lemma GoodTop(st: Stream, arr: seq<Sent>, top: Sent, d: int, c: Clock, j: J.Jitter)
    requires Good(st, arr, top, d, c, j)
    ensures top in arr
  {
  }

  lemma {:induction false} LeastOf(s: set<Sent>) returns (m: Sent)
    requires s != {}
    ensures m in s && forall p :: p in s ==> m.number <= p.number
    decreases |s|
  {
    m :| m in s;
    var rest := s - {m};
    if rest != {} {
      var least := LeastOf(rest);
      if least.number < m.number {
        m := least;
      }
    }
  }

  ghost predicate Ascending(l: seq<Sent>) {
    forall i, j :: 0 <= i < j < |l| ==> l[i].number < l[j].number
  }

  ghost predicate Numbered(s: set<Sent>) {
    forall p, q :: p in s && q in s && p.number == q.number ==> p == q
  }

  /** Packets in sending order. */
  lemma {:induction false} Lined(s: set<Sent>) returns (l: seq<Sent>)
    requires Numbered(s)
    ensures |l| == |s| && Ascending(l) && forall p :: p in l <==> p in s
    decreases |s|
  {
    if s == {} {
      l := [];
    } else {
      var m := LeastOf(s);
      var rest := Lined(s - {m});
      l := [m] + rest;
      forall i | 0 <= i < |rest|
        ensures m.number < rest[i].number
      {
        assert rest[i] in s - {m};
      }
    }
  }

  lemma {:induction false} NoMoreThan(arr: seq<Sent>)
    ensures |set p | p in arr| <= |arr|
  {
    if arr != [] {
      var before, last := arr[..|arr| - 1], arr[|arr| - 1];
      NoMoreThan(before);
      assert arr == before + [last];
      assert (set p | p in arr) == (set p | p in before) + {last};
    }
  }

  /** An order: everything but the resumed audio in sending order, then the resumed packet `x`, then the others. */
  ghost predicate LedBy(arr: seq<Sent>, early: seq<Sent>, x: Sent, late: seq<Sent>) {
    && Ascending(early) && Ascending(late)
    && (forall p :: p in early <==> p in arr && p.kind != Resumed)
    && (forall p :: p in late <==> p in arr && p.kind == Resumed && p != x)
  }

  lemma SomeAreNumbered(arr: seq<Sent>, s: set<Sent>)
    requires LateReport.Consistent(arr) && forall p :: p in s ==> p in arr
    ensures Numbered(s)
  {
  }

  lemma Sizes(before: set<Sent>, x: Sent, after: set<Sent>)
    requires x !in before && x !in after && before !! after
    ensures |before + {x} + after| == |before| + 1 + |after|
  {
    assert (before + {x}) !! after;
  }

  lemma Parted(arr: seq<Sent>, x: Sent) returns (before: set<Sent>, after: set<Sent>)
    requires x in arr && x.kind == Resumed
    ensures forall p :: p in before <==> p in arr && p.kind != Resumed
    ensures forall p :: p in after <==> p in arr && p.kind == Resumed && p != x
    ensures |before| + 1 + |after| <= |arr|
  {
    before, after := set p | p in arr && p.kind != Resumed, set p | p in arr && p.kind == Resumed && p != x;
    Sizes(before, x, after);
    NoMoreThan(arr);
    assert (set p | p in arr) == before + {x} + after;
  }

  lemma LinedBy(st: Stream, arr: seq<Sent>, x: Sent) returns (early: seq<Sent>, late: seq<Sent>)
    requires Arrivals(st, arr) && x in arr && x.kind == Resumed
    ensures LedBy(arr, early, x, late) && |early| + 1 + |late| <= |arr|
  {
    LateReport.ArrivalsConsistent(st, arr);
    hide Arrivals, Ascending, LateReport.Consistent, Numbered;
    var before, after := Parted(arr, x);
    SomeAreNumbered(arr, before);
    SomeAreNumbered(arr, after);
    early := Lined(before);
    late := Lined(after);
  }

  lemma LedIsReordered(st: Stream, arr: seq<Sent>, early: seq<Sent>, x: Sent, late: seq<Sent>)
    requires Arrivals(st, arr) && !HasLate(arr) && x in arr && x.kind == Resumed && LedBy(arr, early, x, late) && |early| + 1 + |late| <= |arr|
    ensures early != [] && Reordered(st, arr, early + [x] + late) && ReportsForward(early + [x] + late)
  {
    hide *;
    var a := early + [x] + late;
    SameAsLed(arr, early, x, late);
    LedStarts(st, arr, early, x, late);
    LateReport.ArrivalsConsistent(st, arr);
    LedApart(arr, early, x, late);
    ReorderedIf(st, arr, a);
  }

  lemma SameAsLed(arr: seq<Sent>, early: seq<Sent>, x: Sent, late: seq<Sent>)
    requires x in arr && x.kind == Resumed && LedBy(arr, early, x, late)
    ensures forall p :: p in arr <==> p in early + [x] + late
  {
    hide Ascending;
    var a := early + [x] + late;
    forall p
      ensures p in arr <==> p in a
    {
      assert p in a <==> p in early || p == x || p in late;
    }
  }

  lemma LedStarts(st: Stream, arr: seq<Sent>, early: seq<Sent>, x: Sent, late: seq<Sent>)
    requires Arrivals(st, arr) && LedBy(arr, early, x, late)
    ensures early != [] && (early + [x] + late)[0] == st.first
  {
    LateReport.ArrivalsConsistent(st, arr);
    assert st.first in arr && st.first in early;
    var i :| 0 <= i < |early| && early[i] == st.first;
    assert early[0] in early && early[0] in arr && FromStream(st, early[0]);
    assert early[0] == st.first;
  }

  lemma LedApart(arr: seq<Sent>, early: seq<Sent>, x: Sent, late: seq<Sent>)
    requires LateReport.Consistent(arr) && !HasLate(arr) && x in arr && x.kind == Resumed && LedBy(arr, early, x, late)
    ensures var a := early + [x] + late;
            ReportsForward(a) && NoneOvertakes(a) && forall i, j :: 0 <= i < j < |a| ==> a[i].number != a[j].number
  {
    hide LateReport.Consistent, HasLate, LedBy;
    var a := early + [x] + late;
    forall i, j | 0 <= i < j < |a|
      ensures a[i].number != a[j].number && (a[j].kind.During? ==> a[i].number < a[j].number)
      ensures a[i].kind.During? && a[j].kind == Resumed ==> a[i].number < a[j].number
    {
      ApartInOrder(arr, early, x, late, i, j);
      SameAsLed(arr, early, x, late);
      assert a[i] in a && a[j] in a;
      NotBehind(arr, a[i], a[j]);
    }
  }

  lemma NotBehind(arr: seq<Sent>, p: Sent, q: Sent)
    requires LateReport.Consistent(arr) && !HasLate(arr) && p in arr && q in arr && p.number != q.number
    ensures p.kind.During? && q.kind == Resumed ==> p.number < q.number
  {
    assert InOrder(q, p);
  }

  lemma ReorderedIf(st: Stream, arr: seq<Sent>, a: seq<Sent>)
    requires Arrivals(st, arr) && (forall p :: p in arr <==> p in a) && 0 < |a| <= |arr| && a[0] == st.first && !HasLate(arr)
    requires NoneOvertakes(a) && forall i, j :: 0 <= i < j < |a| ==> a[i].number != a[j].number
    ensures Reordered(st, arr, a)
  {
    SameKinds(st, arr, a);
    hide FromStream, InOrder, HasLate, NoneOvertakes;
  }

  lemma ApartInOrder(arr: seq<Sent>, early: seq<Sent>, x: Sent, late: seq<Sent>, i: nat, j: nat)
    requires LateReport.Consistent(arr) && x in arr && x.kind == Resumed && LedBy(arr, early, x, late)
    requires i < j < |early| + 1 + |late|
    ensures var a := early + [x] + late; a[i].number != a[j].number && (a[j].kind.During? ==> a[i].number < a[j].number)
  {
    var a := early + [x] + late;
    if j < |early| {
      assert a[i] == early[i] && a[j] == early[j];
    } else if i > |early| {
      assert a[i] == late[i - |early| - 1] && a[j] == late[j - |early| - 1];
    } else if i < |early| {
      assert a[i] in early;
      assert a[j] == x || a[j] in late;
    } else {
      assert a[i] == x && a[j] in late;
    }
  }

  /** For every resumed packet there is an order in which the displacement that it implies is the one that is heard. */
  lemma OrderLedBy(st: Stream, span: nat, arr: seq<Sent>, x: Sent) returns (a: seq<Sent>, dl: Delivery)
    requires Arrivals(st, arr) && Roomy(st, arr, span) && st.first.stamp <= st.event
    requires HasEvent(arr) && !HasLate(arr) && x in arr && x.kind == Resumed
    ensures Reordered(st, arr, a) && Delivered(st, span, a, dl) && InPlace(st, arr, Implied(st, arr, x), End(dl))
  {
    hide Arrivals, Roomy, Delivered, FrameBuffer.HoldsFrames, FromStream, Inv, InPlace;
    var early, late := LinedBy(st, arr, x);
    LedIsReordered(st, arr, early, x, late);
    a := early + [x] + late;
    var top;
    top, dl := CanBeDelivered(st, arr, span, a);
    LedTo(st, arr, early, x, late);
    LengthsOf(st, span, a, dl);
    FramesInPlace(st, a, Implied(st, arr, x), End(dl));
    InPlaceToo(st, a, arr, Implied(st, arr, x), End(dl));
  }

  lemma LedTo(st: Stream, arr: seq<Sent>, early: seq<Sent>, x: Sent, late: seq<Sent>)
    requires HasEvent(arr) && x in arr && x.kind == Resumed && LedBy(arr, early, x, late) && early != []
    ensures Led(st, early + [x] + late) == Implied(st, arr, x)
  {
    hide Displacement, TakeOver, Ascending;
    assert !HasResumed(early) && HasEvent(early) && HasEnd(early) == HasEnd(arr);
    LedEarly(st, early);
    assert (early + [x])[..|early|] == early;
    KindsOfMore(early, x);
    LedStays(st, early + [x], late);
  }

  // ------------------------------------------------------------------ the condition

  /**
   Every order of arrival leaves the same PCM if and only if the packets bring no report of the event, or an end
   report that was sent after resumed audio, or all resumed packets among them imply the same displacement: each by
   taking over from the event clock at the event's reported end if it is stamped at or after it, and at its own stamp
   otherwise.
   */
  lemma OrderIsIrrelevantIff(st: Stream, span: nat, arr: seq<Sent>)
    requires Arrivals(st, arr) && Roomy(st, arr, span) && st.first.stamp <= st.event
    ensures OrderIsIrrelevant(st, span, arr) <==> !HasEvent(arr) || HasLate(arr) || Alike(st, arr)
  {
    hide *;
    if !HasEvent(arr) || HasLate(arr) || Alike(st, arr) {
      AlikeIsIrrelevant(st, span, arr);
    } else {
      var x, y := NotAlike(st, arr);
      OrdersDiffer(st, span, arr, x, y);
    }
  }

  lemma NotAlike(st: Stream, arr: seq<Sent>) returns (x: Sent, y: Sent)
    requires !Alike(st, arr)
    ensures x in arr && y in arr && x.kind == Resumed && y.kind == Resumed && Implied(st, arr, x) > Implied(st, arr, y)
  {
    hide Implied;
    x, y :| x in arr && y in arr && x.kind == Resumed && y.kind == Resumed && Implied(st, arr, x) != Implied(st, arr, y);
    if Implied(st, arr, x) < Implied(st, arr, y) {
      x, y := y, x;
    }
  }

  lemma AlikeIsIrrelevant(st: Stream, span: nat, arr: seq<Sent>)
    requires Arrivals(st, arr) && Roomy(st, arr, span) && st.first.stamp <= st.event
    requires !HasEvent(arr) || HasLate(arr) || Alike(st, arr)
    ensures OrderIsIrrelevant(st, span, arr)
  {
    LateReport.ArrivalsConsistent(st, arr);
    hide Arrivals, Roomy, Delivered, Reordered, InPlace, SamePcm, Alike, Settled, HasEvent, HasLate, HasResumed, LateReport.Consistent;
    forall a, dl, a', dl' | Reordered(st, arr, a) && Delivered(st, span, a, dl) && Reordered(st, arr, a') && Delivered(st, span, a', dl')
      ensures SamePcm(End(dl), End(dl'))
    {
      var d := ReorderedEndsInPlace(st, span, arr, a, dl);
      var d' := ReorderedEndsInPlace(st, span, arr, a', dl');
      SettledAlike(st, arr, d, d');
      SamePlaces(st, arr, d, End(dl), d', End(dl'));
    }
  }

  lemma AlikeToo(st: Stream, arr: seq<Sent>, arr': seq<Sent>)
    requires forall p :: p in arr <==> p in arr'
    ensures Alike(st, arr) == Alike(st, arr')
  {
    hide Implied;
    SameKinds(st, arr, arr');
  }

  lemma SettledAlike(st: Stream, arr: seq<Sent>, d: int, d': int)
    requires LateReport.Consistent(arr)
    requires Settled(st, arr, d) && Settled(st, arr, d') && (!HasEvent(arr) || HasLate(arr) || Alike(st, arr))
    ensures d == d' || !HasResumed(arr)
  {
    hide Implied, HasLate, LateReport.Consistent;
    if HasResumed(arr) && HasEvent(arr) && HasLate(arr) {
      var b := SomeEarliest(arr);
    }
  }

  lemma SomeEarliest(arr: seq<Sent>) returns (b: Sent)
    requires LateReport.Consistent(arr) && HasResumed(arr)
    ensures EarliestResumed(arr, b)
  {
    var resumed := set p | p in arr && p.kind == Resumed;
    var some :| some in arr && some.kind == Resumed;
    assert some in resumed;
    b := LeastOf(resumed);
    forall q | q in arr && q.kind == Resumed
      ensures b.number <= q.number && b.stamp <= q.stamp
    {
      assert q in resumed;
      assert InOrder(b, q);
    }
  }

  lemma ImpliedIsCandidate(st: Stream, arr: seq<Sent>, x: Sent)
    requires HasEvent(arr) && x in arr && x.kind == Resumed
    ensures HasResumed(arr) && Candidate(st, arr, Implied(st, arr, x))
  {
    hide Displacement;
  }

  /** Two resumed packets that imply different displacements: which one arrives first can be heard. */
  lemma OrdersDiffer(st: Stream, span: nat, arr: seq<Sent>, x: Sent, y: Sent)
    requires Arrivals(st, arr) && Roomy(st, arr, span) && st.first.stamp <= st.event && HasEvent(arr) && !HasLate(arr)
    requires x in arr && y in arr && x.kind == Resumed && y.kind == Resumed && Implied(st, arr, x) > Implied(st, arr, y)
    ensures !OrderIsIrrelevant(st, span, arr)
  {
    hide Arrivals, Roomy, Delivered, Reordered, InPlace, Candidate, Implied, HasEvent, HasResumed;
    var a, dl := OrderLedBy(st, span, arr, x);
    var a', dl' := OrderLedBy(st, span, arr, y);
    ImpliedIsCandidate(st, arr, x);
    ImpliedIsCandidate(st, arr, y);
    DisplacedElsewhere(st, arr, span, Implied(st, arr, x), End(dl), Implied(st, arr, y), End(dl'));
    assert !SamePcm(End(dl), End(dl'));
  }

  /** With an end report, audio stamped at or after the end resumes alike ... */
  lemma AfterTheEndAlike(st: Stream, arr: seq<Sent>)
    requires HasEnd(arr) && forall p :: p in arr && p.kind == Resumed ==> st.event + st.duration <= p.stamp
    ensures Alike(st, arr)
  {
    hide Displacement;
  }

  /** ... and an audio clock as fast as the event's does so whatever has arrived. */
  lemma SameRateAlike(st: Stream, arr: seq<Sent>)
    requires st.rate == EVENT_RATE
    ensures Alike(st, arr)
  {
    hide OffsetAt;
  }

  // ------------------------------------------------------------------ where it does matter

  /** 8 kHz PCM of one byte a sample, audio with a 16 kHz clock, an event from timestamp 160 to 260. */
  const Wideband := Stream(Format(8000, 1), 16000, Sent(1, 0, Before, [1]), 160, 100)
  const Plain := Sent(2, 160, During(false), [])
  const Ending := Sent(2, 160, During(true), [])
  const TooSoon := Sent(3, 240, Resumed, [2])
  const Later := Sent(4, 640, Resumed, [3])

  ghost predicate Hypotheses(st: Stream, arr: seq<Sent>, span: nat) {
    Arrivals(st, arr) && Roomy(st, arr, span) && st.first.stamp <= st.event && HasEvent(arr) && !HasLate(arr)
  }

  lemma WidebandPlaces()
    ensures R(Wideband, 0) == 0 && R(Wideband, 160) == 80 && R(Wideband, 240) == 120 && R(Wideband, 640) == 320
    ensures Displacement(Wideband, 240) == 40 && Displacement(Wideband, 260) == 50 && Displacement(Wideband, 640) == 240
  {
  }

  lemma WidebandArrivals(report: Sent)
    requires report in {Plain, Ending}
    ensures Arrivals(Wideband, [Wideband.first, report, TooSoon, Later])
  {
  }

  lemma WidebandIsRoomy(report: Sent)
    requires report in {Plain, Ending}
    ensures Roomy(Wideband, [Wideband.first, report, TooSoon, Later], 1000)
  {
    var st, arr := Wideband, [Wideband.first, report, TooSoon, Later];
    WidebandPlaces();
    hide R, Displacement;
    forall d | Candidate(st, arr, d)
      ensures 0 <= d <= 240
    {
    }
  }

  lemma WidebandHypotheses(report: Sent)
    requires report in {Plain, Ending}
    ensures var arr := [Wideband.first, report, TooSoon, Later];
            Hypotheses(Wideband, arr, 1000) && (HasEnd(arr) <==> report == Ending)
  {
    WidebandArrivals(report);
    WidebandIsRoomy(report);
    hide Arrivals, Roomy;
    var arr := [Wideband.first, report, TooSoon, Later];
    assert arr[1] == report && report in arr;
  }

  /**
   With a plain report but no end report the event clock runs to the first resumed packet that arrives: two
   orders can be heard apart.
   */
  lemma WithoutEndReportOrderMatters()
    ensures var arr := [Wideband.first, Plain, TooSoon, Later];
            Hypotheses(Wideband, arr, 1000) && !HasEnd(arr) && !OrderIsIrrelevant(Wideband, 1000, arr)
  {
    var st, arr := Wideband, [Wideband.first, Plain, TooSoon, Later];
    WidebandHypotheses(Plain);
    WidebandPlaces();
    assert TooSoon in arr && Later in arr;
    hide Arrivals, Roomy, OrderIsIrrelevant, Displacement;
    OrdersDiffer(st, 1000, arr, Later, TooSoon);
  }

  /** Nor is the end report enough for audio resumed before the end: only a later packet takes over there. */
  lemma ResumedTooSoonOrderMatters()
    ensures var arr := [Wideband.first, Ending, TooSoon, Later];
            Hypotheses(Wideband, arr, 1000) && HasEnd(arr) && !OrderIsIrrelevant(Wideband, 1000, arr)
  {
    var st, arr := Wideband, [Wideband.first, Ending, TooSoon, Later];
    WidebandHypotheses(Ending);
    WidebandPlaces();
    assert TooSoon in arr && Later in arr;
    hide Arrivals, Roomy, OrderIsIrrelevant, Displacement;
    OrdersDiffer(st, 1000, arr, Later, TooSoon);
  }
}
