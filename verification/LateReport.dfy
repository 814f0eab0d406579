/** An event report that arrives after packets sent later: what its repair does to the invariant of ArrivalOrder. */
module LateReport {
  import opened Bytes
  import opened ReceiveTimeline
  import opened ArrivalOrder
  import LateEvents
  import J = JitterBuffer

  // ------------------------------------------------------------------ sorting

  ghost predicate Ordered(seen: seq<Observation>) {
    forall i, j :: 0 <= i < j < |seen| ==> Earlier(seen[i], seen[j])
  }

  lemma {:induction false} InsertKeepsOrder(x: Observation, seen: seq<Observation>)
    requires Ordered(seen)
    ensures Ordered(Insert(x, seen))
  {
    if !(seen == [] || Earlier(x, seen[0])) {
      InsertKeepsOrder(x, seen[1..]);
      var rest := Insert(x, seen[1..]);
      forall o | o in rest
        ensures Earlier(seen[0], o)
      {
        LateEvents.InsertHas(x, seen[1..], o);
      }
    }
  }

  lemma {:induction false} SortedIsOrdered(seen: seq<Observation>)
    ensures Ordered(Sorted(seen))
  {
    if seen != [] {
      SortedIsOrdered(seen[1..]);
      InsertKeepsOrder(seen[0], Sorted(seen[1..]));
    }
  }

  // ------------------------------------------------------------------ where the repair starts

  lemma {:induction false} RepairSeqAtMost(history: seq<Observation>, stamp: int, least: int, o: Observation)
    ensures RepairSeq(history, stamp, least) <= least
    ensures o in history && !o.audio && o.stamp == stamp ==> RepairSeq(history, stamp, least) <= o.number
    ensures o in history && o.audio && o.stamp > stamp ==> RepairSeq(history, stamp, least) <= o.number - 1
  {
    if history != [] {
      var h := history[0];
      RepairSeqAtMost(history[1..], stamp,
                      if !h.audio && h.stamp == stamp then J.Min(h.number, least)
                      else if h.audio && h.stamp > stamp then J.Min(h.number - 1, least)
                      else least, o);
      assert history == [h] + history[1..];
    }
  }

  ghost predicate Speaks(o: Observation, stamp: int, number: int) {
    (!o.audio && o.stamp == stamp && o.number == number) || (o.audio && o.stamp > stamp && o.number - 1 == number)
  }

  lemma {:induction false} RepairSeqIsSpoken(history: seq<Observation>, stamp: int, least: int)
    ensures var n := RepairSeq(history, stamp, least);
            n == least || exists o :: o in history && Speaks(o, stamp, n)
  {
    if history != [] {
      var h := history[0];
      RepairSeqIsSpoken(history[1..], stamp,
                        if !h.audio && h.stamp == stamp then J.Min(h.number, least)
                        else if h.audio && h.stamp > stamp then J.Min(h.number - 1, least)
                        else least);
      assert h in history && forall o :: o in history[1..] ==> o in history;
    }
  }

  /**
   Where a late event report makes the map be replayed from, stated by what has been observed: no later than the
   report itself, the recorded reports of its event, and the place just before any recorded audio captured after the
   event began; and at one of these.
   */
  lemma RepairSeqIsLeast(history: seq<Observation>, stamp: int, least: int)
    ensures var n := RepairSeq(history, stamp, least);
            && n <= least
            && (forall o :: o in history && !o.audio && o.stamp == stamp ==> n <= o.number)
            && (forall o :: o in history && o.audio && o.stamp > stamp ==> n <= o.number - 1)
            && (n == least || exists o :: o in history && Speaks(o, stamp, n))
  {
    hide RepairSeq;
    RepairSeqIsSpoken(history, stamp, least);
    forall o
      ensures RepairSeq(history, stamp, least) <= least
      ensures o in history && !o.audio && o.stamp == stamp ==> RepairSeq(history, stamp, least) <= o.number
      ensures o in history && o.audio && o.stamp > stamp ==> RepairSeq(history, stamp, least) <= o.number - 1
    {
      RepairSeqAtMost(history, stamp, least, o);
    }
  }

  /**
   The repair starts at the earliest report of the event that has arrived, or just before the resumed audio when an
   end report was sent after it: past all audio sent before the event, and before all resumed audio.
   */
  ghost predicate RepairPoint(arr: seq<Sent>, number: int) {
    && StandsForEvent(arr, number)
    && (forall q :: q in arr && q.kind == Before ==> q.number < number)
    && (forall q :: q in arr && q.kind.During? ==> number <= q.number)
    && (forall q :: q in arr && q.kind == Resumed ==> number < q.number)
  }

  /** The packet an observation records, and the observation that records a packet. */
  lemma PacketOf(st: Stream, arr: seq<Sent>, d: int, history: seq<Observation>, o: Observation) returns (p: Sent)
    requires OnlyArrived(st, arr, d, history) && o in history
    ensures p in arr && IsSeen(st, arr, d, p, o) && o.number == p.number && o.stamp == p.stamp && o.audio == Audio(p)
  {
    p :| p in arr && IsSeen(st, arr, d, p, o);
  }

  lemma ObservationOf(st: Stream, arr: seq<Sent>, d: int, history: seq<Observation>, p: Sent) returns (o: Observation)
    requires AllArrived(st, arr, d, history) && p in arr
    ensures o in history && IsSeen(st, arr, d, p, o) && o.number == p.number && o.stamp == p.stamp && o.audio == Audio(p)
  {
    o :| o in history && IsSeen(st, arr, d, p, o);
  }

  lemma RepairStartsAtEvent(st: Stream, arr: seq<Sent>, d: int, history: seq<Observation>, p: Sent)
    requires HistoryOk(st, arr, d, history) && p.kind.During? && FromStream(st, p)
    requires Consistent(arr + [p]) && (forall q :: q in arr ==> FromStream(st, q)) && (HasLate(arr + [p]) ==> Gapped(arr + [p]))
    ensures RepairPoint(arr + [p], RepairSeq(history, p.stamp, p.number))
  {
    hide OnlyArrived, AllArrived, IsSeen, RepairSeq, Gapped, HasLate, StandsForEvent;
    var n, all := RepairSeq(history, p.stamp, p.number), arr + [p];
    KindsOfMore(arr, p);
    RepairSeqIsLeast(history, p.stamp, p.number);
    RepairPointStands(st, arr, d, history, p, n);
    forall q | q in all && !(q.kind == Before)
      ensures if q.kind == Resumed then n < q.number else n <= q.number
    {
      if q in arr {
        var o := ObservationOf(st, arr, d, history, q);
        assert InOrder(q, p);
      }
    }
    forall q | q in all && q.kind == Before
      ensures q.number < n
    {
      StandsAfter(all, q, n);
    }
  }

  lemma RepairPointStands(st: Stream, arr: seq<Sent>, d: int, history: seq<Observation>, p: Sent, n: int)
    requires OnlyArrived(st, arr, d, history) && p.kind.During? && FromStream(st, p) && n <= p.number
    requires Consistent(arr + [p]) && forall q :: q in arr ==> FromStream(st, q)
    requires n == p.number || exists o :: o in history && Speaks(o, p.stamp, n)
    ensures StandsForEvent(arr + [p], n)
  {
    hide OnlyArrived, IsSeen;
    KindsOfMore(arr, p);
    if n != p.number {
      var o :| o in history && Speaks(o, p.stamp, n);
      var q := PacketOf(st, arr, d, history, o);
      assert q in arr + [p] && FromStream(st, q) && InOrder(q, p);
      if o.audio {
        assert q.number != p.number && Late(q, p);
      }
    }
  }

  lemma StandsAfter(arr: seq<Sent>, q: Sent, n: int)
    requires StandsForEvent(arr, n) && Consistent(arr) && (HasLate(arr) ==> Gapped(arr)) && q in arr && q.kind == Before
    ensures q.number < n
  {
    if x, y :| x in arr && y in arr && Late(x, y) && x.number - 1 == n {
      assert HasLate(arr);
    } else {
      var e :| e in arr && e.kind.During? && e.number == n;
      assert InOrder(e, q);
    }
  }

  // ------------------------------------------------------------------ what is replayed

  ghost predicate IsListed(st: Stream, arr: seq<Sent>, d: int, o: Observation) {
    exists q :: q in arr && q.kind != Before && IsSeen(st, arr, d, q, o)
  }

  ghost predicate AllListed(st: Stream, arr: seq<Sent>, d: int, seen: seq<Observation>) {
    forall q :: q in arr && q.kind != Before ==> exists o :: o in seen && IsSeen(st, arr, d, q, o)
  }

  /** The reports and the resumed audio that have arrived. */
  ghost predicate Listed(st: Stream, arr: seq<Sent>, d: int, seen: seq<Observation>) {
    && (forall o :: o in seen ==> IsListed(st, arr, d, o))
    && AllListed(st, arr, d, seen)
  }

  /** In sending order, audio only before reports of an event that it was captured after the start of. */
  ghost predicate InTurn(st: Stream, seen: seq<Observation>) {
    && Ordered(seen)
    && forall i, j :: 0 <= i < j < |seen| && seen[i].audio && !seen[j].audio ==> seen[i].stamp > st.event
  }

  /** What is replayed: a report at the repair point, then the reports and resumed audio that have arrived. */
  ghost predicate Headed(st: Stream, arr: seq<Sent>, d: int, number: int, seen: seq<Observation>) {
    && seen != [] && IsReport(st, seen[0]) && seen[0].number == number
    && (forall i :: 0 < i < |seen| ==> IsListed(st, arr, d, seen[i]))
    && AllListed(st, arr, d, seen)
    && InTurn(st, seen)
  }

  lemma ListedPacket(st: Stream, arr: seq<Sent>, d: int, o: Observation) returns (p: Sent)
    requires IsListed(st, arr, d, o)
    ensures p in arr && p.kind != Before && IsSeen(st, arr, d, p, o)
    ensures o.number == p.number && o.stamp == p.stamp && o.audio == Audio(p)
  {
    p :| p in arr && p.kind != Before && IsSeen(st, arr, d, p, o);
  }

  /** What is replayed: the recorded observations from `number` on. */
  lemma ReplayedHas(history: seq<Observation>, number: int, o: Observation)
    ensures o in Sorted(SeenFrom(history, number)) <==> o in history && o.number >= number
  {
    LateEvents.SortedHas(SeenFrom(history, number), o);
    LateEvents.SeenFromHas(history, number, o);
  }

  ghost predicate Consistent(arr: seq<Sent>) {
    forall p, q :: p in arr && q in arr ==> InOrder(p, q) && (p.number == q.number ==> p == q)
  }

  lemma ReplayIsHeaded(st: Stream, arr: seq<Sent>, d: int, history: seq<Observation>, number: int)
    requires HistoryOk(st, arr, d, history) && RepairPoint(arr, number) && Consistent(arr) && forall q :: q in arr ==> FromStream(st, q)
    ensures Headed(st, arr, d, number, ToReplay(history, number, st.event))
    ensures KnownEnd(Sorted(SeenFrom(history, number)), st.event) == Known(st, arr)
  {
    hide Sorted, SeenFrom, KnownEnd, HistoryOk, RepairPoint, Consistent, FromStream, Listed, InTurn, Headed;
    var seen := Sorted(SeenFrom(history, number));
    ReplayedAreListed(st, arr, d, history, number);
    KnownEndOfListed(st, arr, d, seen);
    SortedIsOrdered(SeenFrom(history, number));
    SeenInTurn(st, arr, d, seen);
    NoneEarlier(history, number);
    if exists o :: o in seen && StartsEvent(o, number, st.event) {
      HeadedByReport(st, arr, d, number, seen);
    } else {
      HeadedAnew(st, arr, d, number, seen);
    }
  }

  lemma NoneEarlier(history: seq<Observation>, number: int)
    ensures forall o :: o in Sorted(SeenFrom(history, number)) ==> o.number >= number
  {
    hide Sorted, SeenFrom;
    forall o | o in Sorted(SeenFrom(history, number))
      ensures o.number >= number
    {
      ReplayedHas(history, number, o);
    }
  }

  /** What is listed at the repair point itself is a report. */
  lemma ReportAtPoint(st: Stream, arr: seq<Sent>, d: int, number: int, o: Observation)
    requires IsListed(st, arr, d, o) && RepairPoint(arr, number) && o.number == number && forall q :: q in arr ==> FromStream(st, q)
    ensures IsReport(st, o)
  {
    hide StandsForEvent;
    KindOfListed(st, arr, d, o);
    var q := ListedPacket(st, arr, d, o);
  }

  lemma HeadedByReport(st: Stream, arr: seq<Sent>, d: int, number: int, seen: seq<Observation>)
    requires Listed(st, arr, d, seen) && InTurn(st, seen) && RepairPoint(arr, number) && forall q :: q in arr ==> FromStream(st, q)
    requires (exists o :: o in seen && o.number == number) && forall o :: o in seen ==> o.number >= number
    ensures Headed(st, arr, d, number, seen)
  {
    hide IsListed, AllListed, RepairPoint, FromStream, IsReport;
    var o :| o in seen && o.number == number;
    var i :| 0 <= i < |seen| && seen[i] == o;
    assert seen[0] in seen && (i > 0 ==> Earlier(seen[0], seen[i]));
    ReportAtPoint(st, arr, d, number, seen[0]);
  }

  lemma HeadedAnew(st: Stream, arr: seq<Sent>, d: int, number: int, seen: seq<Observation>)
    requires Listed(st, arr, d, seen) && InTurn(st, seen) && RepairPoint(arr, number) && forall q :: q in arr ==> FromStream(st, q)
    requires (forall o :: o in seen ==> o.number >= number) && !exists o :: o in seen && StartsEvent(o, number, st.event)
    ensures Headed(st, arr, d, number, [Observation(number, st.event, EVENT_RATE, 0, false, KnownEnd(seen, st.event))] + seen)
  {
    hide IsListed, RepairPoint, FromStream, KnownEnd;
    var head := Observation(number, st.event, EVENT_RATE, 0, false, KnownEnd(seen, st.event));
    forall o | o in seen
      ensures Earlier(head, o)
    {
      if o.number == number {
        ReportAtPoint(st, arr, d, number, o);
        assert false;
      }
    }
    AllListedOfMore(st, arr, d, seen, [head] + seen);
  }

  lemma AllListedOfMore(st: Stream, arr: seq<Sent>, d: int, seen: seq<Observation>, more: seq<Observation>)
    requires AllListed(st, arr, d, seen) && forall o :: o in seen ==> o in more
    ensures AllListed(st, arr, d, more)
  {
    hide IsSeen;
  }

  lemma ReplayedAreListed(st: Stream, arr: seq<Sent>, d: int, history: seq<Observation>, number: int)
    requires HistoryOk(st, arr, d, history) && RepairPoint(arr, number)
    ensures Listed(st, arr, d, Sorted(SeenFrom(history, number)))
  {
    hide Sorted, SeenFrom, OnlyArrived, AllArrived, IsSeen, StandsForEvent;
    var seen := Sorted(SeenFrom(history, number));
    forall o | o in seen
      ensures IsListed(st, arr, d, o)
    {
      ReplayedHas(history, number, o);
      var q := PacketOf(st, arr, d, history, o);
    }
    forall q | q in arr && q.kind != Before
      ensures exists o :: o in seen && IsSeen(st, arr, d, q, o)
    {
      var o := ObservationOf(st, arr, d, history, q);
      ReplayedHas(history, number, o);
    }
  }

  lemma EventStamp(st: Stream, e: Sent)
    requires FromStream(st, e) && e.kind.During?
    ensures e.stamp == st.event
  {
  }

  lemma SeenInTurn(st: Stream, arr: seq<Sent>, d: int, seen: seq<Observation>)
    requires Ordered(seen) && Consistent(arr) && Listed(st, arr, d, seen) && forall q :: q in arr ==> FromStream(st, q)
    ensures InTurn(st, seen)
  {
    hide IsListed, IsSeen, AllListed;
    forall i, j | 0 <= i < j < |seen| && seen[i].audio && !seen[j].audio
      ensures seen[i].stamp > st.event
    {
      var p := ListedPacket(st, arr, d, seen[i]);
      var q := ListedPacket(st, arr, d, seen[j]);
      assert Earlier(seen[i], seen[j]);
      assert InOrder(p, q) && FromStream(st, q);
    }
  }

  // ------------------------------------------------------------------ the known end

  lemma {:induction false} KnownEndIs(seen: seq<Observation>, stamp: int, end: int)
    requires forall o :: o in seen && !o.audio && o.stamp == stamp && o.end.Some? ==> o.end.value == end
    ensures KnownEnd(seen, stamp) == None || KnownEnd(seen, stamp) == Some(end)
    ensures KnownEnd(seen, stamp) == None ==> forall o :: o in seen && !o.audio && o.stamp == stamp ==> o.end == None
    ensures KnownEnd(seen, stamp).Some? ==> exists o :: o in seen && !o.audio && o.stamp == stamp && o.end.Some?
  {
    if seen != [] {
      KnownEndIs(seen[..|seen| - 1], stamp, end);
      assert seen == seen[..|seen| - 1] + [seen[|seen| - 1]];
    }
  }

  lemma EndOfSeen(st: Stream, arr: seq<Sent>, d: int, p: Sent, o: Observation)
    requires IsSeen(st, arr, d, p, o) && !o.audio
    ensures o.end.Some? ==> o.end == EndStamp(st) && HasEnd(arr)
    ensures p.kind == During(true) ==> o.end.Some?
    ensures o.rate == EVENT_RATE
  {
  }

  lemma KnownEndOfListed(st: Stream, arr: seq<Sent>, d: int, seen: seq<Observation>)
    requires Listed(st, arr, d, seen) && forall q :: q in arr ==> FromStream(st, q)
    ensures KnownEnd(seen, st.event) == Known(st, arr)
  {
    hide IsSeen, IsListed, FromStream;
    forall o | o in seen && !o.audio
      ensures o.end.Some? ==> o.end == EndStamp(st) && HasEnd(arr)
    {
      var q := ListedPacket(st, arr, d, o);
      EndOfSeen(st, arr, d, q, o);
    }
    KnownEndIs(seen, st.event, st.event + st.duration);
    if HasEnd(arr) {
      var e :| e in arr && e.kind == During(true);
      var o :| o in seen && IsSeen(st, arr, d, e, o);
      SeenNumber(st, arr, d, e, o);
      EndOfSeen(st, arr, d, e, o);
      EventStamp(st, e);
    }
  }

  // ------------------------------------------------------------------ the replay

  function EventEpoch(st: Stream, number: int): Epoch {
    Epoch(number, st.event, EVENT_RATE, R(st, st.event))
  }

  function ResumedEpoch(st: Stream, number: int, x: int): Epoch {
    Epoch(number, x, st.rate, R(st, st.event) + V(st, x) - V(st, st.event))
  }

  function ReplayStart(st: Stream): Replay {
    Replay([FirstEpoch(st)], st.first.stamp, None, None, [])
  }

  /** The replay once it has seen reports only, the first one numbered `number`. */
  predicate AfterReports(st: Stream, known: Option<int>, number: int, q: Replay) {
    && q.shift == None && q.latest == st.event && q.eventEnd == known
    && q.epochs == if st.rate == EVENT_RATE then [FirstEpoch(st)] else [FirstEpoch(st), EventEpoch(st, number)]
  }

  /** The replay once it has seen resumed audio, first `b`: one correction, from displacement `d` to the one the event implies. */
  predicate AfterAudio(st: Stream, known: Option<int>, d: int, number: int, b: Observation, q: Replay) {
    var x := TakeOver(known, b.stamp);
    && q.shift == Some((b.offset, Displacement(st, x) - d)) && q.eventEnd == None && b.stamp <= q.latest && st.event <= q.latest
    && q.epochs == if st.rate == EVENT_RATE then [FirstEpoch(st)]
                   else [FirstEpoch(st), EventEpoch(st, number), ResumedEpoch(st, b.number, x)]
  }

  predicate IsReport(st: Stream, o: Observation) {
    !o.audio && o.stamp == st.event && o.rate == EVENT_RATE
  }

  predicate IsResumed(st: Stream, d: int, o: Observation) {
    o.audio && o.rate == st.rate && o.offset == d + R(st, o.stamp) && st.event <= o.stamp && o.end == None
  }

  lemma ReportReplayed(st: Stream, ends: int -> Option<int>, known: Option<int>, q: Replay, o: Observation, number: int)
    requires ends(st.event) == known && (known == None || known == EndStamp(st))
    requires || (q.epochs == [FirstEpoch(st)] && q.latest == st.first.stamp <= st.event && q.eventEnd == None && q.shift == None && o.number == number)
             || AfterReports(st, known, number, q)
    requires IsReport(st, o)
    ensures ReplayOne(st.f, ends, q, o).Some? && AfterReports(st, known, number, ReplayOne(st.f, ends, q, o).value)
  {
    hide OffsetAt;
  }

  lemma FirstAudioReplayed(st: Stream, ends: int -> Option<int>, known: Option<int>, d: int, q: Replay, o: Observation, number: int)
    requires (known == None || known == EndStamp(st)) && AfterReports(st, known, number, q) && IsResumed(st, d, o)
    ensures ReplayOne(st.f, ends, q, o).Some? && AfterAudio(st, known, d, number, o, ReplayOne(st.f, ends, q, o).value)
  {
    hide OffsetAt;
  }

  lemma AudioReplayed(st: Stream, ends: int -> Option<int>, known: Option<int>, d: int, q: Replay, o: Observation, number: int, b: Observation)
    requires AfterAudio(st, known, d, number, b, q) && IsResumed(st, d, o)
    ensures ReplayOne(st.f, ends, q, o).Some? && AfterAudio(st, known, d, number, b, ReplayOne(st.f, ends, q, o).value)
  {
    hide OffsetAt;
  }

  /** A report repeated after resumed audio does not switch the clock back. */
  lemma RepeatReplayed(st: Stream, ends: int -> Option<int>, known: Option<int>, d: int, q: Replay, o: Observation, number: int, b: Observation)
    requires AfterAudio(st, known, d, number, b, q) && IsReport(st, o) && st.event < b.stamp
    ensures ReplayOne(st.f, ends, q, o).Some? && AfterAudio(st, known, d, number, b, ReplayOne(st.f, ends, q, o).value)
  {
    hide OffsetAt;
  }

  ghost predicate NoAudio(seen: seq<Observation>) {
    forall o :: o in seen ==> !o.audio
  }

  /** A replay that starts with reports, audio resuming after them. */
  ghost predicate ReplayedOk(st: Stream, known: Option<int>, d: int, number: int, seen: seq<Observation>, q: Replay) {
    if seen == [] then q == ReplayStart(st)
    else if NoAudio(seen) then AfterReports(st, known, number, q)
    else exists k :: LateEvents.FirstAudio(seen, k) && AfterAudio(st, known, d, number, seen[k], q)
  }

  lemma ReplayedNext(st: Stream, ends: int -> Option<int>, known: Option<int>, d: int, number: int, before: seq<Observation>, q: Replay, o: Observation)
    requires ends(st.event) == known && (known == None || known == EndStamp(st)) && st.first.stamp <= st.event
    requires q.epochs != [] && ReplayedOk(st, known, d, number, before, q)
    requires if o.audio then before != [] && IsResumed(st, d, o) else IsReport(st, o)
    requires before == [] ==> o.number == number
    requires !o.audio ==> forall h :: h in before && h.audio ==> st.event < h.stamp
    ensures ReplayOne(st.f, ends, q, o).Some? && ReplayedOk(st, known, d, number, before + [o], ReplayOne(st.f, ends, q, o).value)
  {
    hide AfterReports, AfterAudio, ReplayOne, IsReport, IsResumed;
    var seen := before + [o];
    assert o in seen;
    if !NoAudio(before) {
      var k :| LateEvents.FirstAudio(before, k) && AfterAudio(st, known, d, number, before[k], q);
      assert LateEvents.FirstAudio(seen, k) && seen[k] in seen && before[k] in before;
      if o.audio {
        AudioReplayed(st, ends, known, d, q, o, number, before[k]);
      } else {
        RepeatReplayed(st, ends, known, d, q, o, number, before[k]);
      }
    } else if !o.audio {
      StartIsStart(st);
      ReportReplayed(st, ends, known, q, o, number);
    } else {
      FirstAudioReplayed(st, ends, known, d, q, o, number);
      assert LateEvents.FirstAudio(seen, |seen| - 1) by { assert forall i :: 0 <= i < |before| ==> before[i] in before; }
    }
  }

  lemma ReplayNext(f: Format, ends: int -> Option<int>, p: Replay, before: seq<Observation>, o: Observation)
    requires p.epochs != [] && ReplayAll(f, ends, p, before).Some?
    ensures ReplayAll(f, ends, p, before + [o]) == ReplayOne(f, ends, ReplayAll(f, ends, p, before).value, o)
  {
    hide ReplayOne;
    assert (before + [o])[..|before|] == before;
  }

  /** Reports and resumed audio in turn, starting with a report numbered `number`. */
  ghost predicate Replayable(st: Stream, d: int, number: int, seen: seq<Observation>) {
    && (seen != [] ==> !seen[0].audio && seen[0].number == number)
    && (forall o :: o in seen ==> if o.audio then IsResumed(st, d, o) else IsReport(st, o))
    && InTurn(st, seen)
  }

  lemma ReplayableBefore(st: Stream, d: int, number: int, seen: seq<Observation>)
    requires Replayable(st, d, number, seen) && seen != []
    ensures var before, o := seen[..|seen| - 1], seen[|seen| - 1];
            && Replayable(st, d, number, before)
            && (if o.audio then before != [] && IsResumed(st, d, o) else IsReport(st, o))
            && (before == [] ==> o.number == number)
            && (!o.audio ==> forall h :: h in before && h.audio ==> st.event < h.stamp)
  {
    hide Earlier, IsReport, IsResumed;
    var before, o := seen[..|seen| - 1], seen[|seen| - 1];
    assert o in seen && forall h :: h in before ==> h in seen;
  }

  lemma {:induction false} Replayed(st: Stream, ends: int -> Option<int>, known: Option<int>, d: int, number: int, seen: seq<Observation>)
    requires ends(st.event) == known && (known == None || known == EndStamp(st)) && st.first.stamp <= st.event
    requires Replayable(st, d, number, seen)
    ensures var q := ReplayAll(st.f, ends, ReplayStart(st), seen);
            q.Some? && ReplayedOk(st, known, d, number, seen, q.value)
  {
    if seen != [] {
      hide *;
      var before, o := seen[..|seen| - 1], seen[|seen| - 1];
      StartIsStart(st);
      ReplayableBefore(st, d, number, seen);
      Replayed(st, ends, known, d, number, before);
      assert seen == before + [o];
      ReplayNext(st.f, ends, ReplayStart(st), before, o);
      ReplayedNext(st, ends, known, d, number, before, ReplayAll(st.f, ends, ReplayStart(st), before).value, o);
    }
  }

  lemma StartIsStart(st: Stream)
    ensures var q := ReplayStart(st);
            q.epochs == [FirstEpoch(st)] && q.latest == st.first.stamp && q.eventEnd == None && q.shift == None
  {
  }

  // ------------------------------------------------------------------ the plan of the repair

  lemma KindOfListed(st: Stream, arr: seq<Sent>, d: int, o: Observation)
    requires IsListed(st, arr, d, o) && forall q :: q in arr ==> FromStream(st, q)
    ensures if o.audio then IsResumed(st, d, o) else IsReport(st, o)
  {
    var q := ListedPacket(st, arr, d, o);
  }

  lemma FirstAudioIsEarliest(st: Stream, arr: seq<Sent>, d: int, number: int, seen: seq<Observation>, k: int) returns (b: Sent)
    requires Headed(st, arr, d, number, seen) && Consistent(arr) && LateEvents.FirstAudio(seen, k)
    ensures EarliestResumed(arr, b) && seen[k].number == b.number && seen[k].stamp == b.stamp && IsListed(st, arr, d, seen[k])
  {
    hide IsSeen, IsListed, AllListed;
    b := ListedPacket(st, arr, d, seen[k]);
    forall q | q in arr && q.kind == Resumed
      ensures b.number <= q.number && b.stamp <= q.stamp
    {
      var j := ListedObservation(st, arr, d, seen, q);
      assert k < j ==> Earlier(seen[k], seen[j]);
      assert InOrder(b, q);
    }
  }

  lemma ListedObservation(st: Stream, arr: seq<Sent>, d: int, seen: seq<Observation>, q: Sent) returns (j: nat)
    requires AllListed(st, arr, d, seen) && q in arr && q.kind != Before
    ensures j < |seen| && seen[j].number == q.number && seen[j].stamp == q.stamp && seen[j].audio == Audio(q)
  {
    hide IsSeen;
    var o :| o in seen && IsSeen(st, arr, d, q, o);
    SeenNumber(st, arr, d, q, o);
    j :| 0 <= j < |seen| && seen[j] == o;
  }

  ghost predicate PlanIs(st: Stream, arr: seq<Sent>, d: int, number: int, b: Sent, plan: Plan) {
    && plan.boundary == d + R(st, b.stamp) && plan.correction == Implied(st, arr, b) - d
    && exists o: Observation :: o.number == b.number && o.stamp == b.stamp && AfterAudio(st, Known(st, arr), d, number, o, plan.replay)
  }

  /** Before any audio has resumed there is nothing to repair; then the plan is to displace it as the event implies. */
  lemma PlanOfLate(st: Stream, arr: seq<Sent>, d: int, c: Clock, number: int) returns (b: Sent)
    requires HistoryOk(st, arr, d, c.history) && RepairPoint(arr, number) && Consistent(arr)
    requires EpochsBefore(c.epochs, number) == [FirstEpoch(st)] && st.first.stamp <= st.event
    requires forall q :: q in arr ==> FromStream(st, q)
    ensures !HasResumed(arr) ==> PlanRepair(st.f, c, number, st.event) == None
    ensures HasResumed(arr) ==>
              && EarliestResumed(arr, b)
              && if Implied(st, arr, b) == d then PlanRepair(st.f, c, number, st.event) == None
                 else PlanRepair(st.f, c, number, st.event).Some? && PlanIs(st, arr, d, number, b, PlanRepair(st.f, c, number, st.event).value)
  {
    hide Sorted, SeenFrom, HistoryOk, RepairPoint, Consistent, FromStream, ReplayAll, EpochsBefore, KnownEnd, ToReplay, AfterAudio, Headed, IsReport, IsResumed, InTurn, ReplayedOk, Replayable;
    var seen := ToReplay(c.history, number, st.event);
    var ends := KnownEnds(Sorted(SeenFrom(c.history, number)));
    ReplayIsHeaded(st, arr, d, c.history, number);
    HeadedKinds(st, arr, d, number, seen);
    Replayed(st, ends, Known(st, arr), d, number, seen);
    b := PlanOfReplay(st, arr, d, number, seen, ReplayAll(st.f, ends, ReplayStart(st), seen).value);
  }

  lemma HeadedKinds(st: Stream, arr: seq<Sent>, d: int, number: int, seen: seq<Observation>)
    requires Headed(st, arr, d, number, seen) && forall q :: q in arr ==> FromStream(st, q)
    ensures Replayable(st, d, number, seen)
  {
    hide IsListed, FromStream, AllListed, InTurn, IsResumed;
    forall i | 0 <= i < |seen|
      ensures if seen[i].audio then IsResumed(st, d, seen[i]) else IsReport(st, seen[i])
    {
      if i > 0 {
        KindOfListed(st, arr, d, seen[i]);
      }
    }
  }

  lemma PlanOfReplay(st: Stream, arr: seq<Sent>, d: int, number: int, seen: seq<Observation>, q: Replay) returns (b: Sent)
    requires Headed(st, arr, d, number, seen) && Consistent(arr) && forall p :: p in arr ==> FromStream(st, p)
    requires ReplayedOk(st, Known(st, arr), d, number, seen, q)
    ensures !HasResumed(arr) ==> q.shift == None
    ensures HasResumed(arr) ==> EarliestResumed(arr, b) && q.shift == Some((d + R(st, b.stamp), Implied(st, arr, b) - d))
                                && PlanIs(st, arr, d, number, b, Plan(d + R(st, b.stamp), Implied(st, arr, b) - d, q))
  {
    hide IsSeen, IsListed, AllListed, Consistent, FromStream, InTurn, R, V;
    b := st.first;
    if !NoAudio(seen) {
      var k :| LateEvents.FirstAudio(seen, k) && AfterAudio(st, Known(st, arr), d, number, seen[k], q);
      b := FirstAudioIsEarliest(st, arr, d, number, seen, k);
      KindOfListed(st, arr, d, seen[k]);
    } else if HasResumed(arr) {
      var p :| p in arr && p.kind == Resumed;
      var j := ListedObservation(st, arr, d, seen, p);
      assert false;
    }
  }

  // ------------------------------------------------------------------ the invariant after a late report

  /** Reports add no displacement and no epoch by themselves. */
  lemma EpochsStay(st: Stream, arr: seq<Sent>, d: int, p: Sent, epochs: seq<Epoch>)
    requires EpochsOk(st, arr, d, epochs) && p.kind.During? && (HasResumed(arr) || HasEvent(arr))
    ensures EpochsOk(st, arr + [p], d, epochs)
    ensures epochs != [] && epochs[0] == FirstEpoch(st)
  {
    KindsOfMore(arr, p);
  }

  /** Every epoch but the first starts at the repair point or after it. */
  lemma OnlyFirstEpochBefore(st: Stream, arr: seq<Sent>, d: int, epochs: seq<Epoch>, number: int)
    requires EpochsOk(st, arr, d, epochs) && RepairPoint(arr, number) && st.first.number < number
    ensures EpochsBefore(epochs, number) == [FirstEpoch(st)]
  {
    OnlyFirstBefore(epochs, number);
  }

  /** The timeline once a late report is recorded, before any repair. */
  lemma LateRecorded(st: Stream, arr: seq<Sent>, top: Sent, d: int, c: Clock, p: Sent)
    requires arr != [] && Arrivals(st, arr + [p]) && Inv(st, arr, top, d, c) && p.kind.During? && Lately(top, p)
    ensures var placed := Place(st.f, c, ReportOf(st, p));
            var all := arr + [p];
            && IsTop(all, top, placed.clock)
            && HistoryOk(st, all, d, placed.clock.history)
            && placed.clock.epochs == c.epochs && EpochsOk(st, all, d, c.epochs)
            && placed.clock.eventEnd == c.eventEnd
            && placed.stamp == st.event
            && placed.repair == Some(RepairSeq(c.history, p.stamp, p.number))
            && RepairPoint(all, RepairSeq(c.history, p.stamp, p.number))
            && st.first.number < RepairSeq(c.history, p.stamp, p.number)
  {
    hide Arrivals, EpochsOk, Settled, HistoryOk, EpochsWith, EpochFor, Measure, SeqOf, StampOf, FromStream, Append, OldestSeq, PcmOf, IsTop, IsSeen, RepairSeq, Consistent, RepairPoint, HasLate, Gapped, NoneBehind;
    FirstIsBefore(st, arr, p);
    Together(st, arr, p);
    TopFacts(arr, top, c);
    Unwrapped(st, arr, top, c, p);
    ForwardIff(st, arr, top, c, p);
    Recorded(st, arr, top, d, c, p);
    EventStamp(st, p);
    var r, o := ReportOf(st, p), ObservedAs(st, c, p);
    var placed := Place(st.f, c, r);
    KindsOfMore(arr, p);
    EventSeen(st, arr + [p], d, p, o);
    HistoryNext(st, arr, d, d, p, c.history, o);
    TopNext(arr, top, c, p, placed.clock);
    LateMeansMore(arr, top, p);
    EpochsStay(st, arr, d, p, c.epochs);
    ArrivalsConsistent(st, arr + [p]);
    assert EpochsWith(st.f, c, r) == c.epochs by { EpochsUnmoved(st.f, c, r); }
    RepairStartsAtEvent(st, arr, d, c.history, p);
    FirstBeforePoint(st, arr + [p], RepairSeq(c.history, p.stamp, p.number));
  }

  lemma FirstBeforePoint(st: Stream, arr: seq<Sent>, number: int)
    requires RepairPoint(arr, number) && st.first in arr && st.first.kind == Before
    ensures st.first.number < number
  {
  }

  lemma FirstIsBefore(st: Stream, arr: seq<Sent>, p: Sent)
    requires Arrivals(st, arr + [p])
    ensures st.first.kind == Before
  {
  }

  lemma EpochsUnmoved(f: Format, c: Clock, r: Report)
    requires c.epochs != [] && !IsForward(c, SeqOf(c, r), StampOf(c, r))
    ensures EpochsWith(f, c, r) == c.epochs
  {
  }

  lemma LateMeansMore(arr: seq<Sent>, top: Sent, p: Sent)
    requires top in arr && InOrder(p, top) && p.kind.During? && Lately(top, p)
    ensures HasResumed(arr) || HasEvent(arr)
    ensures !HasResumed(arr) ==> (p.kind == During(true) ==> HasEnd(arr))
  {
  }

  lemma ArrivalsConsistent(st: Stream, arr: seq<Sent>)
    requires Arrivals(st, arr)
    ensures Consistent(arr)
  {
    forall p, q | p in arr && q in arr
      ensures p.number == q.number ==> p == q
    {
      var i :| 0 <= i < |arr| && arr[i] == p;
      var j :| 0 <= j < |arr| && arr[j] == q;
      assert i < j && arr[i].number == arr[j].number ==> p == q;
      assert j < i && arr[j].number == arr[i].number ==> p == q;
    }
  }

  /** When nothing is repaired the invariant holds as it is: the displacement is already the implied one. */
  lemma LateUnrepaired(st: Stream, arr: seq<Sent>, top: Sent, d: int, c: Clock, p: Sent, c': Clock, b: Sent)
    requires Inv(st, arr, top, d, c) && p.kind.During? && Lately(top, p) && InOrder(p, top)
    requires IsTop(arr + [p], top, c') && HistoryOk(st, arr + [p], d, c'.history) && EpochsOk(st, arr + [p], d, c'.epochs)
    requires c'.eventEnd == c.eventEnd
    requires HasResumed(arr + [p]) ==> EarliestResumed(arr + [p], b) && Implied(st, arr + [p], b) == d
    ensures Inv(st, arr + [p], top, d, c')
  {
    hide HistoryOk, EpochsOk, Displacement;
    KindsOfMore(arr, p);
    LateMeansMore(arr, top, p);
    if HasResumed(arr + [p]) {
      ImpliedSettles(st, arr + [p], b);
    }
  }

  lemma ImpliedSettles(st: Stream, arr: seq<Sent>, b: Sent)
    requires EarliestResumed(arr, b) && HasEvent(arr)
    ensures Settled(st, arr, Implied(st, arr, b))
  {
    hide Displacement;
    forall x | EarliestResumed(arr, x)
      ensures Implied(st, arr, x) == Implied(st, arr, b)
    {
      assert x.stamp == b.stamp;
    }
  }

  // ------------------------------------------------------------------ the invariant after a repair

  lemma SeenIsUnique(st: Stream, arr: seq<Sent>, d: int, history: seq<Observation>)
    requires OnlyArrived(st, arr, d, history) && Consistent(arr)
    ensures LateEvents.UniqueAudio(history)
  {
    hide OnlyArrived;
    forall a, b | a in history && b in history && a.audio && SameKey(a, b)
      ensures a == b
    {
      var p := PacketOf(st, arr, d, history, a);
      var q := PacketOf(st, arr, d, history, b);
      assert p == q;
    }
  }

  /** One observation moved by a repair is as the new displacement wants it. */
  lemma MovedIsSeen(st: Stream, arr: seq<Sent>, d: int, d': int, number: int, known: int -> Option<int>, p: Sent, o: Observation, o': Observation)
    requires IsSeen(st, arr, d, p, o) && LateEvents.MovedBy(known, o, o', number, d' - d)
    requires known(st.event) == Known(st, arr) && p in arr && FromStream(st, p)
    requires p.kind == Before ==> p.number < number
    requires p.kind == Resumed ==> p.number >= number
    ensures IsSeen(st, arr, d', p, o')
  {
  }

  lemma SidesOfPoint(arr: seq<Sent>, number: int, p: Sent)
    requires RepairPoint(arr, number) && p in arr
    ensures p.kind == Before ==> p.number < number
    ensures p.kind == Resumed ==> p.number >= number
  {
  }

  lemma HistoryMoved(st: Stream, arr: seq<Sent>, d: int, d': int, number: int, known: int -> Option<int>,
                     history: seq<Observation>, history': seq<Observation>)
    requires HistoryOk(st, arr, d, history) && |history| == |history'|
    requires forall i :: 0 <= i < |history| ==> LateEvents.MovedBy(known, history[i], history'[i], number, d' - d)
    requires known(st.event) == Known(st, arr)
    requires RepairPoint(arr, number) && forall p :: p in arr ==> FromStream(st, p)
    ensures HistoryOk(st, arr, d', history')
  {
    hide OnlyArrived, AllArrived, IsSeen, LateEvents.MovedBy, RepairPoint, FromStream;
    assert OnlyArrived(st, arr, d', history') by {
      OnlyArrivedMoved(st, arr, d, d', number, known, history, history');
    }
    assert AllArrived(st, arr, d', history') by {
      AllArrivedMoved(st, arr, d, d', number, known, history, history');
    }
  }

  lemma OnlyArrivedMoved(st: Stream, arr: seq<Sent>, d: int, d': int, number: int, known: int -> Option<int>,
                         history: seq<Observation>, history': seq<Observation>)
    requires OnlyArrived(st, arr, d, history) && |history| == |history'|
    requires forall i :: 0 <= i < |history| ==> LateEvents.MovedBy(known, history[i], history'[i], number, d' - d)
    requires known(st.event) == Known(st, arr)
    requires RepairPoint(arr, number) && forall p :: p in arr ==> FromStream(st, p)
    ensures OnlyArrived(st, arr, d', history')
  {
    hide OnlyArrived, IsSeen, LateEvents.MovedBy, RepairPoint, FromStream;
    forall o | o in history'
      ensures exists p :: p in arr && IsSeen(st, arr, d', p, o)
    {
      var i :| 0 <= i < |history'| && history'[i] == o;
      assert history[i] in history;
      var p := PacketOf(st, arr, d, history, history[i]);
      SidesOfPoint(arr, number, p);
      MovedIsSeen(st, arr, d, d', number, known, p, history[i], o);
    }
    OnlyArrivedIs(st, arr, d', history');
  }

  lemma OnlyArrivedIs(st: Stream, arr: seq<Sent>, d: int, history: seq<Observation>)
    requires forall o :: o in history ==> exists p :: p in arr && IsSeen(st, arr, d, p, o)
    ensures OnlyArrived(st, arr, d, history)
  {
  }

  lemma AllArrivedIs(st: Stream, arr: seq<Sent>, d: int, history: seq<Observation>)
    requires forall p :: p in arr ==> exists o :: o in history && IsSeen(st, arr, d, p, o)
    ensures AllArrived(st, arr, d, history)
  {
  }

  lemma AllArrivedMoved(st: Stream, arr: seq<Sent>, d: int, d': int, number: int, known: int -> Option<int>,
                        history: seq<Observation>, history': seq<Observation>)
    requires AllArrived(st, arr, d, history) && |history| == |history'|
    requires forall i :: 0 <= i < |history| ==> LateEvents.MovedBy(known, history[i], history'[i], number, d' - d)
    requires known(st.event) == Known(st, arr)
    requires RepairPoint(arr, number) && forall p :: p in arr ==> FromStream(st, p)
    ensures AllArrived(st, arr, d', history')
  {
    hide AllArrived, IsSeen, LateEvents.MovedBy, RepairPoint, FromStream;
    forall p | p in arr
      ensures exists o :: o in history' && IsSeen(st, arr, d', p, o)
    {
      var o := ObservationOf(st, arr, d, history, p);
      var i :| 0 <= i < |history| && history[i] == o;
      SidesOfPoint(arr, number, p);
      MovedIsSeen(st, arr, d, d', number, known, p, o, history'[i]);
      assert history'[i] in history';
    }
    AllArrivedIs(st, arr, d', history');
  }

  lemma EpochsRepaired(st: Stream, arr: seq<Sent>, d: int, number: int, b: Sent, plan: Plan)
    requires EarliestResumed(arr, b) && RepairPoint(arr, number) && PlanIs(st, arr, d, number, b, plan)
    ensures EpochsOk(st, arr, Implied(st, arr, b), LastKept(plan.replay.epochs))
  {
    hide StandsForEvent;
    var o: Observation :| o.number == b.number && o.stamp == b.stamp && AfterAudio(st, Known(st, arr), d, number, o, plan.replay);
    assert HasResumed(arr);
  }

  /** A repair gives the resumed audio the displacement that the event implies. */
  lemma LateRepaired(st: Stream, arr: seq<Sent>, top: Sent, d: int, c: Clock, number: int, b: Sent, plan: Plan)
    requires IsTop(arr, top, c) && HistoryOk(st, arr, d, c.history) && |c.history| <= 256
    requires RepairPoint(arr, number) && Consistent(arr) && forall p :: p in arr ==> FromStream(st, p)
    requires HasResumed(arr) && EarliestResumed(arr, b) && PlanIs(st, arr, d, number, b, plan)
    requires PlanRepair(st.f, c, number, st.event) == Some(plan)
    ensures Inv(st, arr, top, Implied(st, arr, b), Repaired(c, plan))
  {
    hide *;
    var d', c' := Implied(st, arr, b), Repaired(c, plan);
    var known := KnownEnds(Sorted(SeenFrom(c.history, number)));
    ReportOfEvent(arr, number);
    HistoryIs(st, arr, d, c.history);
    ReplayedAreListed(st, arr, d, c.history, number);
    KnownEndOfListed(st, arr, d, Sorted(SeenFrom(c.history, number)));
    SeenIsUnique(st, arr, d, c.history);
    LateEvents.PlannedRepairMoves(st.f, c, number, st.event);
    CorrectionOf(st, arr, d, number, b, plan);
    KnownOf(Sorted(SeenFrom(c.history, number)), st.event);
    HistoryMoved(st, arr, d, d', number, known, c.history, c'.history);
    EpochsRepaired(st, arr, d, number, b, plan);
    ImpliedSettles(st, arr, b);
    RepairedInv(st, arr, top, d', c, plan);
  }

  lemma HistoryIs(st: Stream, arr: seq<Sent>, d: int, history: seq<Observation>)
    requires HistoryOk(st, arr, d, history)
    ensures OnlyArrived(st, arr, d, history) && AllArrived(st, arr, d, history)
  {
  }

  lemma KnownOf(seen: seq<Observation>, stamp: int)
    ensures KnownEnds(seen)(stamp) == KnownEnd(seen, stamp)
  {
  }

  lemma RepairedInv(st: Stream, arr: seq<Sent>, top: Sent, d: int, c: Clock, plan: Plan)
    requires IsTop(arr, top, c) && HasResumed(arr)
    requires Settled(st, arr, d) && HistoryOk(st, arr, d, Repaired(c, plan).history) && EpochsOk(st, arr, d, LastKept(plan.replay.epochs))
    ensures Inv(st, arr, top, d, Repaired(c, plan))
  {
    hide Settled, HistoryOk, EpochsOk, LastKept, UpdatedAll;
  }

  lemma ReportOfEvent(arr: seq<Sent>, number: int)
    requires RepairPoint(arr, number)
    ensures HasEvent(arr)
  {
  }

  lemma CorrectionOf(st: Stream, arr: seq<Sent>, d: int, number: int, b: Sent, plan: Plan)
    requires PlanIs(st, arr, d, number, b, plan)
    ensures plan.correction == Implied(st, arr, b) - d && plan.boundary == d + R(st, b.stamp)
  {
  }
}
