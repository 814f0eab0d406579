/**
 Audio, one telephone-event, resumed audio, in any order of arrival after the first packet.

 The audio clock runs at `rate`, the event's at 8000 Hz.  All that an arrival order can change is the
 displacement of the resumed audio: how far its offsets are from those of an uninterrupted audio clock.  The
 invariant below says what the displacement can be, given what has arrived: once a report of the event has, it
 is the one that some resumed packet implies by taking over from the event clock.
 */
module ArrivalOrder {
  import opened Bytes
  import opened ReceiveTimeline
  import ClockEpochs
  import LateEvents

  datatype Kind = Before | During(end: bool) | Resumed

  /** A packet with its true sequence number and timestamp. */
  datatype Sent = Sent(number: int, stamp: int, kind: Kind, data: seq<byte>)

  /** The event starts at timestamp `event` and lasts `duration` ticks. */
  datatype Stream = Stream(f: Format, rate: Rate, first: Sent, event: int, duration: nat)

  predicate Audio(p: Sent) {
    !p.kind.During?
  }

  function Rank(k: Kind): int {
    match k case Before => 0 case During(_) => 1 case Resumed => 2
  }

  /** Within half a wrap of the first packet; no audio is stamped across the start of the event. */
  predicate FromStream(st: Stream, p: Sent) {
    && st.first.number <= p.number < st.first.number + 0x8000
    && st.first.stamp <= p.stamp < st.first.stamp + 0x8000_0000
    && match p.kind
       case Before => p.stamp <= st.event
       case During(_) => p.stamp == st.event
       case Resumed => st.event <= p.stamp
  }

  /**
   Sending order: audio, plain reports of the event, end reports, audio; an end report may be repeated after audio
   that was captured after the event's start.
   */
  predicate InOrder(p: Sent, q: Sent) {
    p.number < q.number ==>
      || (p.kind == Resumed && q.kind == During(true) && q.stamp < p.stamp)
      || (p.stamp <= q.stamp && Rank(p.kind) <= Rank(q.kind) && !(p.kind == During(true) && q.kind == During(false)))
  }

  predicate Late(p: Sent, q: Sent) {
    p.kind == Resumed && q.kind == During(true) && p.number < q.number
  }

  /** An end report was sent after resumed audio. */
  predicate HasLate(arr: seq<Sent>) {
    exists p, q :: p in arr && q in arr && Late(p, q)
  }

  /** The packets before the resumed audio were not all audio: at least one report was sent between. */
  predicate Gapped(arr: seq<Sent>) {
    forall p, q :: p in arr && q in arr && p.kind == Before && q.kind == Resumed ==> p.number + 1 < q.number
  }

  /** No report overtakes audio that was sent before it. */
  predicate NoneOvertakes(arr: seq<Sent>) {
    forall i, j :: 0 <= i < j < |arr| && arr[i].kind.During? && arr[j].kind == Resumed ==> arr[i].number < arr[j].number
  }

  /** Any order of arrival of any of the packets, the first one first; event packets may arrive again. */
  predicate Arrivals(st: Stream, arr: seq<Sent>) {
    && arr != [] && arr[0] == st.first && st.first.kind == Before
    && 0 <= st.first.number < 0x1_0000 && 0 <= st.first.stamp < 0x1_0000_0000
    && |arr| <= 256
    && (forall p :: p in arr ==> FromStream(st, p))
    && (forall i, j :: 0 <= i < j < |arr| && arr[i].number == arr[j].number ==> arr[i] == arr[j] && !Audio(arr[i]))
    && (forall p, q :: p in arr && q in arr ==> InOrder(p, q))
    && NoneOvertakes(arr) && (HasLate(arr) ==> Gapped(arr))
  }

  predicate HasEvent(arr: seq<Sent>) {
    exists p :: p in arr && p.kind.During?
  }

  predicate HasEnd(arr: seq<Sent>) {
    exists p :: p in arr && p.kind == During(true)
  }

  predicate HasResumed(arr: seq<Sent>) {
    exists p :: p in arr && p.kind == Resumed
  }

  /** What the timeline is told: extended timestamps for audio, as `parse_audio` passes them, wire ones for events. */
  function ReportOf(st: Stream, p: Sent): Report {
    Report(if Audio(p) then p.stamp else p.stamp % 0x1_0000_0000,
           if Audio(p) then st.rate else EVENT_RATE,
           Some(p.number % 0x1_0000), Audio(p),
           if p.kind == During(true) then Some(st.duration) else None)
  }

  // ------------------------------------------------------------------ displacement

  /** PCM offset of a timestamp on an uninterrupted audio clock, and on the event clock. */
  function R(st: Stream, stamp: int): int {
    OffsetAt(st.f, stamp, st.rate)
  }

  function V(st: Stream, stamp: int): int {
    OffsetAt(st.f, stamp, EVENT_RATE)
  }

  /** The displacement of audio that takes over from the event clock at `x`. */
  function Displacement(st: Stream, x: int): int {
    R(st, st.event) + V(st, x) - V(st, st.event) - R(st, x)
  }

  function EndStamp(st: Stream): Option<int> {
    Some(st.event + st.duration)
  }

  /** What is known of the event's end. */
  function Known(st: Stream, arr: seq<Sent>): Option<int> {
    if HasEnd(arr) then EndStamp(st) else None
  }

  /** Where audio stamped `stamp` takes over: at the event's end if that is known and has passed, else at its own stamp. */
  function TakeOver(known: Option<int>, stamp: int): int {
    if known.Some? && known.value <= stamp then known.value else stamp
  }

  /** The displacement that a resumed packet implies, by what is known of the event's end. */
  function Implied(st: Stream, arr: seq<Sent>, p: Sent): int {
    Displacement(st, TakeOver(Known(st, arr), p.stamp))
  }

  function PcmOf(st: Stream, d: int, p: Sent): int {
    R(st, p.stamp) + if p.kind == Resumed then d else 0
  }

  // ------------------------------------------------------------------ the invariant

  /** The displacements that some of the packets can lead to. */
  ghost predicate Candidate(st: Stream, arr: seq<Sent>, d: int) {
    d == 0
    || (HasEvent(arr) && exists x :: x in arr && x.kind == Resumed
                                     && (d == Displacement(st, x.stamp) || (HasEnd(arr) && d == Implied(st, arr, x))))
  }

  ghost predicate IsImplied(st: Stream, arr: seq<Sent>, d: int) {
    exists x :: x in arr && x.kind == Resumed && d == Implied(st, arr, x)
  }

  ghost predicate EarliestResumed(arr: seq<Sent>, b: Sent) {
    b in arr && b.kind == Resumed && forall q :: q in arr && q.kind == Resumed ==> b.number <= q.number && b.stamp <= q.stamp
  }

  /** Some resumed packet implies the displacement: the earliest, when an end report was sent after resumed audio. */
  ghost predicate Settled(st: Stream, arr: seq<Sent>, d: int) {
    HasResumed(arr) ==>
      if HasEvent(arr) then
        IsImplied(st, arr, d) && (HasLate(arr) ==> forall b :: EarliestResumed(arr, b) ==> d == Implied(st, arr, b))
      else d == 0
  }

  ghost predicate IsSeen(st: Stream, arr: seq<Sent>, d: int, p: Sent, o: Observation) {
    && o.number == p.number && o.stamp == p.stamp && o.audio == Audio(p)
    && if Audio(p) then o.rate == st.rate && o.offset == PcmOf(st, d, p) && o.end == None
       else o.rate == EVENT_RATE && o.end in {None, EndStamp(st)}
            && (p.kind.end ==> o.end.Some?) && (o.end.Some? ==> HasEnd(arr))
  }

  ghost predicate HistoryOk(st: Stream, arr: seq<Sent>, d: int, history: seq<Observation>) {
    |history| <= |arr| && OnlyArrived(st, arr, d, history) && AllArrived(st, arr, d, history)
  }

  /** Every observation records a packet that has arrived ... */
  ghost predicate OnlyArrived(st: Stream, arr: seq<Sent>, d: int, history: seq<Observation>) {
    forall o :: o in history ==> exists p :: p in arr && IsSeen(st, arr, d, p, o)
  }

  /** ... and every packet that has arrived is recorded. */
  ghost predicate AllArrived(st: Stream, arr: seq<Sent>, d: int, history: seq<Observation>) {
    forall p :: p in arr ==> exists o :: o in history && IsSeen(st, arr, d, p, o)
  }

  function FirstEpoch(st: Stream): Epoch {
    Epoch(st.first.number, st.first.stamp, st.rate, R(st, st.first.stamp))
  }

  ghost predicate IsEventEpoch(st: Stream, arr: seq<Sent>, e: Epoch) {
    e.rate == EVENT_RATE && e.origin == st.event && e.pcm == R(st, st.event) && StandsForEvent(arr, e.number)
  }

  /** A report's number, or the one before resumed audio that an end report was sent after. */
  ghost predicate StandsForEvent(arr: seq<Sent>, number: int) {
    || (exists p :: p in arr && p.kind.During? && p.number == number)
    || (exists p, q :: p in arr && q in arr && Late(p, q) && p.number - 1 == number)
  }

  ghost predicate IsResumedEpoch(st: Stream, arr: seq<Sent>, d: int, e: Epoch) {
    && e.rate == st.rate && e.pcm - R(st, e.origin) == d
    && exists p :: p in arr && p.kind == Resumed && p.number == e.number
  }

  ghost predicate EpochsOk(st: Stream, arr: seq<Sent>, d: int, epochs: seq<Epoch>) {
    if HasResumed(arr) then
      || (epochs == [FirstEpoch(st)] && d == 0)
      || (|epochs| == 3 && st.rate != EVENT_RATE && epochs[0] == FirstEpoch(st)
          && IsEventEpoch(st, arr, epochs[1]) && IsResumedEpoch(st, arr, d, epochs[2]))
    else if HasEvent(arr) && st.rate != EVENT_RATE then
      |epochs| == 2 && epochs[0] == FirstEpoch(st) && IsEventEpoch(st, arr, epochs[1])
    else epochs == [FirstEpoch(st)]
  }

  /** `top` is the latest packet that went forward: resumed audio, once any has arrived. */
  ghost predicate IsTop(arr: seq<Sent>, top: Sent, c: Clock) {
    && top in arr && c.number == Some(top.number) && c.stamp == Some(top.stamp)
    && (HasResumed(arr) ==> top.kind == Resumed)
    && forall p :: p in arr ==> p.number <= top.number || Late(top, p)
  }

  ghost predicate Inv(st: Stream, arr: seq<Sent>, top: Sent, d: int, c: Clock) {
    && IsTop(arr, top, c)
    && Settled(st, arr, d)
    && HistoryOk(st, arr, d, c.history)
    && EpochsOk(st, arr, d, c.epochs)
    && (!HasResumed(arr) ==> c.eventEnd == Known(st, arr))
  }

  // ------------------------------------------------------------------ small facts

  lemma Unwrapped(st: Stream, arr: seq<Sent>, top: Sent, c: Clock, p: Sent)
    requires IsTop(arr, top, c) && FromStream(st, top) && FromStream(st, p)
    ensures StampOf(c, ReportOf(st, p)) == p.stamp && SeqOf(c, ReportOf(st, p)) == p.number
  {
    ClockEpochs.UnwrapRecovers(top.stamp, p.stamp, 0x1_0000_0000);
    ClockEpochs.UnwrapRecovers(top.number, p.number, 0x1_0000);
  }

  /** A report that comes after resumed audio, or out of turn. */
  predicate Lately(top: Sent, p: Sent) {
    p.number < top.number || top.kind == Resumed
  }

  /** A packet goes forward exactly when nothing that has gone forward was sent after it, reports only before audio resumes. */
  lemma ForwardIff(st: Stream, arr: seq<Sent>, top: Sent, c: Clock, p: Sent)
    requires IsTop(arr, top, c) && InOrder(top, p) && InOrder(p, top) && (p.number == top.number ==> p == top)
    requires FromStream(st, p) && FromStream(st, top)
    ensures Audio(p) ==> (IsForward(c, p.number, p.stamp) <==> p.number >= top.number)
    ensures !Audio(p) ==> (IsForward(c, p.number, p.stamp) <==> !Lately(top, p))
  {
  }

  lemma {:induction false} OldestAtMost(history: seq<Observation>, least: int, o: Observation)
    ensures OldestSeq(history, least) <= least
    ensures o in history ==> OldestSeq(history, least) <= o.number
  {
    if history != [] {
      OldestAtMost(history[1..], Min(history[0].number, least), o);
      assert history == [history[0]] + history[1..];
    }
  }

  function Min(a: int, b: int): int {
    if a < b then a else b
  }

  /** What the timeline records of a packet. */
  function ObservedAs(st: Stream, c: Clock, p: Sent): Observation {
    var r := ReportOf(st, p);
    Observation(p.number, p.stamp, r.rate, Place(st.f, c, r).offset, r.audio, EndOf(r, p.stamp))
  }

  function Recording(history: seq<Observation>, o: Observation): (h: seq<Observation>)
    ensures forall x :: x in h <==> x in history || x == o
  {
    if o in history then history else history + [o]
  }

  /** Every packet is recorded, as the first packet is older. */
  lemma Recorded(st: Stream, arr: seq<Sent>, top: Sent, d: int, c: Clock, p: Sent)
    requires arr != [] && Arrivals(st, arr + [p]) && Inv(st, arr, top, d, c)
    ensures && c.history != []
            && Place(st.f, c, ReportOf(st, p)).clock.history == Recording(c.history, ObservedAs(st, c, p))
            && OldestSeq(c.history, c.history[0].number) <= st.first.number
  {
    hide Place, Settled, EpochsOk, FromStream, Arrivals, InOrder, OldestSeq, IsSeen, Append, OnlyArrived;
    Together(st, arr, p);
    Unwrapped(st, arr, top, c, p);
    var first :| first in c.history && IsSeen(st, arr, d, st.first, first);
    SeenNumber(st, arr, d, st.first, first);
    OldestAtMost(c.history, c.history[0].number, first);
    HistoryOfPlace(st.f, c, ReportOf(st, p));
  }

  lemma HistoryOfPlace(f: Format, c: Clock, r: Report)
    requires c.history != [] && |c.history| < 256
    requires OldestSeq(c.history, c.history[0].number) <= SeqOf(c, r)
    ensures Place(f, c, r).clock.history
            == Recording(c.history, Observation(SeqOf(c, r), StampOf(c, r), r.rate, Place(f, c, r).offset, r.audio, EndOf(r, StampOf(c, r))))
  {
    hide EpochsWith, EpochFor, Measure, SeqOf, StampOf, RepairSeq, OldestSeq;
  }

  lemma SeenNumber(st: Stream, arr: seq<Sent>, d: int, p: Sent, o: Observation)
    requires IsSeen(st, arr, d, p, o)
    ensures o.number == p.number && o.stamp == p.stamp && o.audio == Audio(p)
  {
  }

  /** What `Arrivals` says of the packets so far and the next one. */
  lemma Together(st: Stream, arr: seq<Sent>, p: Sent)
    requires Arrivals(st, arr + [p])
    requires arr != []
    ensures st.first in arr && |arr| < 256 && FromStream(st, p) && st.first.number < p.number
    ensures forall q :: q in arr ==> FromStream(st, q) && InOrder(p, q) && InOrder(q, p)
                                     && (q.number == p.number ==> q == p && !Audio(p))
    ensures p.kind == Resumed ==> NoneBehind(arr, p)
    ensures HasLate(arr + [p]) ==> Gapped(arr + [p])
    ensures Arrivals(st, arr)
  {
    var all := arr + [p];
    assert all[|arr|] == p;
    forall q | q in arr
      ensures FromStream(st, q) && InOrder(p, q) && InOrder(q, p) && (q.number == p.number ==> q == p && !Audio(p))
    {
      var i :| 0 <= i < |arr| && arr[i] == q;
      assert all[i] == q && q in all && p in all;
    }
    forall i, j | 0 <= i < j < |arr|
      ensures arr[i].number == arr[j].number ==> arr[i] == arr[j] && !Audio(arr[i])
      ensures arr[i].kind.During? && arr[j].kind == Resumed ==> arr[i].number < arr[j].number
    {
      assert all[i] == arr[i] && all[j] == arr[j];
    }
    assert all[0] == arr[0];
    assert forall q :: q in arr ==> q in all;
    if p.kind == Resumed {
      OvertakesNone(arr, p);
    }
    LateOfMore(arr, all);
  }

  /** Every report that has arrived was sent before the packet. */
  predicate NoneBehind(arr: seq<Sent>, p: Sent) {
    forall q :: q in arr && q.kind.During? ==> q.number < p.number
  }

  lemma OvertakesNone(arr: seq<Sent>, p: Sent)
    requires NoneOvertakes(arr + [p]) && p.kind == Resumed
    ensures NoneBehind(arr, p)
  {
    var all := arr + [p];
    forall q | q in arr && q.kind.During?
      ensures q.number < p.number
    {
      var i :| 0 <= i < |arr| && arr[i] == q;
      assert all[i] == q && all[|arr|] == p;
    }
  }

  lemma LateOfMore(arr: seq<Sent>, all: seq<Sent>)
    requires forall p :: p in arr ==> p in all
    ensures HasLate(arr) ==> HasLate(all)
    ensures Gapped(all) ==> Gapped(arr)
  {
  }

  // ------------------------------------------------------------------ the epochs of the invariant

  lemma EpochAtLast(epochs: seq<Epoch>, number: int)
    requires epochs != [] && Last(epochs).number <= number
    ensures EpochAt(epochs, number) == Last(epochs)
  {
  }

  lemma EpochAtOfThree(e0: Epoch, e1: Epoch, e2: Epoch, number: int)
    ensures EpochAt([e0], number) == e0
    ensures EpochAt([e0, e1], number) == if e1.number <= number then e1 else e0
    ensures EpochAt([e0, e1, e2], number) == if e2.number <= number then e2 else if e1.number <= number then e1 else e0
  {
    assert [e0, e1][..1] == [e0];
    assert [e0, e1, e2][..2] == [e0, e1];
  }

  lemma FirstAfterOfThree(e0: Epoch, e1: Epoch, e2: Epoch, number: int)
    requires e0.number <= number && e1.number <= number < e2.number
    ensures FirstAfter([e0, e1, e2], number, e2.rate) == Some(e2)
  {
    assert [e0, e1, e2][1..] == [e1, e2];
    assert [e1, e2][1..] == [e2];
    assert FirstAfter([e2], number, e2.rate) == Some(e2);
    assert FirstAfter([e1, e2], number, e2.rate) == Some(e2);
  }

  lemma {:induction false} NoneBefore(epochs: seq<Epoch>, number: int)
    requires forall e :: e in epochs ==> number <= e.number
    ensures EpochsBefore(epochs, number) == []
  {
    if epochs != [] {
      NoneBefore(epochs[1..], number);
    }
  }

  lemma OnlyFirstBefore(epochs: seq<Epoch>, number: int)
    requires epochs != [] && epochs[0].number < number
    requires forall i :: 1 <= i < |epochs| ==> number <= epochs[i].number
    ensures EpochsBefore(epochs, number) == [epochs[0]]
  {
    NoneBefore(epochs[1..], number);
  }

  lemma FromFirst(st: Stream, stamp: int)
    ensures Measure(st.f, FirstEpoch(st), stamp, st.rate) == R(st, stamp)
  {
  }

  // ------------------------------------------------------------------ audio

  /** The displacement once `p` has arrived: only the first resumed packet can set it. */
  ghost function NextDisplacement(st: Stream, arr: seq<Sent>, d: int, p: Sent): int {
    if p.kind != Resumed || HasResumed(arr) then d
    else if HasEvent(arr) then Implied(st, arr, p)
    else 0
  }

  /** An audio packet is placed where the displacement says, and the epochs stay as the invariant wants them. */
  lemma AudioPlaced(st: Stream, arr: seq<Sent>, top: Sent, d: int, c: Clock, p: Sent)
    requires arr != [] && Arrivals(st, arr + [p]) && Inv(st, arr, top, d, c) && Audio(p)
    ensures var d' := NextDisplacement(st, arr, d, p);
            && Place(st.f, c, ReportOf(st, p)).offset == PcmOf(st, d', p)
            && EpochsOk(st, arr + [p], d', EpochsWith(st.f, c, ReportOf(st, p)))
  {
    hide Arrivals, HistoryOk, Settled, EpochsOk, EpochsWith, Place, SeqOf, StampOf, IsForward, InOrder, HasEvent, HasEnd, HasResumed;
    Together(st, arr, p);
    Unwrapped(st, arr, top, c, p);
    ForwardIff(st, arr, top, c, p);
    if p.kind == Before {
      BeforePlaced(st, arr, top, d, c, p);
    } else if HasResumed(arr) {
      ResumedPlaced(st, arr, top, d, c, p);
    } else {
      FirstResumedPlaced(st, arr, top, d, c, p);
    }
  }

  lemma BeforePlaced(st: Stream, arr: seq<Sent>, top: Sent, d: int, c: Clock, p: Sent)
    requires IsTop(arr, top, c) && EpochsOk(st, arr, d, c.epochs) && p.kind == Before
    requires HasLate(arr + [p]) ==> Gapped(arr + [p])
    requires forall q :: q in arr ==> InOrder(p, q) && InOrder(q, p) && q.number != p.number
    requires st.first.number < p.number
    requires StampOf(c, ReportOf(st, p)) == p.stamp && SeqOf(c, ReportOf(st, p)) == p.number
    requires IsForward(c, p.number, p.stamp) <==> p.number > top.number
    ensures Place(st.f, c, ReportOf(st, p)).offset == R(st, p.stamp)
    ensures EpochsOk(st, arr + [p], d, EpochsWith(st.f, c, ReportOf(st, p)))
  {
    hide OffsetAt, Measure, StampOf, SeqOf;
    FromFirst(st, p.stamp);
    KindsOfMore(arr, p);
    LateOfMore(arr, arr + [p]);
    var e0 := FirstEpoch(st);
    if |c.epochs| > 1 {
      EventStandsAfter(arr, p, c.epochs[1].number);
      EventStandsStill(arr, p, c.epochs[1].number);
    }
    hide StandsForEvent, HasLate, Gapped, Late;
    if |c.epochs| == 1 {
      EpochAtOfThree(e0, e0, e0, p.number);
    } else if |c.epochs| == 2 {
      assert c.epochs == [e0, c.epochs[1]];
      EpochAtOfThree(e0, c.epochs[1], e0, p.number);
    } else {
      assert c.epochs == [e0, c.epochs[1], c.epochs[2]];
      EpochAtOfThree(e0, c.epochs[1], c.epochs[2], p.number);
    }
    assert EpochFor(c.epochs, ReportOf(st, p), p.number, p.number > top.number) == e0;
  }

  /** What stands for the event comes after the audio before it. */
  lemma EventStandsAfter(arr: seq<Sent>, p: Sent, number: int)
    requires StandsForEvent(arr, number) && p.kind == Before && (HasLate(arr + [p]) ==> Gapped(arr + [p]))
    requires forall q :: q in arr ==> InOrder(p, q) && InOrder(q, p) && q.number != p.number
    ensures p.number < number
  {
    KindsOfMore(arr, p);
    LateOfMore(arr, arr + [p]);
    if x, y :| x in arr && y in arr && Late(x, y) && x.number - 1 == number {
      assert HasLate(arr) && x in arr + [p];
    }
  }

  /** ... and before the audio that arrives later. */
  lemma EventStandsBefore(arr: seq<Sent>, p: Sent, number: int)
    requires StandsForEvent(arr, number) && NoneBehind(arr, p)
    ensures number <= p.number
  {
  }

  lemma EventStandsStill(arr: seq<Sent>, p: Sent, number: int)
    requires StandsForEvent(arr, number)
    ensures StandsForEvent(arr + [p], number)
  {
    KindsOfMore(arr, p);
  }

  lemma KindsOfMore(arr: seq<Sent>, p: Sent)
    ensures HasEvent(arr + [p]) <==> HasEvent(arr) || p.kind.During?
    ensures HasEnd(arr + [p]) <==> HasEnd(arr) || p.kind == During(true)
    ensures HasResumed(arr + [p]) <==> HasResumed(arr) || p.kind == Resumed
    ensures p in arr + [p] && forall q :: q in arr ==> q in arr + [p]
  {
    assert p in arr + [p];
  }

  lemma ResumedPlaced(st: Stream, arr: seq<Sent>, top: Sent, d: int, c: Clock, p: Sent)
    requires IsTop(arr, top, c) && EpochsOk(st, arr, d, c.epochs) && p.kind == Resumed && HasResumed(arr) && NoneBehind(arr, p)
    requires forall q :: q in arr ==> InOrder(p, q) && InOrder(q, p) && q.number != p.number
    requires st.first.number < p.number
    requires StampOf(c, ReportOf(st, p)) == p.stamp && SeqOf(c, ReportOf(st, p)) == p.number
    requires IsForward(c, p.number, p.stamp) <==> p.number > top.number
    ensures Place(st.f, c, ReportOf(st, p)).offset == d + R(st, p.stamp)
    ensures EpochsOk(st, arr + [p], d, EpochsWith(st.f, c, ReportOf(st, p)))
  {
    hide OffsetAt, StampOf, SeqOf;
    FromFirst(st, p.stamp);
    KindsOfMore(arr, p);
    var e0 := FirstEpoch(st);
    if |c.epochs| == 1 {
      EpochAtOfThree(e0, e0, e0, p.number);
    } else {
      var e1, e2 := c.epochs[1], c.epochs[2];
      assert c.epochs == [e0, e1, e2];
      EventStandsBefore(arr, p, e1.number);
      EventStandsStill(arr, p, e1.number);
      hide StandsForEvent, NoneBehind;
      EpochAtOfThree(e0, e1, e2, p.number);
      if e2.number > p.number {
        FirstAfterOfThree(e0, e1, e2, p.number);
      }
      assert EpochFor(c.epochs, ReportOf(st, p), p.number, p.number > top.number) == e2;
    }
  }

  lemma FirstAfterEvent(st: Stream, arr: seq<Sent>, top: Sent, d: int, c: Clock, p: Sent)
    requires IsTop(arr, top, c) && EpochsOk(st, arr, d, c.epochs) && p.kind == Resumed && !HasResumed(arr) && NoneBehind(arr, p)
    requires c.eventEnd == Known(st, arr)
    requires forall q :: q in arr ==> InOrder(p, q) && InOrder(q, p) && q.number != p.number
    requires st.first.number < p.number && st.event <= p.stamp
    requires StampOf(c, ReportOf(st, p)) == p.stamp && SeqOf(c, ReportOf(st, p)) == p.number
    requires IsForward(c, p.number, p.stamp) <==> p.number > top.number
    requires HasEvent(arr) && st.rate != EVENT_RATE
    ensures var d' := NextDisplacement(st, arr, d, p);
            && Place(st.f, c, ReportOf(st, p)).offset == d' + R(st, p.stamp)
            && EpochsOk(st, arr + [p], d', EpochsWith(st.f, c, ReportOf(st, p)))
  {
    hide OffsetAt, StampOf, SeqOf;
    assert p.number > top.number;
    FromFirst(st, p.stamp);
    KindsOfMore(arr, p);
    var e0, r := FirstEpoch(st), ReportOf(st, p);
    assert c.epochs == [e0, c.epochs[1]];
    EventStandsStill(arr, p, c.epochs[1].number);
    hide StandsForEvent;
    var e2 := NextEpoch(st.f, c.epochs[1], c.eventEnd, p.number, p.stamp, st.rate, true);
    assert EpochsWith(st.f, c, r) == [e0, c.epochs[1], e2];
    EpochAtLast([e0, c.epochs[1], e2], p.number);
  }

  lemma FirstWithoutEvent(st: Stream, arr: seq<Sent>, top: Sent, d: int, c: Clock, p: Sent)
    requires IsTop(arr, top, c) && EpochsOk(st, arr, d, c.epochs) && p.kind == Resumed && !HasResumed(arr) && NoneBehind(arr, p)
    requires c.eventEnd == Known(st, arr)
    requires forall q :: q in arr ==> InOrder(p, q) && InOrder(q, p) && q.number != p.number
    requires st.first.number < p.number && st.event <= p.stamp
    requires StampOf(c, ReportOf(st, p)) == p.stamp && SeqOf(c, ReportOf(st, p)) == p.number
    requires IsForward(c, p.number, p.stamp) <==> p.number > top.number
    requires !HasEvent(arr) || st.rate == EVENT_RATE
    ensures var d' := NextDisplacement(st, arr, d, p);
            && Place(st.f, c, ReportOf(st, p)).offset == d' + R(st, p.stamp)
            && EpochsOk(st, arr + [p], d', EpochsWith(st.f, c, ReportOf(st, p)))
  {
    hide OffsetAt, StampOf, SeqOf;
    assert p.number > top.number;
    FromFirst(st, p.stamp);
    KindsOfMore(arr, p);
    var e0 := FirstEpoch(st);
    EpochAtOfThree(e0, e0, e0, p.number);
  }

  lemma FirstResumedPlaced(st: Stream, arr: seq<Sent>, top: Sent, d: int, c: Clock, p: Sent)
    requires IsTop(arr, top, c) && EpochsOk(st, arr, d, c.epochs) && p.kind == Resumed && !HasResumed(arr) && NoneBehind(arr, p)
    requires c.eventEnd == Known(st, arr)
    requires forall q :: q in arr ==> InOrder(p, q) && InOrder(q, p) && q.number != p.number
    requires st.first.number < p.number && st.event <= p.stamp
    requires StampOf(c, ReportOf(st, p)) == p.stamp && SeqOf(c, ReportOf(st, p)) == p.number
    requires IsForward(c, p.number, p.stamp) <==> p.number > top.number
    ensures var d' := NextDisplacement(st, arr, d, p);
            && Place(st.f, c, ReportOf(st, p)).offset == d' + R(st, p.stamp)
            && EpochsOk(st, arr + [p], d', EpochsWith(st.f, c, ReportOf(st, p)))
  {
    hide *;
    if HasEvent(arr) && st.rate != EVENT_RATE {
      FirstAfterEvent(st, arr, top, d, c, p);
    } else {
      FirstWithoutEvent(st, arr, top, d, c, p);
    }
  }

  ghost function NextTop(top: Sent, p: Sent): Sent {
    if p.number > top.number && !(p.kind.During? && top.kind == Resumed) then p else top
  }

  lemma SettledNext(st: Stream, arr: seq<Sent>, d: int, p: Sent)
    requires Settled(st, arr, d) && Audio(p) && (p.kind == Resumed ==> NoneBehind(arr, p))
    ensures Settled(st, arr + [p], NextDisplacement(st, arr, d, p))
  {
    hide Displacement, TakeOver;
    KindsOfMore(arr, p);
    if HasResumed(arr) && HasEvent(arr) {
      var x :| x in arr && x.kind == Resumed && d == Implied(st, arr, x);
      assert x in arr + [p];
    }
    if HasLate(arr + [p]) {
      LateAlready(arr, p);
      forall b | EarliestResumed(arr + [p], b)
        ensures EarliestResumed(arr, b)
      {
        EarliestAlready(arr, p, b);
      }
    }
  }

  /** Audio that arrives after a late end report was sent after it. */
  lemma LateAlready(arr: seq<Sent>, p: Sent)
    requires HasLate(arr + [p]) && Audio(p) && (p.kind == Resumed ==> NoneBehind(arr, p))
    ensures HasLate(arr)
  {
    var x, y :| x in arr + [p] && y in arr + [p] && Late(x, y);
    assert y in arr && x in arr;
  }

  lemma EarliestAlready(arr: seq<Sent>, p: Sent, b: Sent)
    requires HasLate(arr) && Audio(p) && (p.kind == Resumed ==> NoneBehind(arr, p)) && EarliestResumed(arr + [p], b)
    ensures EarliestResumed(arr, b)
  {
    var x, y :| x in arr && y in arr && Late(x, y);
    KindsOfMore(arr, p);
  }

  /** Observations stay as described when a packet arrives, if resumed ones keep their displacement. */
  lemma SeenStays(st: Stream, arr: seq<Sent>, d: int, d': int, p: Sent, q: Sent, o: Observation)
    requires IsSeen(st, arr, d, q, o) && q in arr && (d' == d || !HasResumed(arr))
    ensures IsSeen(st, arr + [p], d', q, o)
  {
    KindsOfMore(arr, p);
  }

  lemma HistoryNext(st: Stream, arr: seq<Sent>, d: int, d': int, p: Sent, history: seq<Observation>, o: Observation)
    requires HistoryOk(st, arr, d, history) && (d' == d || !HasResumed(arr))
    requires IsSeen(st, arr + [p], d', p, o)
    ensures HistoryOk(st, arr + [p], d', Recording(history, o))
  {
    OnlyArrivedNext(st, arr, d, d', p, history, o);
    AllArrivedNext(st, arr, d, d', p, history, o);
  }

  lemma OnlyArrivedNext(st: Stream, arr: seq<Sent>, d: int, d': int, p: Sent, history: seq<Observation>, o: Observation)
    requires OnlyArrived(st, arr, d, history) && (d' == d || !HasResumed(arr))
    requires IsSeen(st, arr + [p], d', p, o)
    ensures OnlyArrived(st, arr + [p], d', Recording(history, o))
  {
    hide IsSeen, HasResumed, Recording;
    var arr' := arr + [p];
    assert p in arr';
    forall h | h in Recording(history, o)
      ensures exists q :: q in arr' && IsSeen(st, arr', d', q, h)
    {
      if h != o {
        var q :| q in arr && IsSeen(st, arr, d, q, h);
        SeenStays(st, arr, d, d', p, q, h);
        assert q in arr';
      }
    }
  }

  lemma AllArrivedNext(st: Stream, arr: seq<Sent>, d: int, d': int, p: Sent, history: seq<Observation>, o: Observation)
    requires AllArrived(st, arr, d, history) && (d' == d || !HasResumed(arr))
    requires IsSeen(st, arr + [p], d', p, o)
    ensures AllArrived(st, arr + [p], d', Recording(history, o))
  {
    hide IsSeen, HasResumed, Recording;
    var arr', history' := arr + [p], Recording(history, o);
    assert o in history';
    forall q | q in arr'
      ensures exists h :: h in history' && IsSeen(st, arr', d', q, h)
    {
      if q in arr {
        var h :| h in history && IsSeen(st, arr, d, q, h);
        SeenStays(st, arr, d, d', p, q, h);
        assert h in history';
      }
    }
  }

  lemma TopNext(arr: seq<Sent>, top: Sent, c: Clock, p: Sent, c': Clock)
    requires IsTop(arr, top, c) && (p.kind == Resumed ==> NoneBehind(arr, p))
    requires InOrder(p, top) && InOrder(top, p) && (p.number == top.number ==> p == top)
    requires if NextTop(top, p) == p then c'.number == Some(p.number) && c'.stamp == Some(p.stamp)
             else c'.number == c.number && c'.stamp == c.stamp
    ensures IsTop(arr + [p], NextTop(top, p), c')
  {
    KindsOfMore(arr, p);
  }

  /** An audio packet keeps the invariant. */
  lemma AudioStep(st: Stream, arr: seq<Sent>, top: Sent, d: int, c: Clock, p: Sent)
    requires arr != [] && Arrivals(st, arr + [p]) && Inv(st, arr, top, d, c) && Audio(p)
    ensures var d', placed := NextDisplacement(st, arr, d, p), Place(st.f, c, ReportOf(st, p));
            && placed.repair == None && placed.offset == PcmOf(st, d', p)
            && Inv(st, arr + [p], NextTop(top, p), d', placed.clock)
  {
    hide Arrivals, EpochsOk, Settled, HistoryOk, EpochsWith, EpochFor, Measure, SeqOf, StampOf, FromStream, Append, OldestSeq, PcmOf, IsTop;
    Together(st, arr, p);
    TopFacts(arr, top, c);
    Unwrapped(st, arr, top, c, p);
    ForwardIff(st, arr, top, c, p);
    Recorded(st, arr, top, d, c, p);
    AudioPlaced(st, arr, top, d, c, p);
    SettledNext(st, arr, d, p);
    var d', placed := NextDisplacement(st, arr, d, p), Place(st.f, c, ReportOf(st, p));
    HistoryNext(st, arr, d, d', p, c.history, ObservedAs(st, c, p));
    TopNext(arr, top, c, p, placed.clock);
    EventEndOfAudio(st, arr, top, c, p);
  }

  lemma TopFacts(arr: seq<Sent>, top: Sent, c: Clock)
    requires IsTop(arr, top, c)
    ensures top in arr && forall q :: q in arr ==> q.number <= top.number || Late(top, q)
    ensures top.kind == Resumed <==> HasResumed(arr)
    ensures c.number == Some(top.number) && c.stamp == Some(top.stamp)
  {
  }

  lemma EventEndOfAudio(st: Stream, arr: seq<Sent>, top: Sent, c: Clock, p: Sent)
    requires IsTop(arr, top, c) && Audio(p)
    requires forall q :: q in arr ==> InOrder(p, q) && InOrder(q, p) && q.number != p.number
    requires !HasResumed(arr) ==> c.eventEnd == Known(st, arr)
    ensures !HasResumed(arr + [p]) ==> (if p.number > top.number then None else c.eventEnd) == Known(st, arr + [p])
  {
    KindsOfMore(arr, p);
  }

  // ------------------------------------------------------------------ a report that goes forward

  lemma EventForward(st: Stream, arr: seq<Sent>, top: Sent, d: int, c: Clock, p: Sent)
    requires arr != [] && Arrivals(st, arr + [p]) && Inv(st, arr, top, d, c) && p.kind.During? && !Lately(top, p)
    ensures var placed := Place(st.f, c, ReportOf(st, p));
            placed.repair == None && Inv(st, arr + [p], p, d, placed.clock)
  {
    hide Arrivals, EpochsOk, Settled, HistoryOk, EpochsWith, EpochFor, Measure, SeqOf, StampOf, FromStream, Append, OldestSeq, PcmOf, IsTop, IsSeen;
    Together(st, arr, p);
    TopFacts(arr, top, c);
    Unwrapped(st, arr, top, c, p);
    ForwardIff(st, arr, top, c, p);
    Recorded(st, arr, top, d, c, p);
    NoResumedYet(st, arr, top, d, c, p);
    var placed := Place(st.f, c, ReportOf(st, p));
    EventSeen(st, arr + [p], d, p, ObservedAs(st, c, p));
    HistoryNext(st, arr, d, d, p, c.history, ObservedAs(st, c, p));
    TopNext(arr, top, c, p, placed.clock);
    EventEpochs(st, arr, top, d, c, p);
  }

  lemma EventSeen(st: Stream, arr: seq<Sent>, d: int, p: Sent, o: Observation)
    requires p in arr && p.kind.During? && p.stamp == st.event
    requires o.number == p.number && o.stamp == p.stamp && o.rate == EVENT_RATE && !o.audio
    requires o.end == if p.kind.end then EndStamp(st) else None
    ensures IsSeen(st, arr, d, p, o)
  {
  }

  /** Nothing resumed has arrived before a report that goes forward; an end report has not if it is a plain one. */
  lemma NoResumedYet(st: Stream, arr: seq<Sent>, top: Sent, d: int, c: Clock, p: Sent)
    requires Inv(st, arr, top, d, c) && p.kind.During? && FromStream(st, p) && !Lately(top, p)
    requires forall q :: q in arr ==> InOrder(q, p) && (q.number == p.number ==> q == p)
    ensures !HasResumed(arr) && !HasResumed(arr + [p]) && Settled(st, arr + [p], d) && p.stamp == st.event
    ensures p.kind == During(false) ==> !HasEnd(arr) && !HasEnd(arr + [p])
    ensures HasEvent(arr + [p]) && (p.kind.end ==> HasEnd(arr + [p]))
    ensures c.eventEnd == Known(st, arr)
  {
    hide HistoryOk, EpochsOk, IsImplied, IsTop, EndStamp;
    KindsOfMore(arr, p);
    NothingAfter(arr, top, c, p);
  }

  lemma NothingAfter(arr: seq<Sent>, top: Sent, c: Clock, p: Sent)
    requires IsTop(arr, top, c) && p.kind.During? && !Lately(top, p)
    requires forall q :: q in arr ==> InOrder(q, p) && (q.number == p.number ==> q == p)
    ensures !HasResumed(arr) && (p.kind == During(false) ==> !HasEnd(arr))
  {
  }

  lemma EventEpochs(st: Stream, arr: seq<Sent>, top: Sent, d: int, c: Clock, p: Sent)
    requires EpochsOk(st, arr, d, c.epochs) && !HasResumed(arr) && p.kind.During? && p.stamp == st.event
    requires StampOf(c, ReportOf(st, p)) == p.stamp && SeqOf(c, ReportOf(st, p)) == p.number && IsForward(c, p.number, p.stamp)
    ensures EpochsOk(st, arr + [p], d, EpochsWith(st.f, c, ReportOf(st, p)))
  {
    hide OffsetAt, StampOf, SeqOf;
    KindsOfMore(arr, p);
    FromFirst(st, p.stamp);
    if st.rate != EVENT_RATE && !HasEvent(arr) {
      var e := NextEpoch(st.f, FirstEpoch(st), c.eventEnd, p.number, p.stamp, EVENT_RATE, false);
      assert EpochsWith(st.f, c, ReportOf(st, p)) == [FirstEpoch(st), e];
      assert p in arr + [p];
    } else if |c.epochs| == 2 {
      EventStandsStill(arr, p, c.epochs[1].number);
    }
  }
}
