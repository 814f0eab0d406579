/**
 A late event report repairs the timeline all at once or not at all: every recorded audio observation from
 the repair point on moves by one common amount, and the unread PCM moves with it.
 */
module LateEvents {
  import opened Bytes
  import opened JitterBuffer
  import opened ReceiveTimeline

  // ------------------------------------------------------------------ sorting and filtering keep the observations

  lemma {:induction false} InsertHas(x: Observation, sorted: seq<Observation>, o: Observation)
    ensures o in Insert(x, sorted) <==> o == x || o in sorted
  {
    if !(sorted == [] || Earlier(x, sorted[0])) {
      InsertHas(x, sorted[1..], o);
      assert sorted == [sorted[0]] + sorted[1..];
    }
  }

  lemma {:induction false} SortedHas(seen: seq<Observation>, o: Observation)
    ensures o in Sorted(seen) <==> o in seen
  {
    if seen != [] {
      SortedHas(seen[1..], o);
      InsertHas(seen[0], Sorted(seen[1..]), o);
      assert seen == [seen[0]] + seen[1..];
    }
  }

  lemma {:induction false} SeenFromHas(history: seq<Observation>, number: int, o: Observation)
    ensures o in SeenFrom(history, number) <==> o in history && o.number >= number
  {
    if history != [] {
      SeenFromHas(history[1..], number, o);
      assert history == [history[0]] + history[1..];
    }
  }

  /** What is replayed: the observations from `number` on, and at most one report that was never seen. */
  lemma ToReplayHas(history: seq<Observation>, number: int, stamp: int, o: Observation)
    ensures o in history && o.number >= number ==> o in ToReplay(history, number, stamp)
    ensures o in ToReplay(history, number, stamp) ==> o.number >= number && (o in history || !o.audio)
  {
    var seen := Sorted(SeenFrom(history, number));
    SortedHas(SeenFrom(history, number), o);
    SeenFromHas(history, number, o);
  }

  // ------------------------------------------------------------------ one common correction

  /** One update per replayed observation, and the audio among them all moved by the same amount. */
  ghost predicate MovedTogether(known: int -> Option<int>, seen: seq<Observation>, p: Replay) {
    && |p.updates| == |seen|
    && forall i :: 0 <= i < |seen| ==>
                     && SameKey(p.updates[i], seen[i])
                     && (!seen[i].audio ==> p.updates[i].end == known(seen[i].stamp))
                     && (seen[i].audio ==> p.shift.Some? && p.updates[i] == seen[i].(offset := seen[i].offset + p.shift.value.1))
  }

  lemma {:induction false} ReplayMovesTogether(f: Format, known: int -> Option<int>, p: Replay, seen: seq<Observation>)
    requires p.epochs != [] && p.updates == [] && p.shift == None
    requires ReplayAll(f, known, p, seen).Some?
    ensures MovedTogether(known, seen, ReplayAll(f, known, p, seen).value)
  {
    if seen != [] {
      var before := seen[..|seen| - 1];
      ReplayMovesTogether(f, known, p, before);
      ReplayOneMoves(f, known, ReplayAll(f, known, p, before).value, before, seen[|seen| - 1]);
      assert seen == before + [seen[|seen| - 1]];
    }
  }

  lemma ReplayOneMoves(f: Format, known: int -> Option<int>, p: Replay, before: seq<Observation>, o: Observation)
    requires p.epochs != [] && MovedTogether(known, before, p) && ReplayOne(f, known, p, o).Some?
    ensures MovedTogether(known, before + [o], ReplayOne(f, known, p, o).value)
  {
    hide Measure, NextEpoch;
  }

  // ------------------------------------------------------------------ the recorded history

  /** No two different audio observations share sequence number, timestamp and rate. */
  ghost predicate UniqueAudio(history: seq<Observation>) {
    forall a, b :: a in history && b in history && a.audio && SameKey(a, b) ==> a == b
  }

  lemma {:induction false} UpdatedIsLast(updates: seq<Observation>, item: Observation)
    ensures (Updated(updates, item) == item && forall i :: 0 <= i < |updates| ==> !SameKey(updates[i], item))
            || exists i :: 0 <= i < |updates| && SameKey(updates[i], item) && Updated(updates, item) == updates[i]
  {
    if updates != [] && !SameKey(updates[|updates| - 1], item) {
      UpdatedIsLast(updates[..|updates| - 1], item);
    }
  }

  /** What a repair makes of one recorded observation. */
  ghost predicate MovedBy(known: int -> Option<int>, before: Observation, after: Observation, from: int, correction: int) {
    && SameKey(before, after)
    && (!before.audio ==> after.end == before.end || after.end == known(before.stamp))
    && (before.audio ==> after == if before.number >= from then before.(offset := before.offset + correction) else before)
  }

  lemma UpdateMoves(known: int -> Option<int>, history: seq<Observation>, number: int, stamp: int, p: Replay, item: Observation)
    requires UniqueAudio(history) && item in history
    requires MovedTogether(known, ToReplay(history, number, stamp), p) && p.shift.Some?
    ensures MovedBy(known, item, Updated(p.updates, item), number, p.shift.value.1)
  {
    hide ToReplay;
    var seen := ToReplay(history, number, stamp);
    ToReplayHas(history, number, stamp, item);
    UpdatedIsLast(p.updates, item);
    if item.number >= number {
      var k :| 0 <= k < |seen| && seen[k] == item;
      assert SameKey(p.updates[k], item);
    }
    if i :| 0 <= i < |p.updates| && SameKey(p.updates[i], item) && Updated(p.updates, item) == p.updates[i] {
      ToReplayHas(history, number, stamp, seen[i]);
    }
  }

  /** A planned repair moves every recorded audio observation from the repair point on by one common amount. */
  lemma PlannedRepairMoves(f: Format, c: Clock, number: int, stamp: int)
    requires UniqueAudio(c.history) && |c.history| <= 256
    requires PlanRepair(f, c, number, stamp).Some?
    ensures var plan := PlanRepair(f, c, number, stamp).value;
            var c' := Repaired(c, plan);
            && plan.correction != 0
            && c'.number == c.number && c'.stamp == c.stamp
            && |c'.history| == |c.history|
            && forall i :: 0 <= i < |c.history| ==> MovedBy(KnownEnds(Sorted(SeenFrom(c.history, number))), c.history[i], c'.history[i], number, plan.correction)
  {
    hide ReplayAll, ToReplay, MovedTogether, MovedBy;
    var plan := PlanRepair(f, c, number, stamp).value;
    var prefix := EpochsBefore(c.epochs, number);
    var known := KnownEnds(Sorted(SeenFrom(c.history, number)));
    ReplayMovesTogether(f, known, Replay(prefix, Last(prefix).origin, None, None, []), ToReplay(c.history, number, stamp));
    forall i | 0 <= i < |c.history|
      ensures MovedBy(KnownEnds(Sorted(SeenFrom(c.history, number))), c.history[i], Repaired(c, plan).history[i], number, plan.correction)
    {
      UpdateMoves(known, c.history, number, stamp, plan.replay, c.history[i]);
    }
  }

  lemma {:induction false} ShiftIsFirstAudio(f: Format, known: int -> Option<int>, p: Replay, seen: seq<Observation>)
    requires p.epochs != [] && p.shift == None
    requires ReplayAll(f, known, p, seen).Some? && ReplayAll(f, known, p, seen).value.shift.Some?
    ensures exists k :: FirstAudio(seen, k) && ReplayAll(f, known, p, seen).value.shift.value.0 == seen[k].offset
  {
    hide ReplayOne;
    var before, o := seen[..|seen| - 1], seen[|seen| - 1];
    var q := ReplayAll(f, known, p, before).value;
    ReplayOneShift(f, known, q, o);
    if q.shift.Some? {
      ShiftIsFirstAudio(f, known, p, before);
      var k :| FirstAudio(before, k) && q.shift.value.0 == before[k].offset;
      assert FirstAudio(seen, k);
    } else {
      NoShiftNoAudio(f, known, p, before);
      assert FirstAudio(seen, |seen| - 1);
    }
  }

  ghost predicate FirstAudio(seen: seq<Observation>, k: int) {
    0 <= k < |seen| && seen[k].audio && forall i :: 0 <= i < k ==> !seen[i].audio
  }

  lemma ReplayOneShift(f: Format, known: int -> Option<int>, p: Replay, o: Observation)
    requires p.epochs != [] && ReplayOne(f, known, p, o).Some?
    ensures var p' := ReplayOne(f, known, p, o).value;
            && (p.shift.Some? ==> p'.shift == p.shift)
            && (p.shift.None? ==> if o.audio then p'.shift.Some? && p'.shift.value.0 == o.offset else p'.shift.None?)
  {
    hide Measure, NextEpoch;
  }

  lemma {:induction false} NoShiftNoAudio(f: Format, known: int -> Option<int>, p: Replay, seen: seq<Observation>)
    requires p.epochs != [] && p.shift == None
    requires ReplayAll(f, known, p, seen).Some? && ReplayAll(f, known, p, seen).value.shift.None?
    ensures forall i :: 0 <= i < |seen| ==> !seen[i].audio
  {
    hide ReplayOne;
    if seen != [] {
      var before := seen[..|seen| - 1];
      ReplayOneShift(f, known, ReplayAll(f, known, p, before).value, seen[|seen| - 1]);
      NoShiftNoAudio(f, known, p, before);
    }
  }

  /**
   A repair from `number` on, for the event stamped `stamp`, by `correction`: every recorded audio observation from
   the repair point on moves by that amount and no other audio observation moves; and so do the unread bytes that are
   logged at or past the offset of the first of those observations, in sending order, while earlier unread bytes and
   the playout cursor stay (unless what is left spans more than the buffer keeps).
   */
  ghost predicate AllMove(span: nat, c: Clock, j: Jitter, number: int, stamp: int, c': Clock, j': Jitter, correction: int, k: int) {
    var replayed := ToReplay(c.history, number, stamp);
    && correction != 0 && FirstAudio(replayed, k)
    && |c'.history| == |c.history|
    && (forall i :: 0 <= i < |c.history| ==> MovedBy(KnownEnds(Sorted(SeenFrom(c.history, number))), c.history[i], c'.history[i], number, correction))
    && ShiftStep(j, span, replayed[k].offset, correction, true, j')
    && (ShiftWithin(j.log, j.base, span, replayed[k].offset, correction, j.cursor) ==>
          j'.cursor == j.cursor && j'.mem == ShiftedMem(LoggedPart(j), replayed[k].offset, correction, j.cursor))
  }

  /** All or nothing: either the repair changes neither timeline nor jitter buffer, or it moves all of that. */
  lemma RepairIsAllOrNothing(f: Format, span: nat, c: Clock, j: Jitter, number: int, stamp: int, c': Clock, j': Jitter)
    requires UniqueAudio(c.history) && |c.history| <= 256
    requires RepairStep(f, span, c, j, number, stamp, c', j')
    ensures (c' == c && j' == j) || exists correction, k :: AllMove(span, c, j, number, stamp, c', j', correction, k)
  {
    hide PlanRepair, Repaired, ShiftedMem, MovedBy, UniqueAudio, ShiftWithin, LoggedPart, ShiftRefused, FirstAudio, Shifting;
    if PlanRepair(f, c, number, stamp).Some? {
      var plan := PlanRepair(f, c, number, stamp).value;
      PlannedRepairMoves(f, c, number, stamp);
      var k := FirstMoved(f, c, number, stamp);
      var ok :| ShiftStep(j, span, plan.boundary, plan.correction, ok, j') && c' == if ok then Repaired(c, plan) else c;
      if ok {
        assert AllMove(span, c, j, number, stamp, c', j', plan.correction, k);
      }
    }
  }

  lemma FirstMoved(f: Format, c: Clock, number: int, stamp: int) returns (k: int)
    requires PlanRepair(f, c, number, stamp).Some?
    ensures FirstAudio(ToReplay(c.history, number, stamp), k)
    ensures PlanRepair(f, c, number, stamp).value.boundary == ToReplay(c.history, number, stamp)[k].offset
  {
    hide ReplayAll, ToReplay;
    var prefix := EpochsBefore(c.epochs, number);
    var known := KnownEnds(Sorted(SeenFrom(c.history, number)));
    var start, seen := Replay(prefix, Last(prefix).origin, None, None, []), ToReplay(c.history, number, stamp);
    ShiftIsFirstAudio(f, known, start, seen);
    k :| FirstAudio(seen, k) && ReplayAll(f, known, start, seen).value.shift.value.0 == seen[k].offset;
  }

  // ------------------------------------------------------------------ the history stays unambiguous

  /** A repair keeps audio observations apart. */
  lemma RepairKeepsUnique(known: int -> Option<int>, before: seq<Observation>, after: seq<Observation>, from: int, correction: int)
    requires UniqueAudio(before) && |before| == |after|
    requires forall i :: 0 <= i < |before| ==> MovedBy(known, before[i], after[i], from, correction)
    ensures UniqueAudio(after)
  {
    forall a, b | a in after && b in after && a.audio && SameKey(a, b)
      ensures a == b
    {
      var i :| 0 <= i < |after| && after[i] == a;
      var k :| 0 <= k < |after| && after[k] == b;
      assert SameKey(before[i], before[k]);
    }
  }

  /** What placing a packet may record. */
  function Observed(f: Format, c: Clock, r: Report): Observation {
    Observation(SeqOf(c, r), StampOf(c, r), r.rate, Place(f, c, r).offset, r.audio, EndOf(r, StampOf(c, r)))
  }

  /** The observations that stay when one more is recorded. */
  function Staying(history: seq<Observation>): seq<Observation> {
    if |history| >= 256 then history[|history| + 1 - 256..] else history
  }

  predicate IsRecorded(f: Format, c: Clock, r: Report) {
    && SeqOf(c, r) >= OldestSeq(c.history, if c.history == [] then SeqOf(c, r) else c.history[0].number)
    && Observed(f, c, r) !in c.history
  }

  /** Audio that is recorded already, and now would be at another offset. */
  ghost predicate Conflicts(f: Format, c: Clock, r: Report) {
    r.audio && IsRecorded(f, c, r) && exists o :: o in Staying(c.history) && SameKey(o, Observed(f, c, r))
  }

  /** Placing a packet records it as the newest observation, or leaves the history alone. */
  lemma PlaceRecords(f: Format, c: Clock, r: Report)
    requires |c.history| <= 256
    ensures Place(f, c, r).clock.history == if IsRecorded(f, c, r) then Staying(c.history) + [Observed(f, c, r)] else c.history
  {
    hide EpochsWith, EpochFor, SeqOf, StampOf, Measure, OldestSeq, RepairSeq;
    assert |c.history| == 256 ==> (c.history + [Observed(f, c, r)])[1..] == c.history[1..] + [Observed(f, c, r)];
  }

  /** Placing a packet keeps audio observations apart exactly when it does not record the same audio twice. */
  lemma PlaceKeepsUniqueIff(f: Format, c: Clock, r: Report)
    requires UniqueAudio(c.history) && |c.history| <= 256
    ensures UniqueAudio(Place(f, c, r).clock.history) <==> !Conflicts(f, c, r)
    ensures |Place(f, c, r).clock.history| <= 256
  {
    hide Place, Observed, IsRecorded;
    PlaceRecords(f, c, r);
    var stay, o, h := Staying(c.history), Observed(f, c, r), Place(f, c, r).clock.history;
    assert forall x :: x in stay ==> x in c.history;
    if IsRecorded(f, c, r) {
      assert o in h && forall x :: x in h <==> x in stay || x == o;
      assert o !in c.history && o.audio == r.audio by { ObservedIs(f, c, r); }
    }
  }

  lemma {:induction false} OldestIsReached(history: seq<Observation>, least: int, n: int)
    ensures OldestSeq(history, least) <= n <==> least <= n || exists o :: o in history && o.number <= n
  {
    if history != [] {
      var h := history[0];
      OldestIsReached(history[1..], Min(h.number, least), n);
      assert history == [h] + history[1..];
    }
  }

  /**
   A repair is asked for exactly by an event report that is behind what has gone forward, when an observation at or
   before the place to repair from is still recorded; and a packet is recorded exactly when none, or one at or before
   it, is.
   */
  lemma RepairAskedIff(f: Format, c: Clock, r: Report)
    requires |c.history| <= 256
    ensures var p := Place(f, c, r);
            var from := RepairSeq(c.history, p.stamp, p.number);
            && (p.repair.Some? <==>
                  && !r.audio
                  && ((c.number.Some? && p.number < c.number.value) || (c.stamp.Some? && p.stamp < c.stamp.value))
                  && exists o :: o in c.history && o.number <= from)
            && (p.repair.Some? ==> p.repair.value == from)
            && (Observed(f, c, r) in p.clock.history <==>
                  c.history == [] || Observed(f, c, r) in c.history || exists o :: o in c.history && o.number <= p.number)
  {
    hide EpochsWith, EpochFor, SeqOf, StampOf, Measure, OldestSeq, RepairSeq;
    var p := Place(f, c, r);
    var least := if c.history == [] then p.number else c.history[0].number;
    assert c.history != [] ==> c.history[0] in c.history;
    OldestIsReached(c.history, least, p.number);
    OldestIsReached(c.history, least, RepairSeq(c.history, p.stamp, p.number));
    PlaceRecords(f, c, r);
    var stay, o := Staying(c.history), Observed(f, c, r);
    assert o in stay + [o];
  }

  lemma ObservedIs(f: Format, c: Clock, r: Report)
    ensures IsRecorded(f, c, r) ==> Observed(f, c, r) !in c.history
    ensures var o := Observed(f, c, r); o.audio == r.audio && o.number == SeqOf(c, r) && o.stamp == StampOf(c, r) && o.rate == r.rate
  {
    hide Place, SeqOf, StampOf, OldestSeq;
  }
}
