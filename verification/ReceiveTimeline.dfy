/**
 The receive timeline of RTPClient: RTP timestamps, which change clock rate when a telephone-event
 interrupts the audio, are mapped onto one PCM timeline, and the map is repaired when an event turns out
 to have started before audio that has already been placed.

 `Place` and `PlanRepair` say what the two methods compute as functions of the state they find; the class
 at the end computes them step by step.
 */
module ReceiveTimeline {
  import opened Bytes
  import opened JitterBuffer

  const EVENT_RATE: Rate := 8000
  const KEPT := 256

  type Rate = r: int | 0 < r witness 1

  /** The PCM format of the client; `alignment` is the bytes of one sample of every channel. */
  datatype Format = Format(sampleRate: Rate, alignment: Rate)

  /** From sequence number `number` on, media ran at `rate`, and timestamp `origin` is at PCM offset `pcm`. */
  datatype Epoch = Epoch(number: int, origin: int, rate: Rate, pcm: int)

  datatype Observation = Observation(number: int, stamp: int, rate: Rate, offset: int, audio: bool, end: Option<int>)

  datatype Clock = Clock(number: Option<int>, stamp: Option<int>, epochs: seq<Epoch>, history: seq<Observation>, eventEnd: Option<int>)

  const Unset := Clock(None, None, [], [], None)

  /** What `_receive_media_offset` is told about a packet. */
  datatype Report = Report(stamp: int, rate: Rate, number: Option<int>, audio: bool, duration: Option<nat>)

  // ------------------------------------------------------------------ arithmetic

  function OffsetAt(f: Format, stamp: int, rate: Rate): int {
    stamp * f.sampleRate / rate * f.alignment
  }

  /** The value closest to `previous` that agrees with `raw` modulo `modulus`. */
  function Unwrap(previous: Option<int>, raw: int, modulus: int): int
    requires modulus > 0 && modulus % 2 == 0
  {
    match previous
    case None => raw
    case Some(p) => p + ((raw - p + modulus / 2) % modulus - modulus / 2)
  }

  function StampOf(c: Clock, r: Report): int {
    Unwrap(c.stamp, r.stamp, 0x1_0000_0000)
  }

  function SeqOf(c: Clock, r: Report): int {
    match r.number
    case None => (match c.number case None => 0 case Some(s) => s + 1)
    case Some(s) => Unwrap(c.number, s, 0x1_0000)
  }

  // ------------------------------------------------------------------ placing a packet

  /** A deque with maxlen=256. */
  function Append<T>(items: seq<T>, x: T): seq<T> {
    LastKept(items + [x])
  }

  function LastKept<T>(items: seq<T>): seq<T> {
    if |items| > KEPT then items[|items| - KEPT..] else items
  }

  function Last(epochs: seq<Epoch>): Epoch
    requires epochs != []
  {
    epochs[|epochs| - 1]
  }

  /** Timestamp `stamp` of rate `rate`, measured from an epoch. */
  function Measure(f: Format, e: Epoch, stamp: int, rate: Rate): int {
    e.pcm + OffsetAt(f, stamp, rate) - OffsetAt(f, e.origin, rate)
  }

  /** Where the clock changes: at the event's end when that is known and has passed, else at the packet. */
  function Transition(last: Epoch, eventEnd: Option<int>, stamp: int, audio: bool): int {
    if audio && last.rate == EVENT_RATE && eventEnd.Some? && last.origin <= eventEnd.value <= stamp
    then eventEnd.value
    else stamp
  }

  function NextEpoch(f: Format, last: Epoch, eventEnd: Option<int>, number: int, stamp: int, rate: Rate, audio: bool): Epoch {
    var t := Transition(last, eventEnd, stamp, audio);
    Epoch(number, t, rate, Measure(f, last, t, last.rate))
  }

  /** The latest epoch that had started by `number`, or the first one. */
  function EpochAt(epochs: seq<Epoch>, number: int): Epoch
    requires epochs != []
  {
    if |epochs| == 1 || Last(epochs).number <= number then Last(epochs) else EpochAt(epochs[..|epochs| - 1], number)
  }

  /** The first epoch of rate `rate` that starts after `number`. */
  function FirstAfter(epochs: seq<Epoch>, number: int, rate: Rate): Option<Epoch> {
    if epochs == [] then None
    else if epochs[0].number > number && epochs[0].rate == rate then Some(epochs[0])
    else FirstAfter(epochs[1..], number, rate)
  }

  function OldestSeq(history: seq<Observation>, least: int): int {
    if history == [] then least else OldestSeq(history[1..], Min(history[0].number, least))
  }

  /** The lowest sequence number that an event report stamped `stamp` speaks for. */
  function RepairSeq(history: seq<Observation>, stamp: int, least: int): int {
    if history == [] then least
    else
      var h := history[0];
      RepairSeq(history[1..], stamp,
                if !h.audio && h.stamp == stamp then Min(h.number, least)
                else if h.audio && h.stamp > stamp then Min(h.number - 1, least)
                else least)
  }

  datatype Placement = Placement(clock: Clock, offset: int, number: int, stamp: int, forward: bool, repair: Option<int>)

  function IsForward(c: Clock, number: int, stamp: int): bool {
    (c.number == None || number >= c.number.value) && (c.stamp == None || stamp >= c.stamp.value)
  }

  /** The epochs once the packet has been seen. */
  function EpochsWith(f: Format, c: Clock, r: Report): (epochs: seq<Epoch>)
    ensures epochs != []
  {
    var number, stamp := SeqOf(c, r), StampOf(c, r);
    var epochs := if c.epochs == [] then [Epoch(number, stamp, r.rate, OffsetAt(f, stamp, r.rate))] else c.epochs;
    if IsForward(c, number, stamp) && r.rate != Last(epochs).rate
    then Append(epochs, NextEpoch(f, Last(epochs), c.eventEnd, number, stamp, r.rate, r.audio))
    else epochs
  }

  /** The epoch a packet is measured from. */
  function EpochFor(epochs: seq<Epoch>, r: Report, number: int, forward: bool): Epoch
    requires epochs != []
  {
    var epoch := EpochAt(epochs, number);
    if !forward && r.audio && epoch.rate != r.rate then
      match FirstAfter(epochs, number, r.rate)
      case None => epoch
      case Some(later) => later
    else epoch
  }

  function EventEndAfter(eventEnd: Option<int>, r: Report, stamp: int): Option<int> {
    if r.audio then None
    else if r.duration.Some? then Some(stamp + r.duration.value)
    else if eventEnd.Some? && stamp >= eventEnd.value then None
    else eventEnd
  }

  function EndOf(r: Report, stamp: int): Option<int> {
    match r.duration case None => None case Some(d) => Some(stamp + d)
  }

  /** `_receive_media_offset`, up to the repair it may ask for. */
  function Place(f: Format, c: Clock, r: Report): Placement {
    var number, stamp := SeqOf(c, r), StampOf(c, r);
    var forward := IsForward(c, number, stamp);
    var epochs := EpochsWith(f, c, r);
    var offset := Measure(f, EpochFor(epochs, r, number, forward), stamp, r.rate);
    var seen := Observation(number, stamp, r.rate, offset, r.audio, EndOf(r, stamp));
    var oldest := OldestSeq(c.history, if c.history == [] then number else c.history[0].number);
    var from := if r.audio then number else RepairSeq(c.history, stamp, number);
    var history := if number >= oldest && seen !in c.history then Append(c.history, seen) else c.history;
    Placement(
      Clock(if forward then Some(number) else c.number, if forward then Some(stamp) else c.stamp, epochs, history,
            if forward then EventEndAfter(c.eventEnd, r, stamp) else c.eventEnd),
      offset, number, stamp, forward,
      if !forward && !r.audio && c.history != [] && from >= oldest then Some(from) else None)
  }

  // ------------------------------------------------------------------ repairing the map

  function EpochsBefore(epochs: seq<Epoch>, number: int): seq<Epoch> {
    if epochs == [] then []
    else (if epochs[0].number < number then [epochs[0]] else []) + EpochsBefore(epochs[1..], number)
  }

  function SeenFrom(history: seq<Observation>, number: int): seq<Observation> {
    if history == [] then []
    else (if history[0].number >= number then [history[0]] else []) + SeenFrom(history[1..], number)
  }

  predicate Earlier(a: Observation, b: Observation) {
    a.number < b.number || (a.number == b.number && a.stamp <= b.stamp)
  }

  function Insert(x: Observation, sorted: seq<Observation>): seq<Observation> {
    if sorted == [] || Earlier(x, sorted[0]) then [x] + sorted else [sorted[0]] + Insert(x, sorted[1..])
  }

  /** sorted(..., key=(sequence, timestamp)), which is stable. */
  function Sorted(seen: seq<Observation>): seq<Observation> {
    if seen == [] then [] else Insert(seen[0], Sorted(seen[1..]))
  }

  /** The latest end reported for the event stamped `stamp`. */
  function KnownEnd(seen: seq<Observation>, stamp: int): Option<int> {
    if seen == [] then None
    else
      var o, rest := seen[|seen| - 1], KnownEnd(seen[..|seen| - 1], stamp);
      if !o.audio && o.end.Some? && o.stamp == stamp
      then Some(if rest.Some? && rest.value > o.end.value then rest.value else o.end.value)
      else rest
  }

  /** An observation's own end is among the known ones. */
  lemma {:induction false} EndsAreKnown(seen: seq<Observation>)
    ensures forall o :: o in seen && !o.audio && o.end.Some? ==> KnownEnd(seen, o.stamp).Some?
  {
    if seen != [] {
      EndsAreKnown(seen[..|seen| - 1]);
    }
  }

  predicate StartsEvent(o: Observation, number: int, stamp: int) {
    o.number == number && o.stamp == stamp && !o.audio
  }

  /** The observations to replay, headed by a report at `number` when none was seen there. */
  function ToReplay(history: seq<Observation>, number: int, stamp: int): seq<Observation> {
    var seen := Sorted(SeenFrom(history, number));
    if exists o :: o in seen && StartsEvent(o, number, stamp) then seen
    else [Observation(number, stamp, EVENT_RATE, 0, false, KnownEnd(seen, stamp))] + seen
  }

  /** How far a replay has got; `shift` is the first audio offset and its correction. */
  datatype Replay = Replay(epochs: seq<Epoch>, latest: int, eventEnd: Option<int>, shift: Option<(int, int)>, updates: seq<Observation>)

  /** One observation, replayed; None when the audio would not move as one. */
  function ReplayOne(f: Format, known: int -> Option<int>, p: Replay, o: Observation): (p': Option<Replay>)
    requires p.epochs != []
    ensures p'.Some? ==> p'.value.epochs != []
  {
    var end := if o.audio then o.end else known(o.stamp);
    if !o.audio && o.stamp < p.latest then Some(p.(updates := p.updates + [o.(end := end)]))
    else
      var last := Last(p.epochs);
      var epochs := if o.rate == last.rate then p.epochs
                    else p.epochs + [NextEpoch(f, last, p.eventEnd, o.number, o.stamp, o.rate, o.audio)];
      var offset := Measure(f, Last(epochs), o.stamp, o.rate);
      var latest := if o.stamp < p.latest then p.latest else o.stamp;
      var updates := p.updates + [o.(offset := offset, end := end)];
      if !o.audio then
        Some(Replay(epochs, latest,
                    if end.Some? then end else if p.eventEnd.Some? && o.stamp >= p.eventEnd.value then None else p.eventEnd,
                    p.shift, updates))
      else if p.shift.None? then Some(Replay(epochs, latest, None, Some((o.offset, offset - o.offset)), updates))
      else if p.shift.value.1 != offset - o.offset then None
      else Some(Replay(epochs, latest, None, p.shift, updates))
  }

  function ReplayAll(f: Format, known: int -> Option<int>, p: Replay, seen: seq<Observation>): (p': Option<Replay>)
    requires p.epochs != []
    ensures p'.Some? ==> p'.value.epochs != []
  {
    if seen == [] then Some(p)
    else
      match ReplayAll(f, known, p, seen[..|seen| - 1])
      case None => None
      case Some(q) => ReplayOne(f, known, q, seen[|seen| - 1])
  }

  function KnownEnds(seen: seq<Observation>): int -> Option<int> {
    stamp => KnownEnd(seen, stamp)
  }

  predicate SameKey(a: Observation, b: Observation) {
    a.number == b.number && a.stamp == b.stamp && a.rate == b.rate && a.audio == b.audio
  }

  /** The last update with the item's key, else the item. */
  function Updated(updates: seq<Observation>, item: Observation): Observation {
    if updates == [] then item
    else if SameKey(updates[|updates| - 1], item) then updates[|updates| - 1]
    else Updated(updates[..|updates| - 1], item)
  }

  function UpdatedAll(updates: seq<Observation>, history: seq<Observation>): (h: seq<Observation>)
    ensures |h| == |history| && forall i :: 0 <= i < |h| ==> h[i] == Updated(updates, history[i])
  {
    seq(|history|, i requires 0 <= i < |history| => Updated(updates, history[i]))
  }

  datatype Plan = Plan(boundary: int, correction: int, replay: Replay)

  /** `_repair_late_event_clock`, up to the shift it asks for; None when it changes nothing. */
  function PlanRepair(f: Format, c: Clock, number: int, stamp: int): Option<Plan> {
    var prefix := EpochsBefore(c.epochs, number);
    if prefix == [] then None
    else
      var known := KnownEnds(Sorted(SeenFrom(c.history, number)));
      match ReplayAll(f, known, Replay(prefix, Last(prefix).origin, None, None, []), ToReplay(c.history, number, stamp))
      case None => None
      case Some(p) => if p.shift.None? || p.shift.value.1 == 0 then None else Some(Plan(p.shift.value.0, p.shift.value.1, p))
  }

  function Repaired(c: Clock, plan: Plan): Clock {
    c.(epochs := LastKept(plan.replay.epochs), history := LastKept(UpdatedAll(plan.replay.updates, c.history)),
       eventEnd := plan.replay.eventEnd)
  }

  /** `_repair_late_event_clock` with its shift of the jitter buffer: all of it or nothing. */
  ghost predicate RepairStep(f: Format, span: nat, c: Clock, j: Jitter, number: int, stamp: int, c': Clock, j': Jitter) {
    match PlanRepair(f, c, number, stamp)
    case None => c' == c && j' == j
    case Some(plan) =>
      exists ok :: ShiftStep(j, span, plan.boundary, plan.correction, ok, j') && c' == if ok then Repaired(c, plan) else c
  }

  /** `_receive_media_offset` with its repair. */
  ghost predicate PlaceStep(f: Format, span: nat, c: Clock, j: Jitter, r: Report, offset: int, c': Clock, j': Jitter) {
    var p := Place(f, c, r);
    && offset == p.offset
    && match p.repair
       case None => c' == p.clock && j' == j
       case Some(number) => RepairStep(f, span, p.clock, j, number, p.stamp, c', j')
  }

  lemma {:induction false} ReplayStaysFailed(f: Format, known: int -> Option<int>, p: Replay, seen: seq<Observation>, i: nat)
    requires p.epochs != [] && i <= |seen| && ReplayAll(f, known, p, seen[..i]) == None
    ensures ReplayAll(f, known, p, seen) == None
  {
    if i < |seen| {
      assert seen[..|seen| - 1][..i] == seen[..i];
      ReplayStaysFailed(f, known, p, seen[..|seen| - 1], i);
    } else {
      assert seen[..i] == seen;
    }
  }

  // ------------------------------------------------------------------ the client's fields

  class Timeline {
    const format: Format
    const pmin: PacketManager
    var mediaNumber: Option<int>
    var mediaStamp: Option<int>
    var epochs: seq<Epoch>
    var history: seq<Observation>
    var eventEnd: Option<int>

    constructor (format: Format, pmin: PacketManager)
      ensures this.format == format && this.pmin == pmin && View() == Unset
    {
      this.format, this.pmin := format, pmin;
      mediaNumber, mediaStamp, epochs, history, eventEnd := None, None, [], [], None;
    }

    ghost function View(): Clock
      reads this
    {
      Clock(mediaNumber, mediaStamp, epochs, history, eventEnd)
    }

    /** Forget the source: a new one has its own timestamps. */
    method Reset()
      modifies this
      ensures View() == Unset
    {
      mediaNumber, mediaStamp, epochs, history, eventEnd := None, None, [], [], None;
    }

    /** Place one packet on the PCM timeline, repairing the map if it is a late event report. */
    method ReceiveMediaOffset(r: Report) returns (offset: int)
      requires pmin.Valid()
      modifies this, pmin
      ensures pmin.Valid()
      ensures PlaceStep(format, pmin.maxLogSpan, old(View()), old(pmin.View()), r, offset, View(), pmin.View())
    {
      hide PacketManager.Valid, PacketManager.View, RepairStep, EpochsWith, EpochFor, Measure, OldestSeq, RepairSeq, Append, Unwrap;
      var stamp := Unwrap(mediaStamp, r.stamp, 0x1_0000_0000);
      var number := if r.number.None? then (if mediaNumber.None? then 0 else mediaNumber.value + 1)
                    else Unwrap(mediaNumber, r.number.value, 0x1_0000);
      var forward := (mediaNumber.None? || number >= mediaNumber.value) && (mediaStamp.None? || stamp >= mediaStamp.value);
      EnterEpoch(r, number, stamp, forward);
      offset := OffsetIn(r, number, stamp, forward);
      if forward {
        Advance(r, number, stamp);
      }
      var repair := Remember(r, Observation(number, stamp, r.rate, offset, r.audio, EndOf(r, stamp)), forward);
      if repair.Some? {
        RepairLateEventClock(repair.value, stamp);
      }
    }

    /** The high-water marks, and the event end that the next audio packet may start from. */
    method Advance(r: Report, number: int, stamp: int)
      modifies this`mediaNumber, this`mediaStamp, this`eventEnd
      ensures mediaNumber == Some(number) && mediaStamp == Some(stamp)
      ensures eventEnd == EventEndAfter(old(eventEnd), r, stamp)
    {
      mediaNumber, mediaStamp := Some(number), Some(stamp);
      if r.audio {
        eventEnd := None;
      } else if r.duration.Some? {
        eventEnd := Some(stamp + r.duration.value);
      } else if eventEnd.Some? && stamp >= eventEnd.value {
        eventEnd := None;
      }
    }

    /** Record the observation, and say from where the map needs repair, if it does. */
    method Remember(r: Report, seen: Observation, forward: bool) returns (repair: Option<int>)
      modifies this`history
      ensures var oldest := OldestSeq(old(history), if old(history) == [] then seen.number else old(history)[0].number);
              var from := if r.audio then seen.number else RepairSeq(old(history), seen.stamp, seen.number);
              && history == (if seen.number >= oldest && seen !in old(history) then Append(old(history), seen) else old(history))
              && repair == if !forward && !r.audio && old(history) != [] && from >= oldest then Some(from) else None
    {
      var oldest := OldestSeq(history, if history == [] then seen.number else history[0].number);
      var repairNumber := seen.number;
      if !r.audio {
        repairNumber := RepairSeq(history, seen.stamp, seen.number);
      }
      var canRepair := history != [] && repairNumber >= oldest;
      if seen.number >= oldest && seen !in history {
        history := Append(history, seen);
      }
      repair := if !forward && !r.audio && canRepair then Some(repairNumber) else None;
    }

    /** Start the first epoch, or a new one when the clock rate changes going forward. */
    method EnterEpoch(r: Report, number: int, stamp: int, forward: bool)
      requires number == SeqOf(View(), r) && stamp == StampOf(View(), r) && forward == IsForward(View(), number, stamp)
      modifies this`epochs
      ensures epochs == EpochsWith(format, old(View()), r)
    {
      hide SeqOf, StampOf, IsForward, OffsetAt, Append;
      if epochs == [] {
        epochs := [Epoch(number, stamp, r.rate, OffsetAt(format, stamp, r.rate))];
      }
      if forward && r.rate != Last(epochs).rate {
        var last := Last(epochs);
        var transition := stamp;
        if r.audio && last.rate == EVENT_RATE && eventEnd.Some? && last.origin <= eventEnd.value <= stamp {
          transition := eventEnd.value;
        }
        var pcm := last.pcm + (OffsetAt(format, transition, last.rate) - OffsetAt(format, last.origin, last.rate));
        epochs := Append(epochs, Epoch(number, transition, r.rate, pcm));
      }
    }

    /** The packet's PCM offset, from the epoch it belongs to. */
    method OffsetIn(r: Report, number: int, stamp: int, forward: bool) returns (offset: int)
      requires epochs != []
      ensures offset == Measure(format, EpochFor(epochs, r, number, forward), stamp, r.rate)
    {
      var epoch := EpochAt(epochs, number);
      if !forward && r.audio && epoch.rate != r.rate {
        var later := FirstAfter(epochs, number, r.rate);
        if later.Some? {
          epoch := later.value;
        }
      }
      offset := epoch.pcm + (OffsetAt(format, stamp, r.rate) - OffsetAt(format, epoch.origin, r.rate));
    }

    /** Replay the observations from `number` on with the event in its place; keep the result only if all audio moves as one. */
    method RepairLateEventClock(number: int, stamp: int)
      requires pmin.Valid()
      modifies this, pmin
      ensures pmin.Valid()
      ensures RepairStep(format, pmin.maxLogSpan, old(View()), old(pmin.View()), number, stamp, View(), pmin.View())
    {
      hide PacketManager.Valid, PacketManager.View, ShiftStep, Sorted, SeenFrom, KnownEnd, ReplayOne, LastKept, UpdatedAll, EpochsBefore;
      var prefix := EpochsBefore(epochs, number);
      if prefix == [] {
        return;
      }
      var seen := Sorted(SeenFrom(history, number));
      var knownEnds := CollectEnds(seen);
      ghost var known := KnownEnds(seen);
      ghost var c, j := View(), pmin.View();
      EndsAreKnown(seen);
      if !exists o :: o in seen && StartsEvent(o, number, stamp) {
        seen := [Observation(number, stamp, EVENT_RATE, 0, false, if stamp in knownEnds then Some(knownEnds[stamp]) else None)] + seen;
      }
      var start := Replay(prefix, Last(prefix).origin, None, None, []);
      var result := ReplayObservations(start, seen, knownEnds, known);
      if result.None? {
        return;
      }
      var replay := result.value;
      if replay.shift.None? || replay.shift.value.1 == 0 {
        return;
      }
      var shifted := pmin.ShiftUnreadSuffix(replay.shift.value.0, replay.shift.value.1);
      if !shifted {
        return;
      }
      epochs := LastKept(replay.epochs);
      history := LastKept(UpdatedAll(replay.updates, history));
      eventEnd := replay.eventEnd;
    }

    /** The replay loop. */
    method ReplayObservations(start: Replay, seen: seq<Observation>, knownEnds: map<int, int>, ghost known: int -> Option<int>)
      returns (result: Option<Replay>)
      requires start.epochs != []
      requires forall s :: if s in knownEnds then known(s) == Some(knownEnds[s]) else known(s) == None
      requires forall o :: o in seen && !o.audio && o.end.Some? ==> o.stamp in knownEnds
      ensures result == ReplayAll(format, known, start, seen)
    {
      var replay := start;
      for i := 0 to |seen|
        invariant replay.epochs != [] && ReplayAll(format, known, start, seen[..i]) == Some(replay)
      {
        assert seen[..i + 1][..i] == seen[..i];
        var next := ReplayTurn(replay, seen[i], knownEnds, known);
        if next.None? {
          ReplayStaysFailed(format, known, start, seen, i + 1);
          return None;
        }
        replay := next.value;
      }
      assert seen[..|seen|] == seen;
      return Some(replay);
    }

    /** One turn of the replay loop. */
    method ReplayTurn(replay: Replay, o: Observation, knownEnds: map<int, int>, ghost known: int -> Option<int>) returns (next: Option<Replay>)
      requires replay.epochs != []
      requires forall s :: if s in knownEnds then known(s) == Some(knownEnds[s]) else known(s) == None
      requires !o.audio && o.end.Some? ==> o.stamp in knownEnds
      ensures next == ReplayOne(format, known, replay, o)
    {
      var p, end := replay, o.end;
      if !o.audio {
        end := if o.stamp in knownEnds then Some(knownEnds[o.stamp]) else o.end;
        assert end == known(o.stamp);
        if o.stamp < p.latest {
          return Some(p.(updates := p.updates + [o.(end := end)]));
        }
      }
      p := p.(latest := if p.latest < o.stamp then o.stamp else p.latest);
      var last := Last(p.epochs);
      var origin, pcm := last.origin, last.pcm;
      if o.rate != last.rate {
        var transition := o.stamp;
        if o.audio && last.rate == EVENT_RATE && p.eventEnd.Some? && origin <= p.eventEnd.value <= o.stamp {
          transition := p.eventEnd.value;
        }
        pcm := pcm + OffsetAt(format, transition, last.rate) - OffsetAt(format, origin, last.rate);
        origin := transition;
        p := p.(epochs := p.epochs + [Epoch(o.number, origin, o.rate, pcm)]);
      }
      var offset := pcm + OffsetAt(format, o.stamp, o.rate) - OffsetAt(format, origin, o.rate);
      if o.audio {
        var delta := offset - o.offset;
        if p.shift.None? {
          p := p.(shift := Some((o.offset, delta)));
        } else if delta != p.shift.value.1 {
          return None;
        }
        p := p.(eventEnd := None);
      } else if end.Some? {
        p := p.(eventEnd := end);
      } else if p.eventEnd.Some? && o.stamp >= p.eventEnd.value {
        p := p.(eventEnd := None);
      }
      next := Some(p.(updates := p.updates + [o.(offset := offset, end := end)]));
    }

    /** The latest known end of each event. */
    method CollectEnds(seen: seq<Observation>) returns (ends: map<int, int>)
      ensures forall s :: if s in ends then KnownEnd(seen, s) == Some(ends[s]) else KnownEnd(seen, s) == None
    {
      ends := map[];
      for i := 0 to |seen|
        invariant forall s :: if s in ends then KnownEnd(seen[..i], s) == Some(ends[s]) else KnownEnd(seen[..i], s) == None
      {
        var o := seen[i];
        assert seen[..i + 1][..i] == seen[..i];
        if !o.audio && o.end.Some? {
          var best := if o.stamp in ends && ends[o.stamp] > o.end.value then ends[o.stamp] else o.end.value;
          ends := ends[o.stamp := best];
        }
      }
      assert seen[..|seen|] == seen;
    }
  }
}
