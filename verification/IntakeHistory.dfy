/**
 The history that late events are repaired from, over whole runs of the receiver: audio packets are recorded apart,
 as the duplicate filter remembers at least as much audio as the history does.
 */
module IntakeHistory {
  import opened Bytes
  import opened ReceiveTimeline
  import opened LateEvents
  import opened MediaReceiver
  import ClockEpochs
  import J = JitterBuffer

  // ------------------------------------------------------------------ reports and repairs

  lemma ReportNeverConflicts(f: Format, c: Clock, r: Report)
    requires !r.audio
    ensures !Conflicts(f, c, r)
  {
  }

  /** The same audio is recorded before and after, perhaps at other offsets. */
  ghost predicate SameKeys(h: seq<Observation>, h': seq<Observation>) {
    |h| == |h'| && forall i :: 0 <= i < |h| ==> SameKey(h[i], h'[i])
  }

  /** A report is placed: its repair, if it asks for one, is all or nothing, and audio stays apart in the history. */
  lemma ReportIsPlaced(f: Format, span: nat, s: Intake, r: Report, s': Intake)
    requires UniqueAudio(s.clock.history) && |s.clock.history| <= 256 && !r.audio && ReportPlaced(f, span, s, r, s')
    ensures var p := Place(f, s.clock, r);
            && UniqueAudio(s'.clock.history) && SameKeys(p.clock.history, s'.clock.history)
            && ((s'.clock == p.clock && s'.jitter == s.jitter)
                || (p.repair.Some?
                    && exists correction, k :: AllMove(span, p.clock, s.jitter, p.repair.value, p.stamp, s'.clock, s'.jitter, correction, k)))
  {
    hide RepairStep, UniqueAudio, Conflicts, AllMove, Place;
    var p := Place(f, s.clock, r);
    ReportNeverConflicts(f, s.clock, r);
    PlaceKeepsUniqueIff(f, s.clock, r);
    if p.repair.Some? {
      var number := p.repair.value;
      RepairIsAllOrNothing(f, span, p.clock, s.jitter, number, p.stamp, s'.clock, s'.jitter);
      if s'.clock != p.clock || s'.jitter != s.jitter {
        var correction, k :| AllMove(span, p.clock, s.jitter, number, p.stamp, s'.clock, s'.jitter, correction, k);
        AllMoveKeeps(span, p.clock, s.jitter, number, p.stamp, s'.clock, s'.jitter, correction, k);
      }
    }
  }

  lemma AllMoveKeeps(span: nat, c: Clock, j: J.Jitter, number: int, stamp: int, c': Clock, j': J.Jitter, correction: int, k: int)
    requires AllMove(span, c, j, number, stamp, c', j', correction, k) && UniqueAudio(c.history)
    ensures UniqueAudio(c'.history) && SameKeys(c.history, c'.history)
  {
    hide ToReplay, J.ShiftStep, J.ShiftWithin, J.ShiftedMem, J.LoggedPart, FirstAudio, UniqueAudio;
    RepairKeepsUnique(KnownEnds(Sorted(SeenFrom(c.history, number))), c.history, c'.history, number, correction);
  }

  /** So do all the reports of a packet. */
  lemma {:induction false} ReportsKeepUnique(f: Format, span: nat, s: Intake, reports: seq<Report>, s': Intake)
    requires UniqueAudio(s.clock.history) && |s.clock.history| <= 256 && ReportsPlaced(f, span, s, reports, s')
    requires forall r :: r in reports ==> !r.audio
    ensures UniqueAudio(s'.clock.history) && |s'.clock.history| <= 256
    decreases |reports|
  {
    hide ReportPlaced, UniqueAudio, Place, AllMove;
    if reports != [] {
      var m :| ReportPlaced(f, span, s, reports[0], m) && ReportsPlaced(f, span, m, reports[1..], s');
      ReportIsPlaced(f, span, s, reports[0], m);
      PlaceKeepsUniqueIff(f, s.clock, reports[0]);
      ReportsKeepUnique(f, span, m, reports[1..], s');
    }
  }

  lemma {:induction false} EventReportsAreReports(payload: seq<byte>, i: nat, timestamp: nat, number: Option<nat>)
    ensures forall r :: r in EventReports(payload, i, timestamp, number) ==> !r.audio && r.number == number
    decreases |payload| - i
  {
    if i + 4 <= |payload| {
      EventReportsAreReports(payload, i + 4, (timestamp + DtmfClient.DurationAt(payload, i)) % 0x1_0000_0000, number);
    }
  }

  // ------------------------------------------------------------------ exactly when

  /** Audio that the receiver plays, recorded already at another offset. */
  ghost predicate Confuses(f: Format, s: Intake, w: Wire) {
    && w.AudioWire? && !IsDuplicate(s, w.packet) && w.packet.decoded.Some? && s.ssrc == Some(w.packet.ssrc)
    && Conflicts(f, s.clock, AudioReport(s, w.packet))
  }

  ghost predicate Apart(s: Intake) {
    UniqueAudio(s.clock.history) && |s.clock.history| <= 256
  }

  /** One packet keeps the recorded audio apart exactly when it is not such audio. */
  lemma StepKeepsApartIff(f: Format, span: nat, s: Intake, w: Wire, s': Intake)
    requires Apart(s) && Taken(f, span, s, w, s')
    ensures Apart(s') <==> !Confuses(f, s, w)
  {
    hide UniqueAudio, Conflicts, PlaceStep, Place, J.WriteStep, ClockEpochs.Extend;
    match w
    case EventWire(m) =>
      var reports := EventReports(m.payload, 0, m.timestamp, Some(m.sequence));
      EventReportsAreReports(m.payload, 0, m.timestamp, Some(m.sequence));
      if ReportsPlaced(f, span, s, reports, s') {
        ReportsKeepUnique(f, span, s, reports, s');
      }
    case AudioWire(p) =>
      if !IsDuplicate(s, p) && p.decoded.Some? {
        AudioKeepsApartIff(f, span, s, p, s');
      }
  }

  lemma AudioKeepsApartIff(f: Format, span: nat, s: Intake, p: AudioPacket, s': Intake)
    requires Apart(s) && MediaReceiver.AudioStep(f, span, s, p, s') && !IsDuplicate(s, p) && p.decoded.Some?
    ensures Apart(s') <==> !(s.ssrc == Some(p.ssrc) && Conflicts(f, s.clock, AudioReport(s, p)))
    ensures s'.clock == Place(f, if s.ssrc == Some(p.ssrc) then s.clock else Unset, AudioReport(s, p)).clock
  {
    hide UniqueAudio, Conflicts, Place, J.WriteStep, ClockEpochs.Extend;
    var r := AudioReport(s, p);
    if s.ssrc == Some(p.ssrc) {
      var offset :| PlaceStep(f, span, s.clock, s.jitter, r, offset, s'.clock, s.jitter)
                    && J.WriteStep(s.jitter, span, J.Packet(offset, p.decoded.value), s'.jitter);
      AudioAsksNoRepair(f, span, s.clock, s.jitter, r, offset, s'.clock, s.jitter);
      PlaceKeepsUniqueIff(f, s.clock, r);
    } else {
      NothingIsApart();
      PlaceKeepsUniqueIff(f, Unset, r);
      NothingConflicts(f, r);
    }
  }

  lemma NothingIsApart()
    ensures UniqueAudio(Unset.history)
  {
  }

  lemma NothingConflicts(f: Format, r: Report)
    ensures !Conflicts(f, Unset, r)
  {
  }

  ghost predicate IsRun(f: Format, span: nat, states: seq<Intake>, wires: seq<Wire>) {
    && |states| == |wires| + 1
    && states[0].ssrc == None && states[0].seen == [] && states[0].clock == Unset
    && forall i :: 0 <= i < |wires| ==> Taken(f, span, states[i], wires[i], states[i + 1])
  }

  /** Over a run of the receiver audio is recorded apart all along, if and only if it never plays recorded audio at another offset. */
  lemma {:induction false} AlwaysApartIff(f: Format, span: nat, states: seq<Intake>, wires: seq<Wire>, n: nat)
    requires IsRun(f, span, states, wires) && n < |states|
    ensures (forall i :: 0 <= i <= n ==> Apart(states[i])) <==> forall i :: 0 <= i < n ==> !Confuses(f, states[i], wires[i])
  {
    hide Apart, Confuses, Taken;
    if n == 0 {
      StartIsApart(f, span, states, wires);
    } else {
      AlwaysApartIff(f, span, states, wires, n - 1);
      if forall i :: 0 <= i < n ==> Apart(states[i]) {
        assert Apart(states[n - 1]);
        StepKeepsApartIff(f, span, states[n - 1], wires[n - 1], states[n]);
      } else {
        var i :| 0 <= i < n && !Apart(states[i]);
        var k :| 0 <= k < n - 1 && Confuses(f, states[k], wires[k]);
      }
    }
  }

  lemma StartIsApart(f: Format, span: nat, states: seq<Intake>, wires: seq<Wire>)
    requires IsRun(f, span, states, wires)
    ensures Apart(states[0])
  {
  }

  // ------------------------------------------------------------------ what the duplicate filter is for

  function TagOf(ssrc: nat, o: Observation): Tag {
    (ssrc, o.number % 0x1_0000)
  }

  /** How the filter knows the recorded audio. */
  function TagsOf(ssrc: nat, history: seq<Observation>): (tags: seq<Tag>)
    ensures |tags| <= |history|
    ensures forall o :: o in history && o.audio ==> TagOf(ssrc, o) in tags
  {
    if history == [] then []
    else
      var n := |history| - 1;
      assert history == history[..n] + [history[n]];
      TagsOf(ssrc, history[..n]) + if history[n].audio then [TagOf(ssrc, history[n])] else []
  }

  lemma TagsNext(ssrc: nat, history: seq<Observation>, o: Observation)
    ensures TagsOf(ssrc, history + [o]) == TagsOf(ssrc, history) + if o.audio then [TagOf(ssrc, o)] else []
  {
    assert (history + [o])[..|history|] == history;
  }

  lemma {:induction false} TagsWithoutFirst(ssrc: nat, history: seq<Observation>)
    requires history != []
    ensures TagsOf(ssrc, history) == (if history[0].audio then [TagOf(ssrc, history[0])] else []) + TagsOf(ssrc, history[1..])
  {
    hide TagsOf, TagOf;
    var n := |history| - 1;
    var before, o := history[..n], history[n];
    assert history == before + [o];
    TagsNext(ssrc, before, o);
    if n == 0 {
      NoTags(ssrc);
      assert before == [] && history[1..] == [];
    } else {
      TagsWithoutFirst(ssrc, before);
      assert history[1..] == before[1..] + [o];
      TagsNext(ssrc, before[1..], o);
    }
  }

  lemma NoTags(ssrc: nat)
    ensures TagsOf(ssrc, []) == []
  {
  }

  lemma {:induction false} TagsOfSameKeys(ssrc: nat, h: seq<Observation>, h': seq<Observation>)
    requires SameKeys(h, h')
    ensures TagsOf(ssrc, h) == TagsOf(ssrc, h')
  {
    if h != [] {
      TagsOfSameKeys(ssrc, h[..|h| - 1], h'[..|h| - 1]);
    }
  }

  /** The filter remembers the recorded audio of the source that is playing, in the order it was recorded. */
  ghost predicate Remembers(ssrc: nat, seen: seq<Tag>, history: seq<Observation>) {
    |seen| <= 256 && exists older: seq<Tag> :: seen == older + TagsOf(ssrc, history)
  }

  ghost predicate Tracked(s: Intake) {
    && Apart(s) && |s.seen| <= 256
    && if s.ssrc.None? then s.clock == Unset else Remembers(s.ssrc.value, s.seen, s.clock.history)
  }

  /** Audio that is played has a 16-bit sequence number, and is not older than everything recorded of its source. */
  ghost predicate Recordable(s: Intake, w: Wire) {
    w.AudioWire? && !IsDuplicate(s, w.packet) && w.packet.decoded.Some? ==>
      && w.packet.number.Some? && w.packet.number.value < 0x1_0000
      && (s.ssrc == Some(w.packet.ssrc) ==>
            var c, r := s.clock, AudioReport(s, w.packet);
            SeqOf(c, r) >= OldestSeq(c.history, if c.history == [] then SeqOf(c, r) else c.history[0].number))
  }

  lemma UnwrapAgrees(p: int, n: int)
    requires 0 <= n < 0x1_0000
    ensures Unwrap(Some(p), n, 0x1_0000) % 0x1_0000 == n
  {
    var x, m := Unwrap(Some(p), n, 0x1_0000), n - p + 0x8000;
    assert x == p + (m % 0x1_0000 - 0x8000);
    assert m == 0x1_0000 * (m / 0x1_0000) + m % 0x1_0000;
    ClockEpochs.DivModUnique(x, 0x1_0000, -(m / 0x1_0000), n);
  }

  lemma NumberOnTheWire(c: Clock, r: Report)
    requires r.number.Some? && 0 <= r.number.value < 0x1_0000
    ensures SeqOf(c, r) % 0x1_0000 == r.number.value
  {
    if c.number.Some? {
      UnwrapAgrees(c.number.value, r.number.value);
      hide Unwrap;
    }
  }

  /** What the filter lets through is not recorded. */
  lemma PassedIsNew(s: Intake, p: AudioPacket)
    requires Tracked(s) && s.ssrc == Some(p.ssrc) && !IsDuplicate(s, p) && p.number.Some? && p.number.value < 0x1_0000
    ensures forall o :: o in s.clock.history && o.audio ==> o.number != SeqOf(s.clock, AudioReport(s, p))
  {
    hide SeqOf, UniqueAudio, ClockEpochs.Extend;
    NumberOnTheWire(s.clock, AudioReport(s, p));
    var older: seq<Tag> :| s.seen == older + TagsOf(p.ssrc, s.clock.history);
    forall o | o in s.clock.history && o.audio
      ensures o.number != SeqOf(s.clock, AudioReport(s, p))
    {
      assert TagOf(p.ssrc, o) in s.seen;
    }
  }

  lemma NewIsRecorded(f: Format, c: Clock, r: Report)
    requires r.audio && forall o :: o in c.history && o.audio ==> o.number != SeqOf(c, r)
    requires SeqOf(c, r) >= OldestSeq(c.history, if c.history == [] then SeqOf(c, r) else c.history[0].number)
    ensures IsRecorded(f, c, r) && !Conflicts(f, c, r)
  {
    hide Place, SeqOf, StampOf, OldestSeq;
  }

  /** Recording one more audio packet, and noting it. */
  lemma RemembersNext(ssrc: nat, seen: seq<Tag>, history: seq<Observation>, o: Observation, p: AudioPacket)
    requires Remembers(ssrc, seen, history) && |history| <= 256 && o.audio
    requires p.ssrc == ssrc && p.number == Some(o.number % 0x1_0000)
    ensures Remembers(ssrc, Noted(seen, p), Staying(history) + [o])
  {
    hide TagsOf;
    var older: seq<Tag> :| seen == older + TagsOf(ssrc, history);
    TagsNext(ssrc, Staying(history), o);
    TagsNext(ssrc, history, o);
    var all := seen + [TagOf(ssrc, o)];
    var tags, kept := TagsOf(ssrc, history), TagsOf(ssrc, Staying(history));
    KeptTags(ssrc, history);
    if |all| > 256 {
      if older == [] {
        AllAreAudio(ssrc, history);
        assert all[1..] == [] + (kept + [TagOf(ssrc, o)]);
      } else {
        assert all[1..] == (older[1..] + tags[..|tags| - |kept|]) + (kept + [TagOf(ssrc, o)]);
      }
    } else {
      assert all == (older + tags[..|tags| - |kept|]) + (kept + [TagOf(ssrc, o)]);
    }
  }

  lemma KeptTags(ssrc: nat, history: seq<Observation>)
    requires |history| <= 256
    ensures var tags, kept := TagsOf(ssrc, history), TagsOf(ssrc, Staying(history));
            |kept| <= |tags| && kept == tags[|tags| - |kept|..]
  {
    if |history| == 256 {
      TagsWithoutFirst(ssrc, history);
    }
    hide TagsOf;
  }

  lemma AllAreAudio(ssrc: nat, history: seq<Observation>)
    requires |TagsOf(ssrc, history)| == 256 && |history| <= 256
    ensures TagsOf(ssrc, Staying(history)) == TagsOf(ssrc, history)[1..]
  {
    hide TagsOf;
    TagsWithoutFirst(ssrc, history);
  }

  /** A report may push out the oldest observation; the filter then remembers more than the history. */
  lemma RemembersReport(ssrc: nat, seen: seq<Tag>, history: seq<Observation>, o: Observation)
    requires Remembers(ssrc, seen, history) && |history| <= 256 && !o.audio
    ensures Remembers(ssrc, seen, Staying(history) + [o])
  {
    hide TagsOf;
    var older: seq<Tag> :| seen == older + TagsOf(ssrc, history);
    TagsNext(ssrc, Staying(history), o);
    KeptTags(ssrc, history);
    var tags, kept := TagsOf(ssrc, history), TagsOf(ssrc, Staying(history));
    assert seen == (older + tags[..|tags| - |kept|]) + TagsOf(ssrc, Staying(history) + [o]);
  }

  lemma RemembersSameKeys(ssrc: nat, seen: seq<Tag>, h: seq<Observation>, h': seq<Observation>)
    requires Remembers(ssrc, seen, h) && SameKeys(h, h')
    ensures Remembers(ssrc, seen, h')
  {
    TagsOfSameKeys(ssrc, h, h');
  }

  lemma {:induction false} ReportsKeepTracked(f: Format, span: nat, s: Intake, reports: seq<Report>, s': Intake)
    requires Tracked(s) && s.ssrc.Some? && ReportsPlaced(f, span, s, reports, s') && forall r :: r in reports ==> !r.audio
    ensures Tracked(s')
    decreases |reports|
  {
    hide UniqueAudio, Place, AllMove, Remembers;
    if reports != [] {
      var r := reports[0];
      var m :| ReportPlaced(f, span, s, r, m) && ReportsPlaced(f, span, m, reports[1..], s');
      ReportIsPlaced(f, span, s, r, m);
      PlaceRecords(f, s.clock, r);
      PlaceKeepsUniqueIff(f, s.clock, r);
      ObservedIs(f, s.clock, r);
      var placed := Place(f, s.clock, r).clock.history;
      hide ReportPlaced, PlaceStep, IsRecorded, Observed, Staying;
      if IsRecorded(f, s.clock, r) {
        RemembersReport(s.ssrc.value, s.seen, s.clock.history, Observed(f, s.clock, r));
      }
      RemembersSameKeys(s.ssrc.value, s.seen, placed, m.clock.history);
      SameReceiver(f, span, s, r, m);
      ReportsKeepTracked(f, span, m, reports[1..], s');
    }
  }

  lemma SameReceiver(f: Format, span: nat, s: Intake, r: Report, s': Intake)
    requires ReportPlaced(f, span, s, r, s')
    ensures s'.ssrc == s.ssrc && s'.seen == s.seen
  {
    hide PlaceStep;
  }

  lemma AudioKeepsTracked(f: Format, span: nat, s: Intake, p: AudioPacket, s': Intake)
    requires Tracked(s) && MediaReceiver.AudioStep(f, span, s, p, s') && !IsDuplicate(s, p) && p.decoded.Some?
    requires Recordable(s, AudioWire(p))
    ensures Tracked(s')
  {
    var c, r := if s.ssrc == Some(p.ssrc) then s.clock else Unset, AudioReport(s, p);
    AudioKeepsApartIff(f, span, s, p, s');
    if s.ssrc == Some(p.ssrc) {
      PassedIsNew(s, p);
    } else {
      NothingIsRemembered(p.ssrc, s.seen);
    }
    assert forall o :: o in c.history && o.audio ==> o.number != SeqOf(c, r);
    assert s'.ssrc == Some(p.ssrc) && s'.seen == Noted(s.seen, p);
    assert |Noted(s.seen, p)| <= 256;
    hide SeqOf, StampOf, UniqueAudio, Place, Remembers, Conflicts, MediaReceiver.AudioStep, OldestSeq, Noted, ClockEpochs.Extend;
    NewIsRecorded(f, c, r);
    PlaceRecords(f, c, r);
    ObservedIs(f, c, r);
    NumberOnTheWire(c, r);
    RemembersNext(p.ssrc, s.seen, c.history, Observed(f, c, r), p);
  }

  lemma NothingIsRemembered(ssrc: nat, seen: seq<Tag>)
    requires |seen| <= 256
    ensures Remembers(ssrc, seen, [])
  {
    assert seen == seen + TagsOf(ssrc, []);
  }

  /** Over a run in which what is played can be recorded, recorded audio stays apart: duplicates never get through. */
  lemma {:induction false} AlwaysTracked(f: Format, span: nat, states: seq<Intake>, wires: seq<Wire>, n: nat)
    requires IsRun(f, span, states, wires) && n < |states|
    requires forall i :: 0 <= i < n ==> Recordable(states[i], wires[i])
    ensures Tracked(states[n]) && UniqueAudio(states[n].clock.history) && |states[n].clock.history| <= 256
  {
    hide UniqueAudio, Recordable, ReportsPlaced, MediaReceiver.AudioStep, Remembers;
    if n == 0 {
      StartIsApart(f, span, states, wires);
    } else {
      AlwaysTracked(f, span, states, wires, n - 1);
      var s, w, s' := states[n - 1], wires[n - 1], states[n];
      assert Taken(f, span, s, w, s') && Recordable(s, w);
      StepKeepsTracked(f, span, s, w, s');
    }
  }

  lemma StepKeepsTracked(f: Format, span: nat, s: Intake, w: Wire, s': Intake)
    requires Tracked(s) && Taken(f, span, s, w, s') && Recordable(s, w)
    ensures Tracked(s')
  {
    hide Tracked, Recordable;
    match w
    case AudioWire(p) =>
      if !IsDuplicate(s, p) && p.decoded.Some? {
        AudioKeepsTracked(f, span, s, p, s');
      }
    case EventWire(m) =>
      hide ReportsPlaced;
      var reports := EventReports(m.payload, 0, m.timestamp, Some(m.sequence));
      EventReportsAreReports(m.payload, 0, m.timestamp, Some(m.sequence));
      if s.ssrc == Some(m.ssrc) && ReportsPlaced(f, span, s, reports, s') {
        ReportsKeepTracked(f, span, s, reports, s');
      }
  }
}
