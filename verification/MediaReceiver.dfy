/**
 Audio packets and telephone-event packets as RTPClient takes them in: duplicates are dropped, timestamps are
 extended past 32 bits, a new source replaces the old one, and everything is placed on one PCM timeline.
 */
module MediaReceiver {
  import opened Bytes
  import opened ReceiveTimeline
  import opened ClockEpochs
  import opened DtmfClient
  import J = JitterBuffer
  import R = Rtp
  import D = Dtmf

  type Tag = (nat, nat)

  /** A parsed audio packet; `decoded` is what its codec makes of the payload, None when that fails. */
  datatype AudioPacket = AudioPacket(ssrc: nat, number: Option<nat>, timestamp: nat, rate: Rate, decoded: Option<seq<byte>>)

  /** The receiving fields of RTPClient; `seen` are the latest 256 packets that were played, oldest first. */
  datatype Intake = Intake(ssrc: Option<nat>, high: Option<int>, seen: seq<Tag>, clock: Clock, jitter: J.Jitter)

  /** Remember a packet that has been played. */
  function Noted(seen: seq<Tag>, p: AudioPacket): seq<Tag> {
    if p.number.None? then seen
    else
      var all := seen + [(p.ssrc, p.number.value)];
      if |all| > KEPT then all[1..] else all
  }

  predicate IsDuplicate(s: Intake, p: AudioPacket) {
    p.number.Some? && (p.ssrc, p.number.value) in s.seen
  }

  function HighOf(s: Intake, p: AudioPacket): Option<int> {
    if s.ssrc == Some(p.ssrc) then s.high else None
  }

  function AudioReport(s: Intake, p: AudioPacket): Report {
    Report(Extend(HighOf(s, p), p.timestamp), p.rate, p.number, true, None)
  }

  /** `parse_audio`: a packet that does not decode, or is a duplicate, changes nothing. */
  ghost predicate AudioStep(f: Format, span: nat, s: Intake, p: AudioPacket, s': Intake) {
    if IsDuplicate(s, p) || p.decoded.None? then s' == s
    else
      var high, r := HighOf(s, p), AudioReport(s, p);
      && s'.ssrc == Some(p.ssrc) && s'.seen == Noted(s.seen, p)
      && s'.high == (if high.Some? && r.stamp <= high.value then s.high else Some(r.stamp))
      && if s.ssrc == Some(p.ssrc)
         then AudioPlaced(f, span, s, r, p.decoded.value, s')
         else Replaced(f, r, p.decoded.value, s')
  }

  /** Audio of the source that is playing. */
  ghost predicate AudioPlaced(f: Format, span: nat, s: Intake, r: Report, data: seq<byte>, s': Intake) {
    exists offset :: PlaceStep(f, span, s.clock, s.jitter, r, offset, s'.clock, s.jitter)
                     && J.WriteStep(s.jitter, span, J.Packet(offset, data), s'.jitter)
  }

  /** The first audio of a new source: the timeline starts over, and what the old source had queued is gone. */
  ghost predicate Replaced(f: Format, r: Report, data: seq<byte>, s': Intake) {
    var p := Place(f, Unset, r);
    s'.clock == p.clock && s'.jitter == J.Fresh(p.offset, data)
  }

  /** The reports of an event packet, as the timeline is told of them. */
  function EventReports(payload: seq<byte>, i: nat, timestamp: nat, number: Option<nat>): seq<Report>
    decreases |payload| - i
  {
    if i + 4 > |payload| then []
    else
      [Report(timestamp, EVENT_RATE, number, false, if EndAt(payload, i) then Some(DurationAt(payload, i)) else None)]
      + EventReports(payload, i + 4, (timestamp + DurationAt(payload, i)) % D.WRAP, number)
  }

  /** Each report in turn is placed on the timeline. */
  ghost predicate ReportsPlaced(f: Format, span: nat, s: Intake, reports: seq<Report>, s': Intake)
    decreases |reports|
  {
    if reports == [] then s' == s
    else exists m :: ReportPlaced(f, span, s, reports[0], m) && ReportsPlaced(f, span, m, reports[1..], s')
  }

  ghost predicate ReportPlaced(f: Format, span: nat, s: Intake, r: Report, s': Intake) {
    && s' == s.(clock := s'.clock, jitter := s'.jitter)
    && exists offset :: PlaceStep(f, span, s.clock, s.jitter, r, offset, s'.clock, s'.jitter)
  }

  /** `parse_telephone_event`, as far as the timeline is concerned: only events of the playing source are placed. */
  ghost predicate EventStep(f: Format, span: nat, s: Intake, m: R.Message, s': Intake) {
    if Check(m.payload).Some? || s.ssrc != Some(m.ssrc) then s' == s
    else ReportsPlaced(f, span, s, EventReports(m.payload, 0, m.timestamp, Some(m.sequence)), s')
  }

  datatype Wire = AudioWire(packet: AudioPacket) | EventWire(message: R.Message)

  /** One packet off the wire. */
  ghost predicate Taken(f: Format, span: nat, s: Intake, w: Wire, s': Intake) {
    match w
    case AudioWire(p) => AudioStep(f, span, s, p, s')
    case EventWire(m) => EventStep(f, span, s, m, s')
  }

  // ------------------------------------------------------------------ the client

  datatype ReceiveError = DecodeFailed | BadEvent(error: EventError)

  class Receiver {
    const format: Format
    const pmin: J.PacketManager
    const timeline: Timeline
    const events: EventReceiver
    var receiveSsrc: Option<nat>
    var receiveTimestamp: Option<int>
    var sequences: set<Tag>
    var sequenceOrder: seq<Tag>

    ghost predicate Valid()
      reads this, pmin, timeline, events
    {
      && timeline.pmin == pmin && timeline.format == format
      && pmin.Valid() && events.Valid()
      && SeenOk()
    }

    ghost predicate SeenOk()
      reads this
    {
      && |sequenceOrder| <= KEPT && (forall i, j :: 0 <= i < j < |sequenceOrder| ==> sequenceOrder[i] != sequenceOrder[j])
      && (forall k :: k in sequences <==> k in sequenceOrder)
    }

    ghost function View(): Intake
      reads this, pmin, timeline
    {
      Intake(receiveSsrc, receiveTimestamp, sequenceOrder, timeline.View(), pmin.View())
    }

    constructor (format: Format, maxLogSpan: nat, silence: byte, listening: bool)
      ensures Valid() && fresh(pmin) && fresh(timeline) && fresh(events)
      ensures this.format == format && pmin.maxLogSpan == maxLogSpan && events.listening == listening
      ensures View().ssrc == None && View().seen == [] && events.View() == D.Heard([], map[], [])
    {
      var manager := new J.PacketManager(maxLogSpan, silence);
      var clock := new Timeline(format, manager);
      var receiver := new EventReceiver(listening);
      this.format, pmin, timeline, events := format, manager, clock, receiver;
      receiveSsrc, receiveTimestamp, sequences, sequenceOrder := None, None, {}, [];
    }

    /** One audio packet. */
    method ParseAudio(p: AudioPacket) returns (r: R.Result<(), ReceiveError>)
      requires Valid()
      modifies this, pmin, timeline
      ensures Valid()
      ensures AudioStep(format, pmin.maxLogSpan, old(View()), p, View())
      ensures r == if !IsDuplicate(old(View()), p) && p.decoded.None? then R.Err(DecodeFailed) else R.Ok(())
    {
      hide PlaceStep, J.WriteStep, J.PacketManager.Valid, J.PacketManager.View, Timeline.View, Extend, EventReceiver.Valid;
      if p.number.Some? && (p.ssrc, p.number.value) in sequences {
        return R.Ok(());
      }
      var sameSource := receiveSsrc == Some(p.ssrc);
      var previous := if sameSource then receiveTimestamp else None;
      var timestamp := Extend(previous, p.timestamp);
      if p.decoded.None? {
        return R.Err(DecodeFailed);
      }
      if !sameSource {
        receiveSsrc := Some(p.ssrc);
        timeline.Reset();
      }
      PlayAudio(Report(timestamp, p.rate, p.number, true, None), p.decoded.value, sameSource);
      if previous.None? || timestamp > previous.value {
        receiveTimestamp := Some(timestamp);
      }
      if p.number.Some? {
        NotePlayed((p.ssrc, p.number.value));
      }
      return R.Ok(());
    }

    /** Place one packet's PCM, starting over for a new source. */
    method PlayAudio(r: Report, data: seq<byte>, sameSource: bool)
      requires Valid() && r.audio && (!sameSource ==> timeline.View() == Unset)
      modifies pmin, timeline
      ensures Valid() && View() == old(View()).(clock := timeline.View(), jitter := pmin.View())
      ensures sameSource ==> AudioPlaced(format, pmin.maxLogSpan, old(View()), r, data, View())
      ensures !sameSource ==> Replaced(format, r, data, View())
    {
      hide J.WriteStep, J.PacketManager.Valid, J.PacketManager.View, Timeline.View, RepairStep, EventReceiver.Valid, SeenOk;
      var offset := timeline.ReceiveMediaOffset(r);
      AudioAsksNoRepair(format, pmin.maxLogSpan, old(timeline.View()), old(pmin.View()), r, offset, timeline.View(), pmin.View());
      hide PlaceStep, Place;
      if sameSource {
        pmin.Write(offset, data);
      } else {
        pmin.Rebuild(true, offset, data);
      }
    }

    /** Keep a packet among the latest 256 played. */
    method NotePlayed(tag: Tag)
      requires SeenOk() && tag !in sequences
      modifies this`sequences, this`sequenceOrder
      ensures SeenOk()
      ensures sequenceOrder == (var all := old(sequenceOrder) + [tag]; if |all| > 256 then all[1..] else all)
    {
      assert forall k :: k in sequenceOrder + [tag] <==> k in sequences + {tag};
      sequences := sequences + {tag};
      sequenceOrder := sequenceOrder + [tag];
      if |sequenceOrder| > KEPT {
        WithoutFirst(sequenceOrder, sequences);
        sequences := sequences - {sequenceOrder[0]};
        sequenceOrder := sequenceOrder[1..];
      }
    }

    /** One telephone-event packet. */
    method ParseTelephoneEvent(m: R.Message) returns (r: R.Result<(), ReceiveError>)
      requires Valid()
      modifies pmin, timeline, events
      ensures Valid()
      ensures EventStep(format, pmin.maxLogSpan, old(View()), m, View())
      ensures events.View() == if events.listening then Hear(old(events.View()), m) else old(events.View())
      ensures r == match Check(m.payload) case None => R.Ok(()) case Some(e) => R.Err(BadEvent(e))
    {
      if |m.payload| < 4 {
        return R.Err(BadEvent(TooFew));
      }
      if |m.payload| % 4 != 0 {
        return R.Err(BadEvent(PartialReport));
      }
      var known := CodesKnown(m.payload);
      if !known {
        return R.Err(BadEvent(UnsupportedCode));
      }
      PlaceReports(m);
      return R.Ok(());
    }

    /** Validate every report before acting on any. */
    method CodesKnown(payload: seq<byte>) returns (known: bool)
      requires |payload| % 4 == 0
      ensures known <==> forall k :: 0 <= k < |payload| && k % 4 == 0 ==> payload[k] < 16
    {
      var i := 0;
      while i < |payload|
        invariant 0 <= i <= |payload| && i % 4 == 0
        invariant forall k :: 0 <= k < i && k % 4 == 0 ==> payload[k] < D.CODES
      {
        if payload[i] >= D.CODES {
          return false;
        }
        i := i + 4;
      }
      return true;
    }

    /** The reports of a packet, each where the one before it ended. */
    method PlaceReports(m: R.Message)
      requires Valid()
      modifies pmin, timeline, events
      ensures Valid()
      ensures receiveSsrc != Some(m.ssrc) ==> View() == old(View())
      ensures receiveSsrc == Some(m.ssrc) ==>
                ReportsPlaced(format, pmin.maxLogSpan, old(View()), EventReports(m.payload, 0, m.timestamp, Some(m.sequence)), View())
      ensures events.View() == if events.listening then HearFrom(old(events.View()), m.payload, 0, m.ssrc, m.timestamp, m.marker)
                               else old(events.View())
    {
      hide PlaceStep, J.PacketManager.Valid, J.PacketManager.View, Timeline.View, D.Receive, EventReceiver.Valid, SeenOk;
      var i: nat, timestamp: nat, marker := 0, m.timestamp, m.marker;
      var packed := |m.payload| > 4;
      while i + 4 <= |m.payload|
        invariant 0 <= i && Valid()
        invariant receiveSsrc != Some(m.ssrc) ==> View() == old(View())
        invariant receiveSsrc == Some(m.ssrc) ==>
                    forall s :: ReportsPlaced(format, pmin.maxLogSpan, View(), EventReports(m.payload, i, timestamp, Some(m.sequence)), s) ==>
                                  ReportsPlaced(format, pmin.maxLogSpan, old(View()), EventReports(m.payload, 0, m.timestamp, Some(m.sequence)), s)
        invariant events.listening ==>
                    HearFrom(events.View(), m.payload, i, m.ssrc, timestamp, marker) == HearFrom(old(events.View()), m.payload, 0, m.ssrc, m.timestamp, m.marker)
        invariant !events.listening ==> events.View() == old(events.View())
        decreases |m.payload| - i
      {
        PlaceReport(m, i, timestamp);
        events.Report(m.payload[i..i + 4], m.ssrc, timestamp, marker, packed);
        timestamp := (timestamp + DurationAt(m.payload, i)) % D.WRAP;
        marker := EndAt(m.payload, i);
        i := i + 4;
      }
    }

    /** One report, told to the timeline if its source is playing. */
    method PlaceReport(m: R.Message, i: nat, timestamp: nat)
      requires Valid() && i + 4 <= |m.payload|
      modifies pmin, timeline
      ensures Valid()
      ensures if receiveSsrc == Some(m.ssrc)
              then ReportPlaced(format, pmin.maxLogSpan, old(View()), EventReports(m.payload, i, timestamp, Some(m.sequence))[0], View())
              else View() == old(View())
    {
      hide PlaceStep, J.PacketManager.Valid, J.PacketManager.View, Timeline.View, EventReceiver.Valid, SeenOk;
      if receiveSsrc == Some(m.ssrc) {
        var duration := if EndAt(m.payload, i) then Some(DurationAt(m.payload, i)) else None;
        var offset := timeline.ReceiveMediaOffset(Report(timestamp, EVENT_RATE, Some(m.sequence), false, duration));
      }
    }
  }

  lemma AudioAsksNoRepair(f: Format, span: nat, c: Clock, j: J.Jitter, r: Report, offset: int, c': Clock, j': J.Jitter)
    requires r.audio && PlaceStep(f, span, c, j, r, offset, c', j')
    ensures j' == j && c' == Place(f, c, r).clock && offset == Place(f, c, r).offset
  {
    hide RepairStep, RepairSeq, OldestSeq, EpochsWith, EpochFor;
  }
}
