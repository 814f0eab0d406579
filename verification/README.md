# rfcvoip, verified

A model of the media path of rfcvoip, and of the four protocol cores around it, in Dafny 4.11, with proofs.
`dafny verify dfyconfig.toml` checks all of it.

## What is modelled

**Receiving.** `JitterBuffer` is the receive buffer: a byte stream with a position, a log of visible intervals and a
moving origin, edited in place. A ghost map from absolute offset to byte says what a listener will hear; every method
states what it does to that map. `Playout` proves what follows over whole runs: the last writer wins, silence in
holes, nothing heard twice, and exactly when the log loses bytes that have not been read. `ReceiveTimeline` maps RTP
timestamps onto one PCM timeline across clock changes and repairs that map when a telephone-event turns out to be late;
`ClockEpochs` and `LateEvents` prove what that means for offsets and for a repair. `FrameBuffer`, `ArrivalOrder`,
`LateReport`, `AnyOrder`, `OrderMatters` and `Overtaken` prove where every order of arrival puts the audio and exactly
when the order does not matter. `MediaReceiver` takes packets off the wire; `IntakeHistory` and `WireOrder` carry the results to its runs.

**Sending.** `SendQueue` is the queue of outgoing PCM. `SendEffects` says what each read and write does in frames, bytes
and times; `SendRuns` proves conservation, order, sample alignment and the realtime bounds over whole runs.

**Telephone events.** `Rtp` is the wire format (section 5.1 of RFC 3550) and `RtpLayout` its packets byte by byte.
`Dtmf`, `DtmfDelivery`, `DtmfClient` and `DtmfPackets` follow digits from the sender's segments through the wire to the receiver's callback (section 2.5.1.3 of RFC 4733).

**Around it.** `StreamFraming`, `FramingRuns`, `RenderedMessages` and `FramingErrors`: SIP messages on a byte stream.
`DigestParams`, `DigestPrinting`, `DigestLayout`, `DigestOffers`, `Digest`, `DigestChoice`, `DigestRoundTrip` and
`DigestVerify`: digest credentials. `InviteCache`: final INVITE responses. `PortPool` and `PortOwners`: RTP ports.
`CallState` and `CallRuns`: one call. `RunGenerations` and `RunOutcomes`: runs of the SIP client. `Notify`,
`NotifyEffects` and `NotifyRuns`: NOTIFY requests. `Bytes` holds octets and optional values, `Dated` the histories of the caches.

Code that changes objects is a class whose methods do the same, each tied to a function or relation on values;
theorems are lemmas about those. Where threads meet, a step is what one thread does under a lock, and the theorems
hold for every interleaving of the steps.

## Conditions that the proofs found

- The log of the jitter buffer can lose bytes that have not been read: a write that ends inside an interval more than
  the span after the origin splits off a tail there, and a later cutoff is measured from that tail
  (`TailDriftCutsUnreadBytes`). `WriteKeepsLogIff`, `WithinSpanCutsNothing` and `WithinSpanKeptIff` say exactly when.
- Every order of arrival leaves the same PCM if and only if no report of the event arrives, or an end report sent after
  resumed audio does, or all resumed packets imply one displacement (`OrderIsIrrelevantIff`): so always when an end report arrives and audio resumes at or after the end
  (`AfterTheEndAlike`), or when the audio clock runs at 8000 Hz (`SameRateAlike`), but not otherwise
  (`WithoutEndReportOrderMatters`, `ResumedTooSoonOrderMatters`). The streams described have plain reports before end reports
  in sequence, end reports also after resumed audio that was captured after the event's start (then with a sequence number
  between the audio before the event and the resumed audio, as the reports before took), no audio stamped across the
  event's start, at most 256 packets within half a wrap, frames that do not overlap, and room within the span for every
  displacement that the packets allow on the way. No report overtakes resumed audio that was sent before it: when all do,
  that audio is not displaced, which is right if and only if the event displaces it by nothing (`OvertakenInPlaceIff`,
  `OvertakenStays`).
- A late repair tells recorded audio observations apart by sequence number, timestamp and rate. They are apart unless audio
  that is still recorded is played again at another offset (`PlaceKeepsUniqueIff`, `AlwaysApartIff`). The duplicate filter
  excludes that while the audio played is not older than all that is recorded (`AlwaysTracked`); audio that is older is
  noted by the filter but not recorded.
- Trimming the send queue can cut a sample when a frame is smaller than a sample (`TrimCutsSampleIff`,
  `SmallFramesCutSamples`).
- A NOTIFY whose response cannot be sent is applied again when it is repeated (`AppliedAgainIff`).
- A call that is finalized between reserving ports and recording them leaves them taken and owned by no one
  (`LateRecordLosesPorts`); `StepLosesIff` and `NoneIsEverLostIff` say exactly which steps do that.
- Built digest credentials with a qop verify only when the nonce count is eight hex digits (`VerifiesIff`). The hash is any
  function with lower-case hex digests; where a result says "only then" it names the texts that must not collide.

## Model

| member | source | states |
|---|---|---|
| `JitterBuffer.WriteStep` | rfcvoip/RTP.py:765-823 | One write on the plain map from absolute offset to byte: ignored (empty, played, or older than the span), a restart, or a merge; says the new cursor, origin, map and log |
| `JitterBuffer.ReadStep` | rfcvoip/RTP.py:691-704 | One read: the cursor moves by the length, what is before it is forgotten, nothing else changes |
| `JitterBuffer.ShiftStep` | rfcvoip/RTP.py:2254-2291 | One suffix shift: refused, or the logged bytes from the boundary on move by the correction and the cursor stays; when the result spans too much, only its end is kept and playout restarts there |
| `JitterBuffer.PacketManager.constructor` | rfcvoip/RTP.py:652-665 | A new buffer holds nothing and is not initialised |
| `JitterBuffer.PacketManager.Compact` | rfcvoip/RTP.py:678-689 | Consumed bytes go; cursor, unread bytes and every interval that still matters stay |
| `JitterBuffer.PacketManager.Take` | rfcvoip/RTP.py:694-698 | Reading past the end gives silence, and the position moves by the full length |
| `JitterBuffer.PacketManager.Read` | rfcvoip/RTP.py:691-704 | A negative length is refused and changes nothing; else as `ReadBytes` |
| `JitterBuffer.PacketManager.ReadBytes` | rfcvoip/RTP.py:694-704 | Returns the next `length` bytes of the map with silence in the holes, and is one `ReadStep`, whether or not it compacts |
| `JitterBuffer.PacketManager.Rebuild` | rfcvoip/RTP.py:706-739 | A reset holds one packet; a replay keeps the cursor, and the unread bytes become exactly the logged ones |
| `JitterBuffer.PacketManager.Render` | rfcvoip/RTP.py:718-735 | The replay loop: every logged byte at its offset from the origin on, silence between intervals |
| `JitterBuffer.PacketManager.Write` | rfcvoip/RTP.py:741-823 | One call is one `WriteStep`; the buffer stays within the span and the longest packet |
| `JitterBuffer.PacketManager.Insert` | rfcvoip/RTP.py:757-823 | The same, for the unplayed part of a packet |
| `JitterBuffer.PacketManager.Rewind` | rfcvoip/RTP.py:792-806 | A packet before the origin: reset when it is 100000 bytes before it, else replay |
| `JitterBuffer.PacketManager.Advance` | rfcvoip/RTP.py:807-823 | A packet at or after the origin: compacts, and restarts when it is still too far ahead |
| `JitterBuffer.PacketManager.Overlay` | rfcvoip/RTP.py:815-823 | Pads with silence up to the packet and overwrites: the map with the packet laid over it |
| `JitterBuffer.CarveOne` | rfcvoip/RTP.py:771-785 | One interval loses what is before the cutoff and what the packet covers |
| `JitterBuffer.Carve` | rfcvoip/RTP.py:767-785 | All intervals: what is left are pieces of the old ones, clear of the packet and not older than the cutoff |
| `JitterBuffer.PacketManager.ShiftUnreadSuffix` | rfcvoip/RTP.py:2254-2291 | One call is one `ShiftStep` |
| `JitterBuffer.ShiftOne` | rfcvoip/RTP.py:2264-2275 | What one logged interval becomes: the part before the boundary stays, the unread rest moves, nothing lands before the cursor |
| `JitterBuffer.ShiftLog` | rfcvoip/RTP.py:2263-2275 | The shifted log is made of exactly those parts |
| `JitterBuffer.ShiftsApart` | rfcvoip/RTP.py:2258-2262 | Parts of different intervals never overlap after a shift: what the refusal is for |
| `JitterBuffer.TrimLog` | rfcvoip/RTP.py:2280-2285 | The part of the shifted log from the cutoff on |
| `JitterBuffer.PacketManager.TrimTo` | rfcvoip/RTP.py:2276-2290 | Starting over from the trimmed log: unread bytes are the logged ones from the new origin on |
| `JitterBuffer.PacketManager.ValidIsWellKept` | rfcvoip/RTP.py:678-823 | Log and map agree: intervals are disjoint and say what will be heard from the cursor on |
| `Playout.BufferIsLastWriter` | rfcvoip/RTP.py:691-823 | Over any run of writes, reads and suffix shifts, from the cursor on the buffer has at each offset the byte of the last accepted packet to cover it, moved as the shifts have moved it, and nothing where there is none |
| `Playout.WriteOutcome` | rfcvoip/RTP.py:741-823 | The whole outcome of a write on any buffer, in plain terms: nothing left to play, or more than the span before the newest, changes nothing; the first packet, one 100000 bytes or more before the origin or more than the span past the cursor starts over alone; any other joins the unread bytes, and cursor, origin and log follow |
| `Playout.FreshAgrees` | rfcvoip/RTP.py:709-716 | A run starts so |
| `Playout.CursorNeverGoesBack` | rfcvoip/RTP.py:747-755 | Once playout has started, no packet and no suffix shift moves the cursor back |
| `Playout.ReadingStartsPlayout` | rfcvoip/RTP.py:691-704 | Any read of at least one byte starts playout: no later packet or shift moves the cursor back |
| `Playout.PlayoutIsUnbroken` | rfcvoip/RTP.py:691-704 | Over writes, reads and suffix shifts what is heard is one unbroken stretch of offsets, each with the byte the map had when it was read |
| `Playout.HeardInOne` | rfcvoip/RTP.py:691-704 | No offset is returned by two reads |
| `Playout.ReplayIsHarmlessIff` | rfcvoip/RTP.py:718-737 | A replay changes no unread byte if and only if every unread byte is still logged |
| `Playout.WriteKeepsLogIff` | rfcvoip/RTP.py:760-785 | A write keeps every unread byte logged if and only if it cuts none older than its cutoff |
| `Playout.WithinSpanCutsNothing` | rfcvoip/RTP.py:760-785 | While no logged interval starts more than the span after the origin, a write cuts none |
| `Playout.WithinSpanKeptIff` | rfcvoip/RTP.py:784-786 | A write leaves it so if and only if its end does not split an interval more than the span after the origin |
| `Playout.LogStaysComplete` | rfcvoip/RTP.py:741-823 | Over a run in which that holds, the log never loses an unread byte |
| `Playout.TailDriftCutsUnreadBytes` | rfcvoip/RTP.py:784-785 | Where it does not: a split tail lets a later cutoff cut bytes that have not been read |
| `Playout.DriftIsReached` | rfcvoip/RTP.py:741-823 | The buffer gets there by four writes |
| `ReceiveTimeline.Place` | rfcvoip/RTP.py:2034-2148 | Where a packet goes: unwrapped numbers, epoch, PCM offset, new high-water marks and history, and from where a late report asks for repair |
| `ReceiveTimeline.PlanRepair` | rfcvoip/RTP.py:2150-2241 | What a repair would do: the replayed epochs and one common correction, or nothing |
| `ReceiveTimeline.RepairStep` | rfcvoip/RTP.py:2150-2252 | The repair with its shift of the jitter buffer: all of it or nothing |
| `ReceiveTimeline.PlaceStep` | rfcvoip/RTP.py:2034-2148 | Placing a packet, with its repair |
| `ReceiveTimeline.Timeline.ReceiveMediaOffset` | rfcvoip/RTP.py:2034-2148 | One call is one `PlaceStep` |
| `ReceiveTimeline.Timeline.EnterEpoch` | rfcvoip/RTP.py:2067-2089 | The epochs after a packet: a first one, or a new one at the event's end or at the packet when the rate changes going forward |
| `ReceiveTimeline.Timeline.OffsetIn` | rfcvoip/RTP.py:2090-2109 | The offset from the epoch in force, or for late resumed audio from the later epoch of its rate |
| `ReceiveTimeline.Timeline.Advance` | rfcvoip/RTP.py:2110-2121 | High-water marks and the pending event end, going forward |
| `ReceiveTimeline.Timeline.Remember` | rfcvoip/RTP.py:2122-2148 | The observation is recorded once, and a late event report asks for repair from the earliest packet it speaks for |
| `ReceiveTimeline.Timeline.RepairLateEventClock` | rfcvoip/RTP.py:2150-2252 | One call is one `RepairStep` |
| `ReceiveTimeline.Timeline.ReplayObservations` | rfcvoip/RTP.py:2195-2236 | The replay loop is `ReplayAll` |
| `ReceiveTimeline.Timeline.ReplayTurn` | rfcvoip/RTP.py:2195-2236 | One turn is `ReplayOne`: it fails when audio would not move as one |
| `ReceiveTimeline.Timeline.CollectEnds` | rfcvoip/RTP.py:2161-2164 | The latest end known of each event |
| `ReceiveTimeline.EndsAreKnown` | rfcvoip/RTP.py:2161-2197 | An observation's own end is among the known ones, so falling back to it changes nothing |
| `ReceiveTimeline.Timeline.Reset` | rfcvoip/RTP.py:2350-2358 | A new source forgets the old timeline |
| `ClockEpochs.UnwrapRecovers` | rfcvoip/RTP.py:2043-2057 | Within half a modulus of the previous value a number is recovered from its low bits |
| `ClockEpochs.ExtendIsUnwrap` | rfcvoip/RTP.py:2319-2325 | Measuring from the low 32 bits of the high-water mark is the same unwrapping |
| `ClockEpochs.TimelineIsRecovered` | rfcvoip/RTP.py:2316-2325 | Over a whole run, under any reordering and any number of wraps, the extended timestamps are the true ones while each is within 2^31 of the highest before it |
| `ClockEpochs.OffsetsNeverGoBack` | rfcvoip/RTP.py:2059-2109 | While unwrapped numbers do not go back neither do PCM offsets, across any number of clock changes; every offset is a whole number of PCM samples |
| `ClockEpochs.ClocksAgreeAtTransition` | rfcvoip/RTP.py:2075-2089 | At each clock change the old and the new clock give the same offset, at a moment between the previous packet and this one |
| `LateEvents.PlannedRepairMoves` | rfcvoip/RTP.py:2189-2252 | A repair moves every recorded audio observation from the repair point on by one common non-zero amount, and no other |
| `LateEvents.RepairIsAllOrNothing` | rfcvoip/RTP.py:2150-2291 | Either nothing changes, or exactly those observations and exactly the logged unread bytes from the first of them, in sending order, on move by that amount, and the cursor stays |
| `LateEvents.RepairKeepsUnique` | rfcvoip/RTP.py:2241-2252 | A repair keeps the audio observations of the history apart |
| `LateEvents.PlaceKeepsUniqueIff` | rfcvoip/RTP.py:2122-2148 | Placing a packet does so if and only if it does not record again, at another offset, audio that is still recorded |
| `LateEvents.RepairAskedIff` | rfcvoip/RTP.py:2122-2148 | A repair is asked for exactly by a report behind what went forward, while an observation at or before the place to repair from is kept; a packet is recorded exactly when none, or one at or before it, is |
| `IntakeHistory.ReportIsPlaced` | rfcvoip/RTP.py:2464-2494 | Each report of an event packet: its repair is all or nothing, and the audio observations stay apart |
| `IntakeHistory.AlwaysApartIff` | rfcvoip/RTP.py:2293-2378 | Over a run of the receiver the recorded audio observations are apart all along if and only if it never plays recorded audio at another offset |
| `IntakeHistory.PassedIsNew` | rfcvoip/RTP.py:2298-2304 | What the duplicate filter lets through is not among the recorded audio |
| `IntakeHistory.AlwaysTracked` | rfcvoip/RTP.py:2293-2378 | So they are apart over every run in which the audio played has sequence numbers and is not older than all that is recorded: the filter remembers whatever audio the history does |
| `FrameBuffer.WriteAddsFrame` | rfcvoip/RTP.py:741-823 | With nothing read, a frame that overlaps none and lies within the span is added, and the others stay |
| `FrameBuffer.RewindAddsFrame` | rfcvoip/RTP.py:788-801 | Before playout a frame less than 100000 bytes before the origin, within the span of the newest, moves the origin back and keeps every queued frame |
| `FrameBuffer.FrameOutcome` | rfcvoip/RTP.py:741-823 | What becomes of a frame that overlaps none: dropped more than the span before the newest; left alone 100000 bytes or more before the origin or more than the span past it; else added, the origin moving back to it when it comes before |
| `FrameBuffer.ShiftIsAccepted` | rfcvoip/RTP.py:2258-2279 | A shift that moves no frame over another is accepted and fits |
| `FrameBuffer.ShiftMovesFrames` | rfcvoip/RTP.py:2254-2291 | It moves exactly the frames from the boundary on |
| `FrameBuffer.FrameIsWritten` | rfcvoip/RTP.py:741-823 | There is a buffer with the frame added: the write can be made |
| `ArrivalOrder.AudioStep` | rfcvoip/RTP.py:2034-2148 | Audio, in order or late, keeps timeline and displacement consistent |
| `ArrivalOrder.EventForward` | rfcvoip/RTP.py:2067-2121 | So does an event report going forward |
| `ArrivalOrder.FirstResumedPlaced` | rfcvoip/RTP.py:2075-2109 | The first resumed audio is placed by the event's end when it is known, else by itself |
| `LateReport.LateRepaired` | rfcvoip/RTP.py:2150-2252 | A late report, or an end report sent after resumed audio, leaves the timeline as if the event had been known in time |
| `LateReport.LateUnrepaired` | rfcvoip/RTP.py:2237-2238 | When it asks for no correction the timeline was right already |
| `LateReport.RepairSeqIsLeast` | rfcvoip/RTP.py:2128-2142 | Where a repair starts: the least of the report itself, the recorded reports of its event, and the place before each recorded audio captured after the event began |
| `LateReport.RepairStartsAtEvent` | rfcvoip/RTP.py:2125-2148 | Past all audio sent before the event and before all resumed audio: at the earliest report seen, or just before the resumed audio when an end report was sent after it |
| `LateReport.ReplayIsHeaded` | rfcvoip/RTP.py:2150-2190 | What is replayed starts with a report at that place, put in when none was seen there, and holds all reports and resumed audio in turn |
| `AnyOrder.AlwaysGood` | rfcvoip/RTP.py:2034-2291 | After every arrival, in any order, timeline and buffer agree on one displacement of the resumed audio that the packets so far allow |
| `AnyOrder.EveryOrderEndsInPlace` | rfcvoip/RTP.py:2034-2291 | In any order of arrival every frame lies at the offset its own timestamp gives it, the resumed ones displaced as one resumed packet implies (the earliest, when an end report was sent after resumed audio; not at all without a report), and nothing else is in the buffer |
| `OrderMatters.OrderIsIrrelevantIff` | rfcvoip/RTP.py:2034-2291 | All orders of arrival of the same packets leave the same PCM and cursor if and only if there is no report among them, or an end report sent after resumed audio, or all resumed packets imply one displacement, by taking over at the reported end when it is not after them, else at themselves |
| `OrderMatters.OrdersDiffer` | rfcvoip/RTP.py:2075-2089 | Two resumed packets that imply different displacements: which comes first can be heard |
| `OrderMatters.OrderLedBy` | rfcvoip/RTP.py:2075-2089 | For each resumed packet some order leads to the displacement it implies |
| `Overtaken.LostReportsAreRepaired` | rfcvoip/RTP.py:2166-2187 | The first reports lost and the end report repeated after the resumed audio: the audio moves from offset 453, where it was placed, to 1120, where the event puts it |
| `Overtaken.OvertakenInPlaceIff` | rfcvoip/RTP.py:2128-2148 | Resumed audio that all reports have overtaken ends up where the event wants it if and only if the event displaces it by nothing: no repair is asked for |
| `Overtaken.OvertakenStays` | rfcvoip/RTP.py:2128-2148 | In the same stream with the end report overtaking it, the audio stays at 453 |
| `OrderMatters.AfterTheEndAlike` | rfcvoip/RTP.py:2078-2084 | With an end report, audio stamped at or after the end implies one displacement |
| `OrderMatters.SameRateAlike` | rfcvoip/RTP.py:2075-2089 | So does any audio whose clock runs at 8000 Hz |
| `OrderMatters.WithoutEndReportOrderMatters` | rfcvoip/RTP.py:2075-2089 | A stream with room for every frame and no end report, which two orders leave different |
| `OrderMatters.ResumedTooSoonOrderMatters` | rfcvoip/RTP.py:2078-2084 | And one with an end report but audio stamped before the end |
| `WireOrder.WireOrderEndsInPlace` | rfcvoip/RTP.py:2293-2378 | The same from the wire, with 16-bit sequence numbers, 32-bit timestamps, duplicate filter and source switch, packets reordered and repeated: every frame is in its place |
| `WireOrder.WireOrderDoesNotMatter` | rfcvoip/RTP.py:2293-2378 | Two such runs of the same packets leave the same PCM when there is no report, or an end report sent after resumed audio, or all resumed packets imply one displacement |
| `WireOrder.AudioTaken` | rfcvoip/RTP.py:2293-2378 | Audio off the wire is placed with its true sequence number and timestamp |
| `WireOrder.RepeatDropped` | rfcvoip/RTP.py:2298-2304 | Audio that comes again changes nothing |
| `WireOrder.EventTaken` | rfcvoip/RTP.py:2481-2494 | An event packet, new or repeated, is placed with its report's end and duration |
| `WireOrder.FirstTaken` | rfcvoip/RTP.py:2350-2366 | The first packet of a new source starts timeline and buffer over |
| `MediaReceiver.AudioStep` | rfcvoip/RTP.py:2293-2378 | `parse_audio`: a duplicate or a packet that does not decode changes nothing; else it is placed and noted, a new source replacing the old one |
| `MediaReceiver.EventStep` | rfcvoip/RTP.py:2464-2494 | `parse_telephone_event` on the timeline: each report in turn, for the playing source only |
| `MediaReceiver.Receiver.ParseAudio` | rfcvoip/RTP.py:2293-2378 | One call is one `AudioStep` |
| `MediaReceiver.Receiver.PlayAudio` | rfcvoip/RTP.py:2350-2368 | The PCM goes where the timeline says; a new source rebuilds the buffer |
| `MediaReceiver.Receiver.NotePlayed` | rfcvoip/RTP.py:2371-2378 | The latest 256 packets played, no more |
| `MediaReceiver.Receiver.ParseTelephoneEvent` | rfcvoip/RTP.py:2464-2503 | One call is one `EventStep`, and the callback hears its reports; a bad payload changes nothing |
| `MediaReceiver.Receiver.CodesKnown` | rfcvoip/RTP.py:2474-2479 | Every report is validated before any is acted on |
| `MediaReceiver.Receiver.PlaceReports` | rfcvoip/RTP.py:2481-2503 | Consecutive reports, each where the one before it ended |
| `MediaReceiver.AudioAsksNoRepair` | rfcvoip/RTP.py:2122-2148 | Audio never triggers a repair |
| `SendQueue.AudioOutput.constructor` | rfcvoip/RTP.py:946-965 | An empty queue, not primed |
| `SendQueue.AudioOutput.Configure` | rfcvoip/RTP.py:967-986 | Sizes follow from the times; what no longer fits is dropped |
| `SendQueue.AudioOutput.EnableRealtime` | rfcvoip/RTP.py:988-1010 | Realtime mode starts priming over, or is refused when the times make no sense |
| `SendQueue.AudioOutput.Take` | rfcvoip/RTP.py:1012-1022 | The first bytes of the queue, in order, across chunks |
| `SendQueue.AudioOutput.Trim` | rfcvoip/RTP.py:1024-1045 | The oldest bytes go, in whole samples, until the rest fits |
| `SendQueue.AudioOutput.Write` | rfcvoip/RTP.py:1047-1062 | The skip takes its part, the rest is queued and trimmed |
| `SendQueue.AudioOutput.DropStale` | rfcvoip/RTP.py:1070-1077 | Exactly the stale prefix goes |
| `SendQueue.AudioOutput.Expire` | rfcvoip/RTP.py:1069-1086 | Stale bytes and the rest of the sample they break; what of that sample is not there yet is skipped later |
| `SendQueue.AudioOutput.Read` | rfcvoip/RTP.py:1064-1111 | Exactly `length` bytes: audio in whole samples, then silence |
| `SendQueue.AudioOutput.PrimeOrHold` | rfcvoip/RTP.py:1087-1101 | Realtime mode plays only when primed and with enough queued |
| `SendEffects.UnprimedRead` | rfcvoip/RTP.py:1067-1111 | A realtime read before priming hands out its bytes, in whole samples, if and only if after expiry they are queued and either the queue covers the prefill frames, or the most frames the latency allows, or its head is as old as the prefill time; else silence, and the queue stays |
| `SendEffects.PrimedRead` | rfcvoip/RTP.py:1067-1111 | A primed one needs only the bytes; without them it counts an underrun and has to be primed again |
| `SendEffects.DefaultRead` | rfcvoip/RTP.py:1102-1111 | Without realtime mode a read hands out what there is, at most `length`, in whole samples |
| `SendEffects.WriteEffect` | rfcvoip/RTP.py:1047-1062 | A write queues what the skip leaves, with its time, and a queue of more than the most frames the latency allows loses its head, the excess rounded up to whole samples |
| `SendQueue.AudioOutput.Deliver` | rfcvoip/RTP.py:1107-1111 | Whole samples from the head |
| `SendQueue.TrimFits` | rfcvoip/RTP.py:1024-1045 | Trimming leaves no more than the maximum |
| `SendRuns.EveryByteIsAccountedFor` | rfcvoip/RTP.py:967-1111 | Over any run: written = heard + dropped + expired + queued, each byte with one fate, and what is heard is the delivered bytes in the order written; a pending skip means an empty queue |
| `SendRuns.HeadStaysAligned` | rfcvoip/RTP.py:1024-1111 | With frames of at least one sample, the queue head is always on a sample boundary once the skip is counted |
| `SendRuns.TrimCutsSampleIff` | rfcvoip/RTP.py:1027-1031 | Exactly when a trim would cut a sample |
| `SendRuns.FrameOfSampleIsEnough` | rfcvoip/RTP.py:1027-1031 | Never, when a frame holds a sample |
| `SendRuns.SmallFramesCutSamples` | rfcvoip/RTP.py:1027-1031 | It can when a frame is smaller: a run that leaves the queue head mid-sample |
| `SendRuns.QueueInOrder` | rfcvoip/RTP.py:1047-1111 | Queued bytes are in the order of their times |
| `SendRuns.DeliveredIsFresh` | rfcvoip/RTP.py:1069-1111 | In realtime mode no delivered byte is older than the maximum latency |
| `SendRuns.QueueIsBounded` | rfcvoip/RTP.py:1024-1111 | In realtime mode the queue never exceeds its maximum |
| `Rtp.Build` | rfcvoip/RTP.py:1468-1494 | The 12 bytes of header and the payload; refused for a payload type out of range |
| `Rtp.Parse` | rfcvoip/RTP.py:862-935 | The fields of a packet, or which check it fails |
| `Rtp.ParseMessage` | rfcvoip/RTP.py:862-935 | The program's parser, an index moving through the packet, is `Parse` |
| `Rtp.ReadSources` | rfcvoip/RTP.py:909-914 | The contributing sources |
| `Rtp.BytesRoundTrip` | rfcvoip/RTP.py:104-105 | Big-endian numbers come back as they were |
| `Rtp.WireRoundTrip` | rfcvoip/RTP.py:862-935 | What is built parses back to what was sent |
| `RtpLayout.ParsesLayout` | rfcvoip/RTP.py:862-935 | Any header laid out byte by byte, with any flags, 0 to 15 sources and an extension of any number of words, parses to exactly its fields; the padding flag takes away what the last byte counts, or fails when it cannot |
| `RtpLayout.PaddedRoundTrip` | rfcvoip/RTP.py:925-935 | A payload with 1 to 255 padding bytes that end in their number comes back as it was |
| `RtpLayout.CutShort` | rfcvoip/RTP.py:862-924 | A packet that ends within its fixed header, sources, extension header or extension: the error for just that |
| `RtpLayout.AcceptedIsLaidOut` | rfcvoip/RTP.py:862-935 | Whatever parses is such a packet, and the fields are its own |
| `RtpLayout.BuiltIsLaidOut` | rfcvoip/RTP.py:1468-1494 | What is built is such a packet without sources, extension or padding |
| `Dtmf.ReportsAreReports` | rfcvoip/RTP.py:1665-1705 | Every report sent speaks for its segment, and the final one is sent |
| `Dtmf.ToneIsChained` | rfcvoip/RTP.py:1659-1706 | The segments of a tone follow without gaps, full but for the last, only the last one ending the event |
| `Dtmf.TonesAreChained` | rfcvoip/RTP.py:1649-1711 | Back-to-back digits make a chain that begins each digit once, in order |
| `Dtmf.Receive` | rfcvoip/RTP.py:2505-2562 | One report at the receiver: a repeat sharpens what is known, a continuation makes no digit, anything else makes one |
| `DtmfClient.Sender.constructor` | rfcvoip/RTP.py:1247-1250 | A sender at its first timestamp and sequence number |
| `DtmfClient.Sender.Send` | rfcvoip/RTP.py:1496-1534 | One report on the wire, with the next sequence number |
| `DtmfClient.Sender.SendSegment` | rfcvoip/RTP.py:1663-1705 | The reports of a segment: first, updates, and the final one three times |
| `DtmfClient.Sender.SendTone` | rfcvoip/RTP.py:1659-1706 | All segments of a tone |
| `DtmfClient.Sender.TransmitDtmf` | rfcvoip/RTP.py:1629-1711 | What is sent for a tone, and the timestamp after it; false when it cannot be sent |
| `DtmfClient.AllIsSent` | rfcvoip/RTP.py:1659-1706 | Every report sent belongs to a segment of the tone, and each segment's final report is sent |
| `DtmfClient.EventReceiver.constructor` | rfcvoip/RTP.py:2505-2518 | Nothing heard |
| `DtmfClient.EventReceiver.Report` | rfcvoip/RTP.py:2505-2562 | One call is `Receive`, when a callback is installed |
| `DtmfClient.EventReceiver.Remember` | rfcvoip/RTP.py:2547-2553 | The latest 256 keys, and what is known of them |
| `DtmfClient.EventReceiver.Sharpen` | rfcvoip/RTP.py:2522-2530 | A repeat keeps the longest duration and any end |
| `DtmfClient.HearFrom` | rfcvoip/RTP.py:2481-2503 | Consecutive reports in one payload |
| `DtmfClient.ReportOffTheWire` | rfcvoip/RTP.py:1536-1549 | A report comes off the wire as the report that was sent |
| `DtmfClient.DigitsSurviveTheWire` | rfcvoip/RTP.py:1629-1711 | Any digits back to back, any durations and spacing: whatever the network loses or repeats, if each segment's final report arrives before the next segment is heard of, the callback gets exactly the digits, once each and in order |
| `DtmfClient.FinalsAreEnough` | rfcvoip/RTP.py:1690-1705 | One final report of each segment satisfies that |
| `DtmfPackets.PackedDigits` | rfcvoip/RTP.py:2481-2503 | One packet that packs the final reports of any digits back to back gives the callback exactly those digits: each report starts where the one before it ends |
| `DtmfPackets.EventReportsAre` | rfcvoip/RTP.py:2481-2494 | Report by report, what the timeline is told of a packet: its timestamp plus what the reports before it last, and the end it reports |
| `DtmfPackets.ReportTimes` | rfcvoip/RTP.py:1665-1705 | A segment is reported every step until its end, first with the marker of a new event, and its end three times |
| `DtmfPackets.PayloadLaidOut` | rfcvoip/RTP.py:1536-1549 | The four bytes of a report |
| `DtmfPackets.ReceiveOutcome` | rfcvoip/RTP.py:2518-2562 | A report that is not a repeat gives a digit unless a full segment of it, not ended, was heard of 65535 ticks before |
| `DtmfDelivery.ScheduleRemembered` | rfcvoip/RTP.py:2505-2553 | What the receiver knows after any such schedule: the latest 256 segments, exactly when final |
| `DtmfDelivery.NextMakesDigit` | rfcvoip/RTP.py:2532-2562 | The next segment makes a digit if and only if it begins one |
| `DtmfDelivery.KeysDiffer` | rfcvoip/RTP.py:2521-2522 | Segments within 256 of one another have different keys, though timestamps wrap |
| `DtmfDelivery.DigitsHeardOnce` | rfcvoip/RTP.py:2505-2562 | The digits heard are the digits sent |
| `StreamFraming.MessageLength` | rfcvoip/SIPTransport.py:715-780 | How long the first message is, None while its header is incomplete, or what is wrong with it |
| `StreamFraming.Connection.DiscardKeepalives` | rfcvoip/SIPTransport.py:703-708 | All leading CRLF pairs go |
| `StreamFraming.Connection.UnfoldLines` | rfcvoip/SIPTransport.py:726-735 | The unfolding loop is `Unfold` |
| `StreamFraming.Connection.JoinLine` | rfcvoip/SIPTransport.py:727-735 | One turn of it |
| `StreamFraming.Connection.CollectLengths` | rfcvoip/SIPTransport.py:737-768 | The lengths given, or the first error |
| `StreamFraming.Connection.StreamMessageLength` | rfcvoip/SIPTransport.py:715-780 | The program's parser is `MessageLength` |
| `StreamFraming.Connection.PopStreamMessage` | rfcvoip/SIPTransport.py:805-812 | One whole message off the front, or what the stream begins with |
| `StreamFraming.Connection.RecvStreamMessage` | rfcvoip/SIPTransport.py:782-803 | However the chunks fall, the result is what the whole stream begins with, and no byte of the rest is lost |
| `StreamFraming.NextGrows` | rfcvoip/SIPTransport.py:703-812 | More bytes never change a message or an error once it is there |
| `FramingRuns.ChunkingDoesNotMatter` | rfcvoip/SIPTransport.py:782-812 | Any cutting of a stream into chunks yields the same messages, error and leftover |
| `FramingRuns.ReceiveAll` | rfcvoip/SIPTransport.py:782-803 | Receiving again and again yields just that from a connection, whatever the chunks |
| `FramingRuns.StreamRoundTrip` | rfcvoip/SIPTransport.py:703-812 | Any well-formed messages with any keepalives between them, in any chunks: exactly those messages come out |
| `FramingRuns.EveryByteIsAccountedFor` | rfcvoip/SIPTransport.py:703-812 | Every byte is in a message, a dropped CRLF, or still buffered |
| `RenderedMessages.RenderedIsWellFormedIff` | rfcvoip/SIPTransport.py:715-780 | A message put together from header lines, folded or not, is framed exactly if and only if some field gives its length and all that do give the length of the body |
| `FramingErrors.MessageOutcome` | rfcvoip/SIPTransport.py:715-780 | Any header block of clean lines, folded or not: the first faulty line decides the error; else there must be a length and all given agree, and the message is the header block and that many bytes |
| `FramingErrors.LineSays` | rfcvoip/SIPTransport.py:740-768 | What a header line says: nothing before the colon is a fault, a length that is not a number is, any other name says nothing |
| `FramingErrors.NoColonIn` | rfcvoip/SIPTransport.py:740-743 | So is a line without a colon |
| `FramingErrors.BlankStart` | rfcvoip/SIPTransport.py:722-723 | A blank start line is the first fault reported |
| `FramingErrors.FoldedStart` | rfcvoip/SIPTransport.py:726-731 | Then a first header line that continues nothing |
| `FramingErrors.DecimalIsRead` | rfcvoip/SIPTransport.py:756-758 | A number printed in decimal, zeros before it or not, is read as that number |
| `FramingErrors.PrintedLengthFrames` | rfcvoip/SIPTransport.py:715-780 | A message that gives the length of its body in decimal is framed exactly |
| `RenderedMessages.LengthOfField` | rfcvoip/SIPTransport.py:738-768 | What one field says of the length, name and value stripped |
| `RenderedMessages.HeaderEnds` | rfcvoip/SIPTransport.py:716-722 | The header ends at its first empty line |
| `DigestParams.ParseDigestParams` | rfcvoip/SIPAuth.py:74-134 | The parser, an index moving through the text, is `ParseParams` |
| `DigestParams.ParseOne` | rfcvoip/SIPAuth.py:83-132 | One turn of its main loop |
| `DigestParams.ParseValue` | rfcvoip/SIPAuth.py:101-123 | A quoted or a plain value |
| `DigestParams.ScanQuoted` | rfcvoip/SIPAuth.py:105-118 | The loop over a quoted value |
| `DigestParams.Scan` | rfcvoip/SIPAuth.py:84-97 | A scanning loop |
| `DigestLayout.LaidOutParses` | rfcvoip/SIPAuth.py:74-134 | Parameters with any white space and commas around them, in quotes or not, keys in any case, and things without an equals sign in between: each is assigned under its key in small letters, later over earlier, and nothing else is |
| `DigestLayout.SchemeIsDropped` | rfcvoip/SIPAuth.py:74-77 | The scheme goes, in any case, with the white space around it |
| `DigestPrinting.QuoteRoundTrip` | rfcvoip/SIPAuth.py:505-506 | The parser reads back any quoted value, quotes and backslashes included |
| `DigestPrinting.FieldsRoundTrip` | rfcvoip/SIPAuth.py:590-611 | Printed fields parse to what was printed |
| `Digest.Normalize` | rfcvoip/SIPAuth.py:155-159 | The names an algorithm goes by |
| `Digest.SelectQop` | rfcvoip/SIPAuth.py:229-247 | The qop chosen of those offered |
| `Digest.NormalizeQop` | rfcvoip/SIPAuth.py:250-256 | The one qop that credentials name |
| `DigestChoice.SelectedQop` | rfcvoip/SIPAuth.py:229-247 | Of a qop list in any case, spacing and quotes: auth when it is an item, auth-int when only that is, none when there is no item, and an error when there are only others |
| `DigestChoice.CalledAlgorithm` | rfcvoip/SIPAuth.py:28-62 | An algorithm is called for by one of its names in any case, spacing and quotes, or MD5 by naming none |
| `DigestChoice.BuildOutcome` | rfcvoip/SIPAuth.py:509-564 | The credentials for a challenge written out: qop, nonce count and client nonce exactly when a qop is chosen (the client nonce also for a session algorithm), the algorithm called for, the challenge's own realm, nonce and opaque, and the response of RFC 7616; or what is missing |
| `DigestChoice.BuildRefused` | rfcvoip/SIPAuth.py:509-528 | No credentials without a realm, a supported algorithm or a known qop word, each with its error |
| `DigestChoice.NamedQop` | rfcvoip/SIPAuth.py:250-256 | The qop that credentials name, in any case, spacing and quotes |
| `DigestChoice.VerifiesAnyCase` | rfcvoip/SIPAuth.py:614-655 | Credentials verify exactly when their response reads, in any case, spacing and quotes, as the one that the secret gives, with the nonce count that a qop needs, an algorithm supported and provided |
| `DigestChoice.StoredMatchesIff` | rfcvoip/SIPAuth.py:345-362 | A stored hash stands for the password, in any case and white space, exactly when it is that password's hash |
| `DigestChoice.NonceCountIff` | rfcvoip/SIPAuth.py:632-641 | A nonce count is eight hexadecimal digits |
| `Digest.Compute` | rfcvoip/SIPAuth.py:365-435 | The response, or which input is missing or not supported |
| `Digest.Build` | rfcvoip/SIPAuth.py:509-564 | The parameters of an Authorization header |
| `Digest.Verify` | rfcvoip/SIPAuth.py:614-655 | Whether credentials verify |
| `DigestRoundTrip.HeaderRoundTrip` | rfcvoip/SIPAuth.py:567-611 | Parsing a printed header gives back exactly the parameters |
| `DigestRoundTrip.ResponseIsOf` | rfcvoip/SIPAuth.py:408-435 | Without auth-int a response does not depend on the body |
| `DigestRoundTrip.ResponseIff` | rfcvoip/SIPAuth.py:408-435 | Two responses are equal exactly for the same credentials, method and, with auth-int, body, when the hash does not collide on the texts of just these two |
| `DigestRoundTrip.NameIsKnown` | rfcvoip/SIPAuth.py:28-62 | An algorithm's own name stands for it |
| `DigestVerify.ChosenCollects` | rfcvoip/SIPAuth.py:365-404 | The computation finds what was put in, or says what is missing |
| `DigestVerify.BuiltFrom` | rfcvoip/SIPAuth.py:509-564 | What built parameters hold |
| `DigestVerify.CollectsAgain` | rfcvoip/SIPAuth.py:630-651 | The verifier computes from the same inputs |
| `DigestVerify.VerifiesIff` | rfcvoip/SIPAuth.py:614-655 | Built credentials verify when the algorithm is supported, the secret, method and (auth-int) body are the same, and with a qop the nonce count is eight hex digits; and only then, unless the hash collides on the texts compared |
| `DigestVerify.PasswordMatchesIff` | rfcvoip/SIPAuth.py:345-362 | A password matches if and only if it is the one used or collides with it |
| `DigestVerify.HeaderVerifies` | rfcvoip/SIPAuth.py:567-655 | Printed and parsed, the credentials verify, for every algorithm and qop and any hash with hex digests |
| `InviteCache.Cache.constructor` | rfcvoip/VoIP/VoIP.py:1849-1849 | An empty cache |
| `InviteCache.Cache.Purge` | rfcvoip/VoIP/VoIP.py:2451-2452 | After purging from the front no expired entry is left anywhere |
| `InviteCache.Cache.RememberInviteResponse` | rfcvoip/VoIP/VoIP.py:2436-2456 | A final response is added to the history; the cache stays its end, at most 256 entries |
| `InviteCache.Cache.TrimToCapacity` | rfcvoip/VoIP/VoIP.py:2455-2456 | The oldest entries beyond 256 go |
| `InviteCache.Cache.CachedInviteResponse` | rfcvoip/VoIP/VoIP.py:2458-2468 | Exactly what the history says: the last response, under 32 s old and with fewer than 256 other transactions since |
| `InviteCache.KeyIsAt` | rfcvoip/VoIP/VoIP.py:2453-2454 | A key's place in the ordered map counts exactly the newer transactions |
| `InviteCache.AnswersAlike` | rfcvoip/VoIP/VoIP.py:2458-2468 | A purged cache answers as the history does |
| `InviteCache.TrimmedNext` | rfcvoip/VoIP/VoIP.py:2453-2456 | Remembering keeps the cache the end of the history |
| `PortPool.Pool.constructor` | rfcvoip/VoIP/VoIP.py:1785-1786 | Nothing assigned |
| `PortPool.Pool.AvailableStarts` | rfcvoip/VoIP/VoIP.py:3137-3145 | The starts of all free runs, and only those |
| `PortPool.Pool.TakeRun` | rfcvoip/VoIP/VoIP.py:3160-3169 | A free contiguous run is taken; none only when none exists |
| `PortPool.Pool.RequestPorts` | rfcvoip/VoIP/VoIP.py:3147-3195 | A request without blocking: bad counts are refused, and it fails only when nothing is free after ended calls gave back theirs |
| `PortPool.Pool.Reclaim` | rfcvoip/VoIP/VoIP.py:3171-3178 | Ended calls give their ports back |
| `PortPool.Pool.ReservePorts` | rfcvoip/VoIP/VoIP.py:3197-3228 | All of the ports or none, with the first reason against |
| `PortPool.Pool.ReleasePorts` | rfcvoip/VoIP/VoIP.py:3230-3246 | Exactly the call's ports go back |
| `PortPool.CheckedInRange` | rfcvoip/VoIP/VoIP.py:3210-3223 | Ports may be reserved if and only if they are in range and free or allowed |
| `PortPool.RefusedFor` | rfcvoip/VoIP/VoIP.py:3210-3223 | Otherwise the first port that may not be reserved decides the error |
| `PortPool.RunIsFreeIff` | rfcvoip/VoIP/VoIP.py:3137-3145 | A run is free when each of its ports is in range and not assigned |
| `PortOwners.Next` | rfcvoip/VoIP/VoIP.py:1008-1047 | What one thread does to pool and calls under a lock |
| `PortOwners.StepIsConsistent` | rfcvoip/VoIP/VoIP.py:3147-3246 | Every step keeps the pool without duplicates and calls with disjoint ports |
| `PortOwners.AlwaysConsistent` | rfcvoip/VoIP/VoIP.py:3147-3246 | So does every interleaving of any number of calls |
| `PortOwners.StepLosesIff` | rfcvoip/VoIP/VoIP.py:1008-1037 | A step leaves a taken port without an owner exactly when a finalized call takes a new one, or a call gives its ports back before it has recorded them all |
| `PortOwners.NoneIsEverLostIff` | rfcvoip/VoIP/VoIP.py:1008-1037 | Over a run the taken ports are exactly those that calls own, if and only if no step is such a one |
| `PortOwners.LateRecordLosesPorts` | rfcvoip/VoIP/VoIP.py:851-872 | Such a run, from the start: a call is finalized after it reserves a port for its media and before it records it (line 748) |
| `CallState.Call.constructor` | rfcvoip/VoIP/VoIP.py:370-370 | An inbound call rings, an outbound one is dialing |
| `CallState.Call.BeginAnswer` | rfcvoip/VoIP/VoIP.py:1334-1339 | Only a ringing call, by one thread at a time |
| `CallState.Call.CommitAnswer` | rfcvoip/VoIP/VoIP.py:1350-1357 | Answered only if it still rings |
| `CallState.Call.Refuse` | rfcvoip/VoIP/VoIP.py:1577-1580 | A denied or cancelled call ends if it rings |
| `CallState.Call.Cancel` | rfcvoip/VoIP/VoIP.py:1595-1598 | An outgoing call ends if it was not answered |
| `CallState.Call.Provisional` | rfcvoip/VoIP/VoIP.py:2141-2143 | Dialing becomes ringing |
| `CallState.Call.ReceiveOk` | rfcvoip/VoIP/VoIP.py:2801-2814 | Who applies a 200 response |
| `CallState.Call.Answered` | rfcvoip/VoIP/VoIP.py:1519-1524 | Answered unless it has ended |
| `CallState.Call.SetEnded` | rfcvoip/VoIP/VoIP.py:1591-1591 | Ended |
| `CallState.Call.LeaveAnswer` | rfcvoip/VoIP/VoIP.py:1387-1388 | The next thread may answer |
| `CallState.Step` | rfcvoip/VoIP/VoIP.py:1333-1392 | What a thread does between two locks, for answering, denying, cancelling, hanging up and responses |
| `CallState.StepIsSafe` | rfcvoip/VoIP/VoIP.py:1333-1392 | One thread answers, and one final response is decided on, whatever the step |
| `CallState.StateNeverGoesBack` | rfcvoip/VoIP/VoIP.py:1333-1646 | Dialing, ringing, answered, ended: never back, in any interleaving |
| `CallState.AtMostOneFinal` | rfcvoip/VoIP/VoIP.py:2720-2744 | Of 200, 486 and 487 at most one is decided on, and at most that one is sent |
| `CallState.FirstDecisionStands` | rfcvoip/VoIP/VoIP.py:1350-1358 | The first decision is the only one |
| `CallRuns.CommittedIff` | rfcvoip/VoIP/VoIP.py:1333-1592 | Over every run: the response decided on is 200, 486 or 487 if and only if the one attempt made while the call rang was to answer, deny or cancel it; none if and only if there was no such attempt; and what is sent is that one or nothing |
| `CallRuns.AttemptOutcome` | rfcvoip/VoIP/VoIP.py:2726-2741 | An attempt succeeds exactly while the call rings: then the call is answered by 200 or ended by 486 or 487, and that thread has it to send |
| `CallRuns.EndingEnds` | rfcvoip/VoIP/VoIP.py:1611-1646 | A thread that hangs up an answered call, cancels an unanswered one or sees its INVITE fail, and finishes, has ended it for good |
| `CallRuns.DoneIsSettled` | rfcvoip/VoIP/VoIP.py:1333-1392 | When no thread is at work nobody is answering, and a call whose answer could not be sent has ended |
| `CallRuns.AnsweredUndisturbed` | rfcvoip/VoIP/VoIP.py:1333-1392 | Left alone, answering a ringing call sends 200 and answers it |
| `CallRuns.DialedUndisturbed` | rfcvoip/VoIP/VoIP.py:2801-2814 | Left alone, an outgoing call rings and is answered by a 200 |
| `RunGenerations.Client.constructor` | rfcvoip/SIP.py:1651-1652 | Stopped, in generation 0 |
| `RunGenerations.Client.BeginStart` | rfcvoip/SIP.py:3816-3824 | A new generation, unless running |
| `RunGenerations.Client.Install` | rfcvoip/SIP.py:3834-3837 | The connection is installed only for the current generation |
| `RunGenerations.Client.CheckOpened` | rfcvoip/SIP.py:3843-3850 | Still the current generation and connection |
| `RunGenerations.Client.BeginStop` | rfcvoip/SIP.py:3876-3888 | The run to stop, unless another one was meant |
| `RunGenerations.Client.DetachRun` | rfcvoip/SIP.py:3899-3933 | The run meant is taken out and the generation ends; another one is left alone |
| `RunGenerations.Proceed` | rfcvoip/SIP.py:3816-3981 | What a thread does between two locks |
| `RunGenerations.StepIsSafe` | rfcvoip/SIP.py:3816-3981 | What every step keeps |
| `RunGenerations.InstalledBelongsToTheRun` | rfcvoip/SIP.py:3834-3837 | The installed connection is the current run's, and a stopped client has none |
| `RunGenerations.NothingLeaks` | rfcvoip/SIP.py:3935-3981 | When no thread is at work, every connection but the installed one is closed |
| `RunGenerations.StopDetachesItsOwnRun` | rfcvoip/SIP.py:3874-3897 | A stop or a failed start detaches its own run or nothing |
| `RunGenerations.GenerationNeverFalls` | rfcvoip/SIP.py:3913-3931 | Generations only grow |
| `RunGenerations.LateStopDoesNothing` | rfcvoip/SIP.py:3895-3897 | A stop decided on in an earlier run does nothing to a later one |
| `RunOutcomes.StartGoesThroughIff` | rfcvoip/SIP.py:3843-3850 | Over every run: a start goes on to register exactly when its run is still the current one; else it closes its connection, which is not the installed one |
| `RunOutcomes.StartedUndisturbed` | rfcvoip/SIP.py:3816-3870 | Left alone, a start installs an open connection of a new run |
| `RunOutcomes.StoppedUndisturbed` | rfcvoip/SIP.py:3874-3981 | Left alone, a stop closes the installed connection and ends the run |
| `RunOutcomes.LostStopsIff` | rfcvoip/SIP.py:3899-3933 | A lost connection ends the run exactly when run and connection, as far as given, are the current ones |
| `Notify.Judge` | rfcvoip/SIP.py:2922-3023 | Whether a NOTIFY is ignored, answered from the cache, refused and how, or applied |
| `Notify.Handle` | rfcvoip/SIP.py:2922-3077 | The subscription, the cache and the response after it |
| `Notify.NotifyHandler.Purge` | rfcvoip/SIP.py:2937-2942 | Responses of 32 seconds and more go |
| `Notify.NotifyHandler.Remember` | rfcvoip/SIP.py:3061-3068 | The latest 128 responses stay |
| `Notify.NotifyHandler.HandleNotify` | rfcvoip/SIP.py:2922-3077 | One call is `Handle` |
| `NotifyEffects.NotifyOutcome` | rfcvoip/SIP.py:2922-3077 | Case by case: the cached answer, 481, 400 or 500, changing no subscription; or applied, when its subscription then says what the request says, every other is unchanged, and once the response is sent the call id is still subscribed if and only if the state is not terminated |
| `NotifyEffects.MalformedOutcome` | rfcvoip/SIP.py:2922-2935 | Without a readable CSeq and Via: 400 when it can be answered, and nothing changes |
| `NotifyRuns.AppliedNumbersIncrease` | rfcvoip/SIP.py:3015-3023 | While responses can be sent, a subscription gets notifications with strictly increasing CSeq, whatever is repeated or reordered |
| `NotifyRuns.AppliedAgainIff` | rfcvoip/SIP.py:3057-3068 | A repeat within 32 s is applied again if and only if the first response could not be sent |
| `NotifyRuns.RepeatsAreAnsweredAlike` | rfcvoip/SIP.py:2936-2946 | A repeat gets the identical response and changes no subscription, exactly while the response is under 32 s old with fewer than 128 newer |
| `NotifyRuns.StepKeepsOrder` | rfcvoip/SIP.py:2922-3077 | Every step, other threads' included, keeps the recorded CSeq above all applied ones |

## Left out

- Sockets, name lookup, TLS and threads: chunks, packets and lock-delimited steps stand for them.
- Codecs: what a packet decodes to is a parameter, None when decoding fails; the choice and history of codec adapters are not kept.
- Floating point: times of the send queue are integers with exact rounding, where the program adds 1e-9 before rounding; tone lengths are ticks; audio offsets use the exact floor division of `offset_at`, where `RTPCodec.output_offset` divides floats.
- DtmfClient.Sender.TransmitDtmf: the client does not stop, change direction or lose its socket during a tone, and a digit is given as its code, without normalising text.
- DtmfClient.DigitsSurviveTheWire: each packet carries one report, as the sender's do; packets with several reports are the subject of `PackedDigits` and `EventReportsAre`.
- RTPClient.trans: pacing by wall clock.
- StreamFraming.MessageLength: header bytes are taken as they are, without UTF-8 replacement or Unicode white space and case; the interpreter's limit on the number of digits it converts is not modelled.
- StreamFraming.Connection.RecvStreamMessage: the stream ends where the list of chunks ends; timeouts and TLS retries are not modelled.
- Digest.Compute: text is hashed as text, without its UTF-8 encoding; white space, upper and lower case are ASCII.
- SIPAuth challenges and nonces: `generate_nonce`, `validate_nonce`, `choose_digest_challenge` and the redaction of headers.
- InviteCache.Cache.RememberInviteResponse: the status is given, not read from the response text; time is whole units of the monotonic clock.
- PortPool.Pool.RequestPorts: waiting for a port to become free, and other calls between its two attempts; `PortOwners` has the interleavings.
- VoIPCall.__del__ and `release_ports` without a call: garbage collection and an old sweep.
- CallState.Step: media set-up, retransmitted INVITE requests, re-INVITE, and the 500 response that a failed answer leaves in the cache.
- RunGenerations.Step: registration, subscriptions and receive loops of a run; only connection and generation.
- Notify.Handle: the callbacks, time stamps and header copies kept for the application.
- SDP and SIP text, telemetry, codec priorities, deprecated aliases and PCM width conversion: long but easy.
