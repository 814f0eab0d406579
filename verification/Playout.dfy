/**
 Whole runs of the jitter buffer, against two independent descriptions of what a listener hears: the last
 packet written at each offset, and an unbroken stretch of offsets.
 */
module Playout {
  import opened Bytes
  import opened JitterBuffer

  datatype Event = Wrote(packet: Packet) | Played(length: nat) | Shifted(boundary: int, delta: int)

  /** States around each event of a run. */
  datatype Run = Run(states: seq<Jitter>, events: seq<Event>)

  ghost predicate Step(s: Jitter, span: nat, e: Event, s': Jitter) {
    match e
    case Wrote(p) => WriteStep(s, span, p, s')
    case Played(n) => ReadStep(s, n, s')
    case Shifted(boundary, delta) => exists ok :: ShiftStep(s, span, boundary, delta, ok, s')
  }

  /** The buffer starts over: at a packet that is too far off, or at the end of what a shift has spread too far. */
  ghost predicate StartsOver(s: Jitter, span: nat, e: Event) {
    match e
    case Wrote(p) => Judge(s, span, p) == Restart
    case Played(_) => false
    case Shifted(boundary, delta) => !ShiftRefused(s.log, boundary, delta) && !ShiftWithin(s.log, s.base, span, boundary, delta, s.cursor)
  }

  /** A run without restarts. */
  ghost predicate IsRun(r: Run, span: nat) {
    && |r.states| == |r.events| + 1
    && (forall i :: 0 <= i < |r.states| ==> WellKept(r.states[i]) && r.states[i].initialized)
    && (forall i :: 0 <= i < |r.events| ==> Step(r.states[i], span, r.events[i], r.states[i + 1]))
    && (forall i :: 0 <= i < |r.events| ==> !StartsOver(r.states[i], span, r.events[i]))
  }

  lemma EventAt(r: Run, span: nat, n: nat)
    requires IsRun(r, span) && n < |r.events|
    ensures |r.states| == |r.events| + 1 && Step(r.states[n], span, r.events[n], r.states[n + 1])
    ensures WellKept(r.states[n]) && r.states[n].initialized && WellKept(r.states[n + 1])
    ensures r.states[n].base <= r.states[n].cursor && !StartsOver(r.states[n], span, r.events[n])
  {
    hide Step, StartsOver;
    assert WellKept(r.states[n]);
  }

  // ------------------------------------------------------------------ one write in full

  /** The part of a packet that playout has not passed starts here. */
  function UnplayedFrom(s: Jitter, p: Packet): (from: int)
    ensures p.offset <= from
  {
    if s.started && p.offset < s.cursor then s.cursor else p.offset
  }

  /** Nothing of the packet is left, or it is more than the span before a logged interval. */
  ghost predicate Useless(s: Jitter, span: nat, p: Packet) {
    p.data == [] || p.offset + |p.data| <= UnplayedFrom(s, p) || exists a :: a in s.log && UnplayedFrom(s, p) + span < a
  }

  /** Nothing has been written yet, or the packet is too far from the origin or past the cursor. */
  ghost predicate TooFar(s: Jitter, span: nat, p: Packet) {
    !s.initialized || UnplayedFrom(s, p) <= s.base - 100000 || s.cursor + span < UnplayedFrom(s, p)
  }

  ghost predicate HoldsAlone(s': Jitter, from: int, p: Packet) {
    && s'.initialized && !s'.started && s'.base == s'.cursor == from
    && (forall k :: k in s'.mem <==> from <= k < p.offset + |p.data|)
    && (forall k :: k in s'.mem ==> p.offset <= k < p.offset + |p.data| && s'.mem[k] == p.data[k - p.offset])
    && s'.log.Keys == {from} && |s'.log[from]| == p.offset + |p.data| - from
  }

  /** The unread bytes stay, but for those no longer logged when the origin moves back; the packet lies over them. */
  ghost predicate JoinsMem(s: Jitter, p: Packet, s': Jitter) {
    var from, end := UnplayedFrom(s, p), p.offset + |p.data|;
    && (forall k :: k in s'.mem <==> from <= k < end || (k in s.mem && (from < s.base ==> Covered(s.log, k))))
    && (forall k :: k in s'.mem ==> if from <= k < end then s'.mem[k] == p.data[k - p.offset] else k in s.mem && s'.mem[k] == s.mem[k])
  }

  /** Logged from the cursor on: the packet, and what was logged no more than the span before the newest interval. */
  ghost predicate JoinsLog(s: Jitter, span: nat, p: Packet, s': Jitter) {
    var from, end := UnplayedFrom(s, p), p.offset + |p.data|;
    forall k :: s'.cursor <= k ==>
      (Covered(s'.log, k) <==> from <= k < end || (Covered(s.log, k) && from <= k + span && forall a :: a in s.log ==> a <= k + span))
  }

  /**
   The whole outcome of a write: a packet of which nothing is left to play, or that is more than the span before the
   newest, changes nothing; one that is too far off, or the first, is left alone in the buffer, playout not started;
   any other joins what is unread.
   */
  lemma WriteOutcome(s: Jitter, span: nat, p: Packet, s': Jitter)
    requires WellKept(s) && (s.started ==> s.initialized) && WriteStep(s, span, p, s')
    ensures var from := UnplayedFrom(s, p);
            if Useless(s, span, p) then s' == s
            else if TooFar(s, span, p) then HoldsAlone(s', from, p)
            else && JoinsMem(s, p, s') && JoinsLog(s, span, p, s') && s'.initialized && s'.started == s.started
                 && s'.cursor == (if from < s.base then from else s.cursor)
                 && s'.base == (if from < s.base then from else if from > s.base + span then s.cursor else s.base)
  {
    hide WellKept, LogMerged;
    var u := Unplayed(s, p);
    UnplayedPart(s, p);
    NewestIsLeast(s.log, u.offset, u.offset + span);
    if Useless(s, span, p) {
      UselessIsIgnored(s, span, p);
    } else if TooFar(s, span, p) {
      assert Judge(s, span, p) == Restart;
    } else {
      assert Judge(s, span, p) == Merge;
      JoinedMem(s, p, s');
      JoinedLog(s, span, p, s');
    }
  }

  lemma UnplayedPart(s: Jitter, p: Packet)
    ensures var u, from := Unplayed(s, p), UnplayedFrom(s, p);
            && u.offset == from
            && (u.data == [] <==> p.data == [] || p.offset + |p.data| <= from)
            && (u.data != [] ==> from + |u.data| == p.offset + |p.data| && p.offset <= from && u.data == p.data[from - p.offset..])
  {
  }

  lemma NewestIsLeast(log: Log, offset: int, bound: int)
    ensures Newest(log, offset) <= bound <==> offset <= bound && forall a :: a in log ==> a <= bound
  {
    hide Newest;
  }

  lemma UselessIsIgnored(s: Jitter, span: nat, p: Packet)
    requires Useless(s, span, p) && WellKept(s)
    ensures Judge(s, span, p) == Ignore
  {
    hide Newest;
    UnplayedPart(s, p);
    NewestIsLeast(s.log, UnplayedFrom(s, p), UnplayedFrom(s, p) + span);
  }

  lemma JoinedMem(s: Jitter, p: Packet, s': Jitter)
    requires s'.mem == Kept(s, Unplayed(s, p).offset) + Placed(Unplayed(s, p).offset, Unplayed(s, p).data) && Unplayed(s, p).data != []
    ensures JoinsMem(s, p, s')
  {
    hide Covered, Unplayed;
    UnplayedPart(s, p);
  }

  lemma JoinedLog(s: Jitter, span: nat, p: Packet, s': Jitter)
    requires var u := Unplayed(s, p);
             u.data != [] && LogMerged(s.log, Newest(s.log, u.offset) - span, u, s'.log, s'.cursor)
    ensures JoinsLog(s, span, p, s')
  {
    hide Covered, Unplayed, Newest, Clear, Piece;
    UnplayedPart(s, p);
    var u := Unplayed(s, p);
    forall k | s'.cursor <= k
      ensures Covered(s'.log, k) <==>
                || u.offset <= k < p.offset + |p.data|
                || (Covered(s.log, k) && u.offset <= k + span && forall a :: a in s.log ==> a <= k + span)
    {
      NewestIsLeast(s.log, u.offset, k + span);
    }
  }

  // ------------------------------------------------------------------ last writer

  ghost predicate In(p: Packet, k: int) {
    p.offset <= k < p.offset + |p.data|
  }

  /** What has been done to the buffer: a packet laid down, or what was unread at `cursor` moved from `boundary` on. */
  datatype Mark = Put(packet: Packet) | Moved(boundary: int, delta: int, cursor: int)

  /** The byte that the last packet to cover `k` has left there. */
  ghost function LastAt(marks: seq<Mark>, k: int): Option<byte> {
    if marks == [] then None
    else
      var before := marks[..|marks| - 1];
      match marks[|marks| - 1]
      case Put(p) => if In(p, k) then Some(At(p.offset, p.data, k)) else LastAt(before, k)
      case Moved(boundary, delta, cursor) =>
        if boundary <= k - delta && cursor <= k - delta && cursor <= k && LastAt(before, k - delta).Some? then LastAt(before, k - delta)
        else if k < boundary then LastAt(before, k)
        else None
  }

  /** What the accepted ones of the first `n` events have done, oldest first. */
  ghost function Accepted(r: Run, span: nat, n: nat): seq<Mark>
    requires IsRun(r, span) && n <= |r.events|
  {
    if n == 0 then [] else Accepted(r, span, n - 1) + MarkOf(r.states[n - 1], span, r.events[n - 1])
  }

  ghost function MarkOf(s: Jitter, span: nat, e: Event): seq<Mark> {
    match e
    case Wrote(p) => if Judge(s, span, p) == Merge then [Put(p)] else []
    case Played(_) => []
    case Shifted(boundary, delta) => if ShiftRefused(s.log, boundary, delta) then [] else [Moved(boundary, delta, s.cursor)]
  }

  ghost predicate AgreesAt(s: Jitter, marks: seq<Mark>, k: int) {
    LastAt(marks, k) == if k in s.mem then Some(s.mem[k]) else None
  }

  /** The map agrees with the last writer from the cursor on, and before playout nothing has been written before it. */
  ghost predicate Agrees(s: Jitter, marks: seq<Mark>) {
    && (forall k :: s.cursor <= k ==> AgreesAt(s, marks, k))
    && (!s.started ==> forall k :: k < s.cursor ==> LastAt(marks, k) == None)
  }

  lemma LastOfMore(marks: seq<Mark>, p: Packet, k: int)
    ensures LastAt(marks + [Put(p)], k) == if In(p, k) then Some(At(p.offset, p.data, k)) else LastAt(marks, k)
  {
    assert (marks + [Put(p)])[..|marks|] == marks;
  }

  lemma LastOfMoved(marks: seq<Mark>, boundary: int, delta: int, cursor: int, k: int)
    ensures LastAt(marks + [Moved(boundary, delta, cursor)], k)
            == if boundary <= k - delta && cursor <= k - delta && cursor <= k && LastAt(marks, k - delta).Some? then LastAt(marks, k - delta)
               else if k < boundary then LastAt(marks, k) else None
  {
    assert (marks + [Moved(boundary, delta, cursor)])[..|marks|] == marks;
  }

  lemma NothingUnread(s: Jitter, k: int)
    requires WellKept(s) && k < s.cursor
    ensures k !in s.mem
  {
  }

  lemma WriteAgrees(s: Jitter, span: nat, p: Packet, s': Jitter, marks: seq<Mark>)
    requires WellKept(s) && s.initialized && WriteStep(s, span, p, s') && Judge(s, span, p) == Merge
    requires LogComplete(s) || s.started
    requires Agrees(s, marks)
    ensures Agrees(s', marks + [Put(p)])
  {
    var u := Unplayed(s, p);
    assert Kept(s, u.offset) == s.mem;
    hide Judge, WellKept, LogMerged, LastAt, Kept;
    UnplayedIn(s, p);
    forall k | s'.cursor <= k
      ensures AgreesAt(s', marks + [Put(p)], k)
    {
      LastOfMore(marks, p, k);
      if k < s.cursor {
        NothingUnread(s, k);
      } else {
        assert AgreesAt(s, marks, k);
      }
    }
    forall k | k < s'.cursor && !s'.started
      ensures LastAt(marks + [Put(p)], k) == None
    {
      LastOfMore(marks, p, k);
    }
  }

  /** From the cursor on, what is left of a packet is the packet. */
  lemma UnplayedIn(s: Jitter, p: Packet)
    ensures var u := Unplayed(s, p);
            forall k :: (s.started ==> s.cursor <= k) ==>
              (In(p, k) <==> In(u, k)) && (In(u, k) ==> At(u.offset, u.data, k) == At(p.offset, p.data, k))
  {
  }

  /** What an accepted shift does to the map. */
  lemma ShiftIs(s: Jitter, span: nat, boundary: int, delta: int, s': Jitter)
    requires Step(s, span, Shifted(boundary, delta), s') && !ShiftRefused(s.log, boundary, delta)
    requires !StartsOver(s, span, Shifted(boundary, delta))
    ensures s'.mem == ShiftedMem(LoggedPart(s), boundary, delta, s.cursor) && s'.cursor == s.cursor && s'.started == s.started
  {
    hide ShiftRefused, ShiftWithin, ShiftedMem, LoggedPart, LogComplete, Shifting;
  }

  lemma ShiftAgreesAt(s: Jitter, boundary: int, delta: int, s': Jitter, marks: seq<Mark>, k: int)
    requires Agrees(s, marks) && s.cursor <= k && forall x :: x in s.mem ==> s.cursor <= x
    requires s'.mem == ShiftedMem(s.mem, boundary, delta, s.cursor)
    ensures AgreesAt(s', marks + [Moved(boundary, delta, s.cursor)], k)
  {
    hide LastAt, ShiftedMem;
    ShiftedKeys(s.mem, boundary, delta, s.cursor, k);
    LastOfMoved(marks, boundary, delta, s.cursor, k);
    assert AgreesAt(s, marks, k);
    assert s.cursor <= k - delta ==> AgreesAt(s, marks, k - delta);
  }

  lemma ShiftAgrees(s: Jitter, span: nat, boundary: int, delta: int, s': Jitter, marks: seq<Mark>)
    requires WellKept(s) && LogComplete(s) && Agrees(s, marks)
    requires Step(s, span, Shifted(boundary, delta), s') && !ShiftRefused(s.log, boundary, delta)
    requires !StartsOver(s, span, Shifted(boundary, delta))
    ensures Agrees(s', marks + [Moved(boundary, delta, s.cursor)])
  {
    AllIsLogged(s);
    ShiftIs(s, span, boundary, delta, s');
    assert forall x :: x in s.mem ==> s.cursor <= x;
    hide LastAt, WellKept, Step, ShiftedMem, StartsOver, LogComplete, LoggedPart, AgreesAt, ShiftRefused;
    forall k | s'.cursor <= k
      ensures AgreesAt(s', marks + [Moved(boundary, delta, s.cursor)], k)
    {
      ShiftAgreesAt(s, boundary, delta, s', marks, k);
    }
    forall k | k < s'.cursor && !s'.started
      ensures LastAt(marks + [Moved(boundary, delta, s.cursor)], k) == None
    {
      LastOfMoved(marks, boundary, delta, s.cursor, k);
    }
  }

  lemma ReadAgrees(s: Jitter, length: nat, s': Jitter, marks: seq<Mark>)
    requires WellKept(s) && s.initialized && Agrees(s, marks) && ReadStep(s, length, s')
    ensures Agrees(s', marks)
  {
    hide LastAt, WellKept;
    forall k | s'.cursor <= k
      ensures AgreesAt(s', marks, k)
    {
      assert AgreesAt(s, marks, k);
    }
  }

  /** One event of a run. */
  lemma EventAgrees(s: Jitter, span: nat, e: Event, s': Jitter, marks: seq<Mark>)
    requires WellKept(s) && s.initialized && Agrees(s, marks) && Step(s, span, e, s') && !StartsOver(s, span, e)
    requires LogComplete(s) || (s.started && !e.Shifted?)
    ensures Agrees(s', marks + MarkOf(s, span, e))
  {
    hide Agrees, WellKept, LogComplete, ReadStep, Merged, Unplayed;
    assert marks + [] == marks;
    match e
    case Wrote(p) =>
      if Judge(s, span, p) == Merge {
        WriteAgrees(s, span, p, s', marks);
      }
    case Played(length) => ReadAgrees(s, length, s', marks);
    case Shifted(boundary, delta) =>
      if !ShiftRefused(s.log, boundary, delta) {
        ShiftAgrees(s, span, boundary, delta, s', marks);
      }
  }

  /**
   Every run of writes, reads and suffix shifts: from the cursor on, the buffer holds at each offset the byte of the
   last accepted packet to cover it, moved as the accepted shifts have moved it, and nothing where there is none.
   */
  lemma {:induction false} BufferIsLastWriter(r: Run, span: nat, first: seq<Mark>, n: nat)
    requires IsRun(r, span) && n <= |r.events|
    requires forall i :: 0 <= i < n ==> LogComplete(r.states[i]) || (r.states[i].started && !r.events[i].Shifted?)
    requires Agrees(r.states[0], first)
    ensures Agrees(r.states[n], first + Accepted(r, span, n))
  {
    hide IsRun, Agrees, Step, StartsOver, MarkOf, WellKept, LogComplete;
    RunLength(r, span);
    if n == 0 {
      assert first + [] == first;
    } else {
      BufferIsLastWriter(r, span, first, n - 1);
      EventAt(r, span, n - 1);
      var before, more := first + Accepted(r, span, n - 1), MarkOf(r.states[n - 1], span, r.events[n - 1]);
      EventAgrees(r.states[n - 1], span, r.events[n - 1], r.states[n], before);
      assert before + more == first + (Accepted(r, span, n - 1) + more);
    }
  }

  lemma RunLength(r: Run, span: nat)
    requires IsRun(r, span)
    ensures |r.states| == |r.events| + 1
  {
  }

  /** Where a run starts: the first packet alone. */
  lemma FreshAgrees(p: Packet)
    ensures Agrees(Fresh(p.offset, p.data), [Put(p)])
  {
    assert [] + [Put(p)] == [Put(p)];
    forall k {
      LastOfMore([], p, k);
    }
  }

  // ------------------------------------------------------------------ nothing is heard twice

  ghost function Out(s: Jitter, n: nat, silence: byte): seq<byte> {
    seq<byte>(n, i => Heard(s.mem, silence, s.cursor + i))
  }

  /** Everything the reads of the first `n` events returned, in order. */
  ghost function HeardSoFar(r: Run, span: nat, silence: byte, n: nat): seq<byte>
    requires IsRun(r, span) && n <= |r.events|
  {
    if n == 0 then []
    else
      var before := HeardSoFar(r, span, silence, n - 1);
      match r.events[n - 1]
      case Played(length) => before + Out(r.states[n - 1], length, silence)
      case _ => before
  }

  /** Once playout has started no packet or shift moves the cursor, however late it is, and reads only advance it. */
  lemma {:induction false} CursorNeverGoesBack(r: Run, span: nat, i: nat, n: nat)
    requires IsRun(r, span) && i <= n <= |r.events| && r.states[i].started
    ensures r.states[n].started && r.states[i].cursor <= r.states[n].cursor
  {
    hide IsRun, Step, StartsOver, WellKept;
    RunLength(r, span);
    if i < n {
      CursorNeverGoesBack(r, span, i, n - 1);
      EventAt(r, span, n - 1);
      StepHeard(r.states[n - 1], span, r.events[n - 1], r.states[n]);
    }
  }

  /** Once something has been read, playout has started, and no packet or shift after that moves the cursor back. */
  lemma ReadingStartsPlayout(r: Run, span: nat, i: nat, n: nat)
    requires IsRun(r, span) && i < n <= |r.events| && r.events[i].Played? && r.events[i].length > 0
    ensures r.states[n].started && r.states[i].cursor + r.events[i].length == r.states[i + 1].cursor <= r.states[n].cursor
  {
    EventAt(r, span, i);
    hide IsRun, StartsOver, WellKept;
    CursorNeverGoesBack(r, span, i + 1, n);
  }

  ghost predicate HeardIn(r: Run, i: nat, k: int) {
    && i < |r.events| && |r.states| == |r.events| + 1
    && r.events[i].Played? && r.states[i].cursor <= k < r.states[i + 1].cursor
  }

  lemma {:induction false} HeardLength(r: Run, span: nat, silence: byte, n: nat)
    requires IsRun(r, span) && n <= |r.events| && r.states[0].started
    ensures |HeardSoFar(r, span, silence, n)| == r.states[n].cursor - r.states[0].cursor
  {
    hide Step, WellKept, Judge;
    if n > 0 {
      HeardLength(r, span, silence, n - 1);
      HeardNext(r, span, silence, n);
    }
  }

  lemma HeardInOne(r: Run, span: nat, i: nat, j: nat, k: int)
    requires IsRun(r, span) && r.states[0].started && HeardIn(r, i, k) && HeardIn(r, j, k)
    ensures i == j
  {
    CursorNeverGoesBack(r, span, 0, i + 1);
    CursorNeverGoesBack(r, span, 0, j + 1);
    if i < j {
      CursorNeverGoesBack(r, span, i + 1, j);
    } else if j < i {
      CursorNeverGoesBack(r, span, j + 1, i);
    }
  }

  /**
   Once playout has started, what is heard is one unbroken stretch of offsets: the byte heard in place
   `k - start` is the byte at offset `k`, as the map stood at the read that covers `k`; by `HeardInOne`
   there is just one.  No offset is heard twice and none is skipped.
   */
  lemma {:induction false} PlayoutIsUnbroken(r: Run, span: nat, silence: byte, n: nat, k: int) returns (i: nat)
    requires IsRun(r, span) && n <= |r.events| && r.states[0].started
    requires r.states[0].cursor <= k < r.states[n].cursor
    ensures |HeardSoFar(r, span, silence, n)| == r.states[n].cursor - r.states[0].cursor
    ensures i < n && HeardIn(r, i, k)
    ensures HeardSoFar(r, span, silence, n)[k - r.states[0].cursor] == Heard(r.states[i].mem, silence, k)
  {
    hide IsRun, Step, HeardSoFar;
    HeardLength(r, span, silence, n);
    HeardNext(r, span, silence, n);
    if k < r.states[n - 1].cursor {
      HeardLength(r, span, silence, n - 1);
      i := PlayoutIsUnbroken(r, span, silence, n - 1, k);
    } else {
      HeardLength(r, span, silence, n - 1);
      i := n - 1;
    }
  }

  /** What one more event adds to what is heard. */
  lemma HeardNext(r: Run, span: nat, silence: byte, n: nat)
    requires IsRun(r, span) && 0 < n <= |r.events| && r.states[0].started
    ensures |r.states| == |r.events| + 1
    ensures HeardSoFar(r, span, silence, n - 1) <= HeardSoFar(r, span, silence, n)
    ensures r.states[n - 1].cursor <= r.states[n].cursor
    ensures r.states[n - 1].cursor < r.states[n].cursor ==> r.events[n - 1].Played?
    ensures var was, heard := HeardSoFar(r, span, silence, n - 1), HeardSoFar(r, span, silence, n);
            |heard| == |was| + (r.states[n].cursor - r.states[n - 1].cursor)
            && forall i :: |was| <= i < |heard| ==> heard[i] == Heard(r.states[n - 1].mem, silence, r.states[n - 1].cursor + (i - |was|))
  {
    hide *;
    EventAt(r, span, n - 1);
    CursorNeverGoesBack(r, span, 0, n - 1);
    StepHeard(r.states[n - 1], span, r.events[n - 1], r.states[n]);
    HeardMore(r, span, silence, n);
  }

  lemma HeardMore(r: Run, span: nat, silence: byte, n: nat)
    requires IsRun(r, span) && 0 < n <= |r.events|
    ensures var was, heard, e := HeardSoFar(r, span, silence, n - 1), HeardSoFar(r, span, silence, n), r.events[n - 1];
            && |r.states| == |r.events| + 1 && was <= heard
            && |heard| == |was| + (if e.Played? then e.length else 0)
            && forall i :: |was| <= i < |heard| ==> heard[i] == Heard(r.states[n - 1].mem, silence, r.states[n - 1].cursor + (i - |was|))
  {
    hide Step, Judge, WellKept, Heard;
  }

  /** One event: reads move the cursor by their length, writes and shifts leave it, and playout goes on. */
  lemma StepHeard(s: Jitter, span: nat, e: Event, s': Jitter)
    requires s.started && s.base <= s.cursor && Step(s, span, e, s') && !StartsOver(s, span, e)
    ensures s'.started && s'.cursor == s.cursor + match e case Played(length) => length case _ => 0
  {
    hide Newest, LogMerged, Covered, LogIsHeard, Disjoint, ShiftRefused, ShiftWithin, ShiftedMem, Shifting, LogComplete;
  }

  // ------------------------------------------------------------------ replaying the log

  /**
   Replaying the log (`rebuild(False)`) changes neither the cursor nor any unread byte exactly when the log
   still has every unread byte.
   */
  lemma ReplayIsHarmlessIff(s: Jitter, replayed: map<int, byte>)
    requires WellKept(s)
    requires LogIsHeard(s.log, replayed, s.cursor)
    requires forall k :: k in replayed <==> s.cursor <= k && Covered(s.log, k)
    ensures replayed == s.mem <==> LogComplete(s)
  {
    forall k | k in replayed
      ensures k in s.mem && replayed[k] == s.mem[k]
    {
      var a :| Covers(s.log, a, k);
    }
    if LogComplete(s) {
      assert forall k :: k in s.mem <==> k in replayed;
    }
  }

  /** The unread bytes an accepted packet cuts from the log: those older than its cutoff that it does not cover. */
  ghost predicate CutFromLog(s: Jitter, span: nat, u: Packet, s': Jitter, k: int) {
    k in s.mem && s'.cursor <= k < Newest(s.log, u.offset) - span && !In(u, k)
  }

  /** A write keeps the log complete exactly when it cuts no unread byte from it. */
  lemma WriteKeepsLogIff(s: Jitter, span: nat, p: Packet, s': Jitter)
    requires WellKept(s) && WellKept(s') && WriteStep(s, span, p, s') && Judge(s, span, p) == Merge
    requires LogComplete(s)
    ensures LogComplete(s') <==> !exists k :: CutFromLog(s, span, Unplayed(s, p), s', k)
  {
    var u := Unplayed(s, p);
    assert Kept(s, u.offset) == s.mem;
    if k :| CutFromLog(s, span, u, s', k) {
      assert k in s'.mem && !Covered(s'.log, k);
    } else {
      forall k | k in s'.mem
        ensures Covered(s'.log, k)
      {
        assert !CutFromLog(s, span, u, s', k);
      }
    }
  }

  /** While no logged interval starts beyond the span, no write cuts an unread byte. */
  lemma WithinSpanCutsNothing(s: Jitter, span: nat, p: Packet, s': Jitter)
    requires WellKept(s) && WriteStep(s, span, p, s') && Judge(s, span, p) == Merge
    requires WithinSpan(s, span)
    ensures forall k :: !CutFromLog(s, span, Unplayed(s, p), s', k)
  {
  }

  /**
   ... and a write leaves it so unless its end falls inside a logged interval more than the span after the
   origin: the tail it splits off is the one interval that can start there.
   */
  lemma WithinSpanKeptIff(s: Jitter, span: nat, p: Packet, s': Jitter)
    requires WellKept(s) && WellKept(s') && WriteStep(s, span, p, s') && Judge(s, span, p) == Merge
    requires WithinSpan(s, span)
    ensures var u := Unplayed(s, p);
            var end := u.offset + |u.data|;
            WithinSpan(s', span) <==> (Covered(s.log, end) ==> end <= s'.base + span)
  {
    hide Judge, Unplayed, Merged, Newest, Covered, LogMerged, WellKept;
    MergeFacts(s, span, p, s');
    var u := Unplayed(s, p);
    var end := u.offset + |u.data|;
    if Covered(s.log, end) {
      TailStartsAtEnd(s.log, Newest(s.log, u.offset) - span, u, s'.log, s'.cursor);
    }
    forall a | a in s'.log && (Covered(s.log, end) ==> end <= s'.base + span)
      ensures a <= s'.base + span
    {
      MergedKey(s, span, u, s', a);
    }
  }

  lemma MergeFacts(s: Jitter, span: nat, p: Packet, s': Jitter)
    requires WellKept(s) && WriteStep(s, span, p, s') && Judge(s, span, p) == Merge
    ensures var u := Unplayed(s, p);
            && u.data != [] && Merged(s, span, u, s') && s.base <= s.cursor && s'.cursor <= u.offset
            && LogMerged(s.log, Newest(s.log, u.offset) - span, u, s'.log, s'.cursor)
            && Newest(s.log, u.offset) - span <= u.offset <= s.cursor + span
  {
  }

  lemma MergedKey(s: Jitter, span: nat, u: Packet, s': Jitter, a: int)
    requires s.base <= s.cursor && WithinSpan(s, span) && Merged(s, span, u, s') && a in s'.log
    requires u.offset >= Newest(s.log, u.offset) - span && u.offset - s.cursor <= span
    ensures a <= s'.base + span || (a == u.offset + |u.data| && Covered(s.log, a))
  {
    var end := u.offset + |u.data|;
    if a == end && a !in s.log && |s'.log[a]| > 0 && Piece(s.log, a, s'.log[a]) {
      var b :| PieceOf(s.log, b, a, s'.log[a]);
      assert Covers(s.log, b, end);
    }
  }

  lemma TailStartsAtEnd(log: Log, cutoff: int, p: Packet, log': Log, cursor: int)
    requires LogMerged(log, cutoff, p, log', cursor) && cursor <= p.offset && cutoff <= p.offset && p.data != []
    requires Covered(log, p.offset + |p.data|)
    ensures p.offset + |p.data| in log'
  {
    var end := p.offset + |p.data|;
    assert Covered(log', end);
    var a :| Covers(log', a, end);
  }

  lemma ReadKeepsLog(s: Jitter, length: nat, s': Jitter)
    requires ReadStep(s, length, s') && LogComplete(s)
    ensures LogComplete(s')
  {
    forall k | k in s'.mem
      ensures Covered(s'.log, k)
    {
      EndingAfterCovers(s.log, s'.cursor);
    }
  }

  /** Over a whole run in which no logged interval starts beyond the span, the log never loses an unread byte. */
  lemma {:induction false} LogStaysComplete(r: Run, span: nat, n: nat)
    requires IsRun(r, span) && n <= |r.events| && LogComplete(r.states[0])
    requires forall i :: 0 <= i < n ==> WithinSpan(r.states[i], span)
    ensures LogComplete(r.states[n])
  {
    hide IsRun, Step, StartsOver, WellKept, LogComplete, WithinSpan;
    RunLength(r, span);
    if n > 0 {
      LogStaysComplete(r, span, n - 1);
      EventAt(r, span, n - 1);
      EventKeepsLog(r.states[n - 1], span, r.events[n - 1], r.states[n]);
    }
  }

  lemma EventKeepsLog(s: Jitter, span: nat, e: Event, s': Jitter)
    requires WellKept(s) && WellKept(s') && Step(s, span, e, s') && !StartsOver(s, span, e)
    requires LogComplete(s) && WithinSpan(s, span)
    ensures LogComplete(s')
  {
    hide WellKept, LogComplete, WithinSpan, Judge, Merged, Unplayed, CutFromLog, ReadStep, ShiftRefused, ShiftWithin, ShiftedMem, Shifting, Covered;
    match e
    case Wrote(p) =>
      if Judge(s, span, p) == Merge {
        WithinSpanCutsNothing(s, span, p, s');
        WriteKeepsLogIff(s, span, p, s');
      }
    case Played(length) => ReadKeepsLog(s, length, s');
    case Shifted(_, _) =>
  }

  lemma FreshIsComplete(offset: int, data: seq<byte>, span: nat)
    ensures LogComplete(Fresh(offset, data)) && WithinSpan(Fresh(offset, data), span)
  {
    forall k | k in Placed(offset, data)
      ensures Covered(map[offset := data], k)
    {
      assert Covers(map[offset := data], offset, k);
    }
  }

  /**
   Without that condition it can.  With a span of 10: bytes 0-3, then 8-17, then 9-11 inside those.  The
   tail 12-17 becomes an interval of its own, so the next packet, at 5, is measured against 12 and cuts
   bytes 0 and 1 from the log although nothing has been played.
   */
  lemma TailDriftCutsUnreadBytes(a: seq<byte>, b: seq<byte>, c: seq<byte>, d: seq<byte>, s1: Jitter, s2: Jitter, s3: Jitter)
    requires |a| == 4 && |b| == 10 && |c| == 3 && |d| == 1
    requires WriteStep(Fresh(0, a), 10, Packet(8, b), s1) && WellKept(s1)
    requires WriteStep(s1, 10, Packet(9, c), s2) && WellKept(s2)
    requires WriteStep(s2, 10, Packet(5, d), s3) && WellKept(s3)
    ensures 0 in s3.mem && s3.cursor == 0 && !Covered(s3.log, 0)
  {
    hide WellKept, WriteStep;
    assert !Covered(Fresh(0, a).log, 18);
    hide Covered;
    DriftKeys(Fresh(0, a), Packet(8, b), s1);
    DriftKeys(s1, Packet(9, c), s2);
    DriftCut(s2, Packet(5, d), s3);
  }

  lemma DriftCut(s: Jitter, p: Packet, s': Jitter)
    requires s.initialized && !s.started && s.base == s.cursor == 0 && p.offset == 5 && |p.data| == 1
    requires 12 in s.log && forall a :: a in s.log ==> 0 <= a <= 12
    requires 0 in s.mem
    requires WriteStep(s, 10, p, s')
    ensures 0 in s'.mem && s'.cursor == 0 && !Covered(s'.log, 0)
  {
    assert Newest(s.log, 5) == 12;
  }

  lemma DriftKeys(s: Jitter, p: Packet, s': Jitter)
    requires s.initialized && !s.started && s.base == s.cursor == 0 && 0 < p.offset <= 10 && p.data != []
    requires forall a :: a in s.log ==> 0 <= a < p.offset
    requires WriteStep(s, 10, p, s')
    ensures s'.initialized && !s'.started && s'.base == s'.cursor == 0 && s'.mem == s.mem + Placed(p.offset, p.data)
    ensures forall a :: a in s'.log ==> 0 <= a <= p.offset || (a == p.offset + |p.data| && Covered(s.log, a))
    ensures Covered(s.log, p.offset + |p.data|) ==> p.offset + |p.data| in s'.log
    ensures p.offset + |p.data| > 12 >= p.offset ==> Covered(s'.log, 12)
  {
    assert Judge(s, 10, p) == Merge;
    if Covered(s.log, p.offset + |p.data|) {
      TailStartsAtEnd(s.log, p.offset - 10, p, s'.log, 0);
    }
    forall a | a in s'.log
      ensures 0 <= a <= p.offset || (a == p.offset + |p.data| && Covered(s.log, a))
    {
      if a !in s.log && a != p.offset {
        var b :| PieceOf(s.log, b, a, s'.log[a]);
        assert Covers(s.log, b, a);
      }
    }
    assert Covered(s'.log, p.offset);
  }

  lemma FirstIsFresh(s: Jitter, p: Packet, s': Jitter)
    requires !s.initialized && !s.started && p.data != [] && WriteStep(s, 10, p, s')
    ensures s' == Fresh(p.offset, p.data)
  {
  }

  /** The buffer itself gets there. */
  method DriftIsReached(silence: byte, a: seq<byte>, b: seq<byte>, c: seq<byte>, d: seq<byte>) returns (buffer: PacketManager)
    requires |a| == 4 && |b| == 10 && |c| == 3 && |d| == 1
    ensures fresh(buffer) && buffer.Valid() && buffer.maxLogSpan == 10
    ensures var s := buffer.View(); 0 in s.mem && s.cursor == 0 && !Covered(s.log, 0)
  {
    hide PacketManager.Valid, WriteStep, WellKept, Covered;
    buffer := new PacketManager(10, silence);
    ghost var s0 := buffer.View();
    buffer.Write(0, a);
    FirstIsFresh(s0, Packet(0, a), buffer.View());
    buffer.Write(8, b);
    ghost var s1 := buffer.View();
    buffer.ValidIsWellKept();
    buffer.Write(9, c);
    ghost var s2 := buffer.View();
    buffer.ValidIsWellKept();
    buffer.Write(5, d);
    buffer.ValidIsWellKept();
    TailDriftCutsUnreadBytes(a, b, c, d, s1, s2, buffer.View());
  }
}
