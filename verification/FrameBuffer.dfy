/**
 The jitter buffer before playout, holding whole frames that do not overlap: what one write and one suffix
 shift do to the frames.
 */
module FrameBuffer {
  import opened Bytes
  import opened JitterBuffer
  import Playout

  ghost predicate Inside(p: Packet, k: int) {
    p.offset <= k < p.offset + |p.data|
  }

  ghost predicate Apart(p: Packet, q: Packet) {
    p.offset + |p.data| <= q.offset || q.offset + |q.data| <= p.offset
  }

  /** Nothing has been read, and what will be heard is exactly the frames, the rest silence. */
  ghost predicate HoldsFrames(j: Jitter, base: int, frames: seq<Packet>) {
    && WellKept(j) && LogComplete(j)
    && j.initialized && !j.started && j.base == j.cursor == base
    && (forall a :: a in j.log ==> exists p :: p in frames && a == p.offset && |j.log[a]| <= |p.data|)
    && (forall p, k :: p in frames && Inside(p, k) ==> k in j.mem && j.mem[k] == At(p.offset, p.data, k))
    && (forall k :: k in j.mem ==> exists p :: p in frames && Inside(p, k))
  }

  lemma FreshHoldsFrame(p: Packet)
    ensures HoldsFrames(Fresh(p.offset, p.data), p.offset, [p])
  {
    var j := Fresh(p.offset, p.data);
    Playout.FreshIsComplete(p.offset, p.data, 0);
    assert p in [p];
    forall k | k in j.mem
      ensures exists q :: q in [p] && Inside(q, k)
    {
      assert Inside(p, k);
    }
  }

  /** A frame that overlaps none and starts within the span is added to them. */
  lemma WriteAddsFrame(j: Jitter, base: int, span: nat, frames: seq<Packet>, p: Packet, j': Jitter)
    requires HoldsFrames(j, base, frames) && WriteStep(j, span, p, j') && WellKept(j')
    requires base <= p.offset <= base + span && forall q :: q in frames ==> q.offset <= base + span && Apart(p, q)
    ensures HoldsFrames(j', base, frames + [p])
  {
    if p.data == [] {
      EmptyFrame(j, base, frames, p);
    } else {
      assert WithinSpan(j, span);
      assert Judge(j, span, p) == Merge && Unplayed(j, p) == p && Merged(j, span, p, j');
      Playout.WithinSpanCutsNothing(j, span, p, j');
      Playout.WriteKeepsLogIff(j, span, p, j');
      forall a | a in j'.log
        ensures exists q :: q in frames + [p] && a == q.offset && |j'.log[a]| <= |q.data|
      {
        EntryIsFrame(j, base, span, frames, p, j', a);
      }
      MemOfFrames(j, frames, p, j'.mem);
    }
  }

  /** Before playout, a frame less than 100000 bytes before the origin moves the origin back and keeps what is queued. */
  lemma RewindAddsFrame(j: Jitter, base: int, span: nat, frames: seq<Packet>, p: Packet, j': Jitter)
    requires HoldsFrames(j, base, frames) && WriteStep(j, span, p, j') && WellKept(j')
    requires p.data != [] && base - 100000 < p.offset < base
    requires forall q :: q in frames ==> q.offset <= p.offset + span && Apart(p, q)
    ensures HoldsFrames(j', p.offset, frames + [p])
  {
    RewindIsMerged(j, base, span, frames, p, j');
    HeldMem(j, base, frames);
    MemOfFrames(j, frames, p, j'.mem);
    forall a | a in j'.log
      ensures exists q :: q in frames + [p] && a == q.offset && |j'.log[a]| <= |q.data|
    {
      EntryIsFrame(j, base, span, frames, p, j', a);
    }
    RewoundIsComplete(j, span, p, j');
    hide WellKept, LogComplete, Merged, Inside, At;
  }

  lemma RewindIsMerged(j: Jitter, base: int, span: nat, frames: seq<Packet>, p: Packet, j': Jitter)
    requires HoldsFrames(j, base, frames) && WriteStep(j, span, p, j')
    requires p.data != [] && base - 100000 < p.offset < base && forall q :: q in frames ==> q.offset <= p.offset + span
    ensures Newest(j.log, p.offset) <= p.offset + span && Merged(j, span, p, j') && Kept(j, p.offset) == j.mem && LogComplete(j)
    ensures j'.initialized && !j'.started && j'.base == j'.cursor == p.offset && j'.mem == j.mem + Placed(p.offset, p.data)
  {
    HeldFacts(j, base, frames);
    HeldLog(j, base, frames, p.offset + span);
    Playout.NewestIsLeast(j.log, p.offset, p.offset + span);
    KeptIfLogged(j, p.offset);
    hide HoldsFrames, Newest, Disjoint, LogIsHeard, LogComplete, Kept, LogMerged, Placed;
    assert Judge(j, span, p) == Merge && Unplayed(j, p) == p;
  }

  lemma HeldLog(j: Jitter, base: int, frames: seq<Packet>, bound: int)
    requires HoldsFrames(j, base, frames) && forall q :: q in frames ==> q.offset <= bound
    ensures LogComplete(j) && forall a :: a in j.log ==> a <= bound
  {
  }

  lemma KeptIfLogged(j: Jitter, offset: int)
    requires LogComplete(j)
    ensures Kept(j, offset) == j.mem
  {
    hide Covered;
  }

  lemma HeldMem(j: Jitter, base: int, frames: seq<Packet>)
    requires HoldsFrames(j, base, frames)
    ensures forall q, k :: q in frames && Inside(q, k) ==> k in j.mem && j.mem[k] == At(q.offset, q.data, k)
    ensures forall k :: k in j.mem ==> exists q :: q in frames && Inside(q, k)
  {
  }

  lemma RewoundIsComplete(j: Jitter, span: nat, p: Packet, j': Jitter)
    requires LogComplete(j) && Merged(j, span, p, j') && Kept(j, p.offset) == j.mem && WellKept(j')
    requires Newest(j.log, p.offset) - span <= j'.cursor
    ensures LogComplete(j')
  {
    hide Newest, Kept, Covered;
    forall k | k in j'.mem
      ensures Covered(j'.log, k)
    {
      assert j'.cursor <= k;
    }
  }

  /** A frame that is too far from the origin is left alone in the buffer. */
  lemma FarFrameStartsOver(j: Jitter, base: int, span: nat, frames: seq<Packet>, p: Packet, j': Jitter)
    requires HoldsFrames(j, base, frames) && WriteStep(j, span, p, j') && p.data != []
    requires p.offset <= base - 100000 || base + span < p.offset
    requires forall q :: q in frames ==> q.offset <= p.offset + span
    ensures HoldsFrames(j', p.offset, [p])
  {
    assert Newest(j.log, p.offset) <= p.offset + span;
    assert Judge(j, span, p) == Restart && Unplayed(j, p) == p;
    hide HoldsFrames, Judge, Unplayed, Fresh;
    FreshHoldsFrame(p);
  }

  /** Where a frame of its own begins, the log has an interval. */
  lemma FrameIsLogged(j: Jitter, base: int, frames: seq<Packet>, q: Packet)
    requires HoldsFrames(j, base, frames) && q in frames && q.data != []
    requires forall p :: p in frames && p != q ==> Apart(p, q)
    ensures q.offset in j.log
  {
    assert Inside(q, q.offset);
    assert q.offset in j.mem;
    var a :| Covers(j.log, a, q.offset);
    var p :| p in frames && a == p.offset && |j.log[a]| <= |p.data|;
  }

  lemma OldFrameIsIgnored(j: Jitter, base: int, span: nat, frames: seq<Packet>, p: Packet, q: Packet, j': Jitter)
    requires HoldsFrames(j, base, frames) && WriteStep(j, span, p, j') && q in frames && q.data != [] && p.offset + span < q.offset
    requires forall r :: r in frames && r != q ==> Apart(r, q)
    ensures j' == j
  {
    FrameIsLogged(j, base, frames, q);
    hide HoldsFrames, WellKept, LogComplete;
    assert Newest(j.log, p.offset) >= q.offset;
    assert !j.started by { HeldFacts(j, base, frames); }
    assert Judge(j, span, p) == Ignore;
  }

  /**
   What becomes of a frame that overlaps none of those held, before playout: one more than the span before the newest
   is dropped; one 100000 bytes or more before the origin, or more than the span past it, is left alone in the
   buffer; any other joins the frames, and the origin moves back to it when it comes before.
   */
  lemma FrameOutcome(j: Jitter, base: int, span: nat, frames: seq<Packet>, p: Packet, j': Jitter)
    requires HoldsFrames(j, base, frames) && WriteStep(j, span, p, j') && WellKept(j') && p.data != []
    requires forall q :: q in frames ==> q.data != [] && q.offset <= base + span && Apart(p, q)
    requires forall q, r :: q in frames && r in frames && q != r ==> Apart(q, r)
    ensures if exists q :: q in frames && p.offset + span < q.offset then j' == j
            else if p.offset <= base - 100000 || base + span < p.offset then HoldsFrames(j', p.offset, [p])
            else HoldsFrames(j', if p.offset < base then p.offset else base, frames + [p])
  {
    hide HoldsFrames, WriteStep, WellKept;
    if q :| q in frames && p.offset + span < q.offset {
      OldFrameIsIgnored(j, base, span, frames, p, q, j');
    } else if p.offset <= base - 100000 || base + span < p.offset {
      FarFrameStartsOver(j, base, span, frames, p, j');
    } else if p.offset < base {
      RewindAddsFrame(j, base, span, frames, p, j');
    } else {
      WriteAddsFrame(j, base, span, frames, p, j');
    }
  }

  lemma CoveredWithFrame(log: Log, cutoff: int, p: Packet, k: int)
    requires forall a :: a in log ==> cutoff <= a
    requires p.offset in log ==> log[p.offset] == []
    ensures Covered(log[p.offset := p.data], k) <==> p.offset <= k < p.offset + |p.data| || (Covered(log, k) && cutoff <= k)
  {
    var log' := log[p.offset := p.data];
    if a :| Covers(log, a, k) {
      assert Covers(log', a, k);
    }
    if p.offset <= k < p.offset + |p.data| {
      assert Covers(log', p.offset, k);
    }
    if a :| Covers(log', a, k) {
      assert a != p.offset ==> Covers(log, a, k);
    }
  }

  lemma PieceOfItself(log: Log, a: int)
    requires a in log
    ensures Piece(log, a, log[a])
  {
    assert PieceOf(log, a, a, log[a]);
  }

  /** A log of intervals that keep clear of a packet is merged with it by adding it. */
  lemma LogWithFrame(log: Log, cutoff: int, p: Packet, cursor: int)
    requires p.data != [] && Disjoint(log) && (p.offset in log ==> log[p.offset] == [])
    requires forall a :: a in log ==> cutoff <= a && (a != p.offset ==> p.offset + |p.data| <= a || a + |log[a]| <= p.offset)
    ensures Disjoint(log[p.offset := p.data]) && LogMerged(log, cutoff, p, log[p.offset := p.data], cursor)
  {
    hide Covered, Piece;
    forall k {
      CoveredWithFrame(log, cutoff, p, k);
    }
    var log' := log[p.offset := p.data];
    forall a | a in log' && a != p.offset
      ensures Piece(log, a, log'[a])
    {
      assert log'[a] == log[a];
      PieceOfItself(log, a);
    }
    assert Disjoint(log');
    assert forall k :: cursor <= k ==> (Covered(log', k) <==> p.offset <= k < p.offset + |p.data| || (Covered(log, k) && cutoff <= k));
    assert forall a :: a in log' && a != p.offset ==> Clear(a, log'[a], cutoff, p.offset, p.offset + |p.data|);
    assert p.offset in log' && log'[p.offset] == p.data;
  }

  lemma HeardWithFrame(log: Log, mem: map<int, byte>, p: Packet, cursor: int)
    requires LogIsHeard(log, mem, cursor) && p.data != []
    requires forall a :: a in log && a != p.offset ==> p.offset + |p.data| <= a || a + |log[a]| <= p.offset
    ensures LogIsHeard(log[p.offset := p.data], mem + Placed(p.offset, p.data), cursor)
  {
    var log', mem' := log[p.offset := p.data], mem + Placed(p.offset, p.data);
    forall a, k | Covers(log', a, k) && cursor <= k
      ensures k in mem' && mem'[k] == At(a, log'[a], k)
    {
      if a != p.offset {
        assert Covers(log, a, k);
      }
    }
  }

  /** What a logged interval has to do with a frame that overlaps none. */
  lemma EntryIsClear(j: Jitter, base: int, span: nat, frames: seq<Packet>, p: Packet, a: int)
    requires HoldsFrames(j, base, frames) && p.data != [] && a in j.log
    requires base <= p.offset <= base + span && forall q :: q in frames ==> q.offset <= base + span && Apart(p, q)
    ensures base <= a <= base + span
    ensures if a == p.offset then j.log[a] == [] else p.offset + |p.data| <= a || a + |j.log[a]| <= p.offset
  {
    hide LogComplete, Disjoint, LogIsHeard;
    var q :| q in frames && a == q.offset && |j.log[a]| <= |q.data|;
  }

  lemma FrameIsMerged(j: Jitter, span: nat, p: Packet)
    requires p.data != [] && j.initialized && !j.started && j.base == j.cursor <= p.offset <= j.base + span
    requires Newest(j.log, p.offset) - span <= p.offset
    ensures Judge(j, span, p) == Merge && Unplayed(j, p) == p && Kept(j, p.offset) == j.mem
  {
    hide Newest;
  }

  /** There is a buffer with the frame added. */
  lemma FrameIsWritten(j: Jitter, base: int, span: nat, frames: seq<Packet>, p: Packet) returns (j': Jitter)
    requires HoldsFrames(j, base, frames) && p.data != []
    requires base <= p.offset <= base + span && forall q :: q in frames ==> q.offset <= base + span && Apart(p, q)
    ensures WriteStep(j, span, p, j') && WellKept(j')
  {
    hide *;
    forall a | a in j.log
      ensures base <= a <= base + span
      ensures if a == p.offset then j.log[a] == [] else p.offset + |p.data| <= a || a + |j.log[a]| <= p.offset
    {
      EntryIsClear(j, base, span, frames, p, a);
    }
    HeldFacts(j, base, frames);
    NewestBounds(j.log, p.offset);
    LogWithFrame(j.log, Newest(j.log, p.offset) - span, p, base);
    HeardWithFrame(j.log, j.mem, p, base);
    FrameIsMerged(j, span, p);
    j' := j.(mem := j.mem + Placed(p.offset, p.data), log := j.log[p.offset := p.data]);
    MergedIsStep(j, span, p, j');
    MergedIsWellKept(j, p, j');
  }

  lemma MergedIsStep(j: Jitter, span: nat, p: Packet, j': Jitter)
    requires Judge(j, span, p) == Merge && Unplayed(j, p) == p && Kept(j, p.offset) == j.mem
    requires j.initialized && j.base == j.cursor <= p.offset <= j.base + span
    requires j' == j.(mem := j.mem + Placed(p.offset, p.data), log := j'.log)
    requires LogMerged(j.log, Newest(j.log, p.offset) - span, p, j'.log, j.cursor)
    ensures WriteStep(j, span, p, j')
  {
    hide Judge, Unplayed, Kept, Newest, LogMerged, Placed;
  }

  lemma MergedIsWellKept(j: Jitter, p: Packet, j': Jitter)
    requires j.initialized && !j.started && j.base == j.cursor <= p.offset
    requires (forall k :: k in j.mem ==> j.cursor <= k) && forall a :: a in j.log ==> j.base <= a
    requires j' == j.(mem := j.mem + Placed(p.offset, p.data), log := j.log[p.offset := p.data])
    requires Disjoint(j'.log) && LogIsHeard(j'.log, j'.mem, j'.cursor)
    ensures WellKept(j')
  {
    hide Disjoint, LogIsHeard;
  }

  lemma HeldFacts(j: Jitter, base: int, frames: seq<Packet>)
    requires HoldsFrames(j, base, frames)
    ensures j.initialized && !j.started && j.base == j.cursor == base
    ensures Disjoint(j.log) && LogIsHeard(j.log, j.mem, base) && forall k :: k in j.mem ==> base <= k
  {
  }

  lemma HeldIsWellKept(j: Jitter, base: int, frames: seq<Packet>)
    requires HoldsFrames(j, base, frames)
    ensures WellKept(j)
  {
  }

  lemma EmptyFrame(j: Jitter, base: int, frames: seq<Packet>, p: Packet)
    requires HoldsFrames(j, base, frames) && p.data == []
    ensures HoldsFrames(j, base, frames + [p])
  {
    forall q | q in frames
      ensures q in frames + [p]
    {
    }
    forall q, k | q in frames + [p] && Inside(q, k)
      ensures q in frames
    {
    }
  }

  lemma MemOfFrames(j: Jitter, frames: seq<Packet>, p: Packet, mem': map<int, byte>)
    requires forall q, k :: q in frames && Inside(q, k) ==> k in j.mem && j.mem[k] == At(q.offset, q.data, k)
    requires forall k :: k in j.mem ==> exists q :: q in frames && Inside(q, k)
    requires forall q :: q in frames ==> Apart(p, q)
    requires mem' == j.mem + Placed(p.offset, p.data)
    ensures forall q, k :: q in frames + [p] && Inside(q, k) ==> k in mem' && mem'[k] == At(q.offset, q.data, k)
    ensures forall k :: k in mem' ==> exists q :: q in frames + [p] && Inside(q, k)
  {
    forall k | k in mem'
      ensures exists q :: q in frames + [p] && Inside(q, k)
    {
      if k in Placed(p.offset, p.data) {
        assert p in frames + [p] && Inside(p, k);
      } else {
        var q :| q in frames && Inside(q, k);
        assert q in frames + [p];
      }
    }
  }

  lemma EntryIsFrame(j: Jitter, base: int, span: nat, frames: seq<Packet>, p: Packet, j': Jitter, a: int)
    requires HoldsFrames(j, base, frames) && WellKept(j') && a in j'.log
    requires Merged(j, span, p, j') && p.data != []
    requires Newest(j.log, p.offset) - span <= base && forall q :: q in frames ==> Apart(p, q)
    ensures exists q :: q in frames + [p] && a == q.offset && |j'.log[a]| <= |q.data|
  {
    var size := |j'.log[a]|;
    if a == p.offset && j'.log[a] == p.data {
      assert p in frames + [p];
    } else {
      var b :| PieceOf(j.log, b, a, j'.log[a]);
      var q :| q in frames && b == q.offset && |j.log[b]| <= |q.data|;
      assert q in frames + [p];
      assert a in j.log || (size > 0 && (a == p.offset + |p.data| || a == Newest(j.log, p.offset) - span));
      if a in j.log {
        assert Disjoint(j.log);
        assert a == b || size == 0;
        var q' :| q' in frames && a == q'.offset && |j.log[a]| <= |q'.data|;
        assert q' in frames + [p];
      }
    }
  }

  // ------------------------------------------------------------------ shifting

  /** The frame after a shift. */
  ghost function MovedFrame(p: Packet, boundary: int, delta: int): Packet {
    if p.offset < boundary then p else Packet(p.offset + delta, p.data)
  }

  ghost function MovedFrames(frames: seq<Packet>, boundary: int, delta: int): (r: seq<Packet>)
    ensures |r| == |frames| && forall i :: 0 <= i < |r| ==> r[i] == MovedFrame(frames[i], boundary, delta)
  {
    seq<Packet>(|frames|, i requires 0 <= i < |frames| => MovedFrame(frames[i], boundary, delta))
  }

  /** Frames before the boundary end before it and before where the first moved frame may land; all stay within the span. */
  ghost predicate Shiftable(base: int, span: nat, frames: seq<Packet>, boundary: int, delta: int) {
    && base <= boundary && base <= boundary + delta
    && forall p :: p in frames ==>
                     && base <= p.offset <= base + span
                     && MovedFrame(p, boundary, delta).offset <= base + span
                     && (p.offset < boundary ==> p.offset + |p.data| <= boundary && p.offset + |p.data| <= boundary + delta)
  }

  /** A logged interval of a frame, before and after the shift. */
  lemma EntryShifts(j: Jitter, base: int, span: nat, frames: seq<Packet>, boundary: int, delta: int, a: int)
    requires HoldsFrames(j, base, frames) && Shiftable(base, span, frames, boundary, delta) && a in j.log
    ensures a < boundary ==> a + |j.log[a]| <= boundary && a + |j.log[a]| <= boundary + delta
    ensures base <= a <= base + span && (a >= boundary ==> base <= a + delta <= base + span)
  {
    var p :| p in frames && a == p.offset && |j.log[a]| <= |p.data|;
  }

  lemma ShiftIsAccepted(j: Jitter, base: int, span: nat, frames: seq<Packet>, boundary: int, delta: int)
    requires HoldsFrames(j, base, frames) && Shiftable(base, span, frames, boundary, delta)
    ensures !ShiftRefused(j.log, boundary, delta)
    ensures ShiftWithin(j.log, base, span, boundary, delta, base)
  {
    assert base <= boundary && base <= boundary + delta;
    hide HoldsFrames, Shiftable;
    forall a | a in j.log
      ensures a < boundary ==> a + |j.log[a]| <= boundary && a + |j.log[a]| <= boundary + delta
    {
      EntryShifts(j, base, span, frames, boundary, delta, a);
    }
    forall a | a in j.log
      ensures |j.log[a]| > 0 && a < boundary ==> a <= base + span
      ensures var to := NewStart(SuffixStart(a, boundary, base), delta, base);
              to - delta < a + |j.log[a]| ==> to <= base + span
    {
      EntryShifts(j, base, span, frames, boundary, delta, a);
    }
  }

  /** A shift moves exactly the frames from the boundary on. */
  lemma ShiftMovesFrames(j: Jitter, base: int, span: nat, frames: seq<Packet>, boundary: int, delta: int, ok: bool, j': Jitter)
    requires HoldsFrames(j, base, frames) && Shiftable(base, span, frames, boundary, delta)
    requires ShiftStep(j, span, boundary, delta, ok, j') && WellKept(j')
    ensures ok && HoldsFrames(j', base, MovedFrames(frames, boundary, delta))
  {
    ShiftIsAccepted(j, base, span, frames, boundary, delta);
    var moved := MovedFrames(frames, boundary, delta);
    hide HoldsFrames, Shiftable, ShiftWithin, ShiftRefused, WellKept, LogComplete, Shifting, ShiftedMem, LoggedPart;
    MovedEntries(j, base, span, frames, boundary, delta, j'.log);
    MovedMem(j, base, span, frames, boundary, delta, j'.mem);
    Assemble(j, base, frames, j', moved);
  }

  lemma Assemble(j: Jitter, base: int, frames: seq<Packet>, j': Jitter, moved: seq<Packet>)
    requires HoldsFrames(j, base, frames) && WellKept(j') && LogComplete(j')
    requires j'.base == j.base && j'.cursor == j.cursor && j'.started == j.started && j'.initialized == j.initialized
    requires forall a :: a in j'.log ==> exists p :: p in moved && a == p.offset && |j'.log[a]| <= |p.data|
    requires forall p, k :: p in moved && Inside(p, k) ==> k in j'.mem && j'.mem[k] == At(p.offset, p.data, k)
    requires forall k :: k in j'.mem ==> exists p :: p in moved && Inside(p, k)
    ensures HoldsFrames(j', base, moved)
  {
  }

  lemma MovedEntries(j: Jitter, base: int, span: nat, frames: seq<Packet>, boundary: int, delta: int, log': Log)
    requires HoldsFrames(j, base, frames) && Shiftable(base, span, frames, boundary, delta)
    requires Shifting(j.log, log', {}, boundary, delta, j.cursor)
    ensures var moved := MovedFrames(frames, boundary, delta);
            forall b :: b in log' ==> exists p :: p in moved && b == p.offset && |log'[b]| <= |p.data|
  {
    var moved := MovedFrames(frames, boundary, delta);
    hide WellKept, LogComplete, ShiftOf, Shifting;
    forall b | b in log'
      ensures exists p :: p in moved && b == p.offset && |log'[b]| <= |p.data|
    {
      var a := ShiftedSource(j.log, log', boundary, delta, j.cursor, b);
      var p :| p in frames && a == p.offset && |j.log[a]| <= |p.data|;
      var i :| 0 <= i < |frames| && frames[i] == p;
      assert moved[i] in moved;
      WholeInterval(a, j.log[a], boundary, delta, j.cursor, b);
    }
  }

  lemma ShiftedSource(log: Log, log': Log, boundary: int, delta: int, cursor: int, b: int) returns (a: int)
    requires Shifting(log, log', {}, boundary, delta, cursor) && b in log'
    ensures a in log && b in ShiftOf(a, log[a], boundary, delta, cursor) && log'[b] == ShiftOf(a, log[a], boundary, delta, cursor)[b]
  {
    a :| a in log && FromShift(log, a, log', b, boundary, delta, cursor);
  }

  /** An interval that does not straddle the boundary stays or moves as a whole. */
  lemma WholeInterval(a: int, data: seq<byte>, boundary: int, delta: int, cursor: int, b: int)
    requires cursor <= boundary && cursor <= boundary + delta
    requires a < boundary ==> a + |data| <= boundary
    requires b in ShiftOf(a, data, boundary, delta, cursor)
    ensures b == (if a < boundary then a else a + delta) && |ShiftOf(a, data, boundary, delta, cursor)[b]| <= |data|
  {
  }

  lemma MovedMem(j: Jitter, base: int, span: nat, frames: seq<Packet>, boundary: int, delta: int, mem': map<int, byte>)
    requires HoldsFrames(j, base, frames) && Shiftable(base, span, frames, boundary, delta)
    requires mem' == ShiftedMem(LoggedPart(j), boundary, delta, j.cursor)
    ensures var moved := MovedFrames(frames, boundary, delta);
            && (forall p, k :: p in moved && Inside(p, k) ==> k in mem' && mem'[k] == At(p.offset, p.data, k))
            && (forall k :: k in mem' ==> exists p :: p in moved && Inside(p, k))
  {
    var moved := MovedFrames(frames, boundary, delta);
    assert LoggedPart(j) == j.mem;
    hide ShiftedMem, LoggedPart, HoldsFrames, Shiftable, MovedFrame;
    forall p, k | p in moved && Inside(p, k)
      ensures k in mem' && mem'[k] == At(p.offset, p.data, k)
    {
      var i :| 0 <= i < |moved| && moved[i] == p;
      MovedByte(j, base, span, frames, boundary, delta, i, k);
    }
    forall k | k in mem'
      ensures exists p :: p in moved && Inside(p, k)
    {
      var i := MovedFromFrame(j, base, span, frames, boundary, delta, k);
      assert moved[i] in moved;
    }
  }

  lemma MovedByte(j: Jitter, base: int, span: nat, frames: seq<Packet>, boundary: int, delta: int, i: nat, k: int)
    requires HoldsFrames(j, base, frames) && Shiftable(base, span, frames, boundary, delta)
    requires i < |frames| && Inside(MovedFrame(frames[i], boundary, delta), k)
    ensures var p, mem' := MovedFrame(frames[i], boundary, delta), ShiftedMem(j.mem, boundary, delta, j.cursor);
            k in mem' && mem'[k] == At(p.offset, p.data, k)
  {
    hide ShiftedMem, WellKept, LogComplete;
    ShiftedKeys(j.mem, boundary, delta, j.cursor, k);
    assert frames[i] in frames;
    if frames[i].offset < boundary {
      assert Inside(frames[i], k);
      assert !(k - delta in j.mem && boundary <= k - delta);
    } else {
      assert Inside(frames[i], k - delta);
    }
  }

  lemma MovedFromFrame(j: Jitter, base: int, span: nat, frames: seq<Packet>, boundary: int, delta: int, k: int) returns (i: nat)
    requires HoldsFrames(j, base, frames) && Shiftable(base, span, frames, boundary, delta)
    requires k in ShiftedMem(j.mem, boundary, delta, j.cursor)
    ensures i < |frames| && Inside(MovedFrame(frames[i], boundary, delta), k)
  {
    hide ShiftedMem, WellKept, LogComplete;
    ShiftedKeys(j.mem, boundary, delta, j.cursor, k);
    var from := if k - delta in j.mem && boundary <= k - delta && j.cursor <= k then k - delta else k;
    var q :| q in frames && Inside(q, from);
    i :| 0 <= i < |frames| && frames[i] == q;
  }
}
