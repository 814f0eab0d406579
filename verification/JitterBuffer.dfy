/**
 The receive jitter buffer (RTPPacketManager).

 The program keeps three things: a byte buffer with a read position, the absolute offset of the buffer's
 first byte, and a log of the byte intervals it has accepted.  What a listener needs is much simpler: a map
 from absolute offset to byte, silence where the map has no entry, and one cursor.  The ghost field `mem` is
 that map, and every method states what it does to it.
 */
module JitterBuffer {
  import opened Bytes

  type Log = map<int, seq<byte>>

  /** A packet that arrives this far before the buffer's origin erases the buffer. */
  const RESET_DISTANCE := 100000

  // ------------------------------------------------------------------ the plain map

  ghost function At(offset: int, data: seq<byte>, k: int): byte
    requires offset <= k < offset + |data|
  {
    data[k - offset]
  }

  ghost function Placed(offset: int, data: seq<byte>): map<int, byte> {
    map k: int | offset <= k < offset + |data| :: At(offset, data, k)
  }

  ghost function From(mem: map<int, byte>, cursor: int): map<int, byte> {
    map k | k in mem && cursor <= k :: mem[k]
  }

  ghost function Heard(mem: map<int, byte>, silence: byte, k: int): byte {
    if k in mem then mem[k] else silence
  }

  // ------------------------------------------------------------------ the interval log

  /** No logged interval reaches into the next one (an empty interval is a point). */
  ghost predicate Disjoint(log: Log) {
    forall a, b :: a in log && b in log && a < b ==> a + |log[a]| <= b
  }

  ghost predicate Covers(log: Log, a: int, k: int) {
    a in log && a <= k < a + |log[a]|
  }

  ghost predicate Covered(log: Log, k: int) {
    exists a :: Covers(log, a, k)
  }

  /** The intervals that end after `at`. */
  function EndingAfter(log: Log, at: int): Log {
    map a | a in log && a + |log[a]| > at :: log[a]
  }

  /** `data` at offset `a` is a piece of the interval logged at `b`. */
  ghost predicate PieceOf(log: Log, b: int, a: int, data: seq<byte>) {
    && b in log && b <= a && a + |data| <= b + |log[b]|
    && forall k :: a <= k < a + |data| ==> At(a, data, k) == At(b, log[b], k)
  }

  ghost predicate Piece(log: Log, a: int, data: seq<byte>) {
    exists b :: PieceOf(log, b, a, data)
  }

  /** An interval that keeps clear of `[offset, end)` and of everything before `cutoff`. */
  ghost predicate Clear(a: int, data: seq<byte>, cutoff: int, offset: int, end: int) {
    cutoff <= a && (end <= a || a + |data| <= offset)
  }

  /** The start of the latest logged interval, or `offset` when that is later. */
  ghost function Newest(log: Log, offset: int): (n: int)
    ensures n >= offset && (n == offset || n in log)
    ensures forall a :: a in log ==> a <= n
    decreases |log|
  {
    if log.Keys == {} then offset
    else
      var a := Any(log.Keys);
      var rest := log - {a};
      assert |rest| < |log| by {
        assert rest.Keys == log.Keys - {a};
        assert |rest.Keys| == |rest| && |log.Keys| == |log|;
      }
      var n := Newest(rest, offset);
      assert forall b :: b in log ==> b == a || b in rest;
      if a > n then a else n
  }

  /** A stream that starts at `offset` is, from position `pos` on, exactly the map. */
  ghost predicate Holds(offset: int, data: seq<byte>, pos: nat, mem: map<int, byte>, silence: byte) {
    && (forall k :: offset + pos <= k < offset + |data| ==> At(offset, data, k) == Heard(mem, silence, k))
    && (forall k :: k in mem ==> offset + pos <= k < offset + |data|)
  }

  /** What is logged from the cursor on is in the map. */
  ghost predicate LogIsHeard(log: Log, mem: map<int, byte>, cursor: int) {
    forall a, k :: Covers(log, a, k) && cursor <= k ==> k in mem && mem[k] == At(a, log[a], k)
  }

  // ------------------------------------------------------------------ one value per buffer state

  datatype Jitter = Jitter(base: int, cursor: int, mem: map<int, byte>, log: Log, initialized: bool, started: bool)

  /** A buffer holding one packet, with playout not started. */
  ghost function Fresh(offset: int, data: seq<byte>): Jitter {
    Jitter(offset, offset, Placed(offset, data), map[offset := data], true, false)
  }

  /** Every unread byte is still logged, so a replay of the log loses nothing. */
  ghost predicate LogComplete(s: Jitter) {
    forall k :: k in s.mem ==> Covered(s.log, k)
  }

  /** No logged interval starts more than `span` after the origin. */
  ghost predicate WithinSpan(s: Jitter, span: nat) {
    forall a :: a in s.log ==> a <= s.base + span
  }

  /** What holds between the parts of a buffer state, whatever the packets were. */
  ghost predicate WellKept(s: Jitter) {
    && s.base <= s.cursor
    && Disjoint(s.log)
    && LogIsHeard(s.log, s.mem, s.cursor)
    && (forall k :: k in s.mem ==> s.cursor <= k)
    && (!s.initialized ==> s.log == map[] && s.mem == map[] && !s.started)
    && (s.initialized && !s.started ==> s.base == s.cursor && forall a :: a in s.log ==> s.base <= a)
  }

  datatype Packet = Packet(offset: int, data: seq<byte>)

  /** What is left of a packet once playout has passed its beginning. */
  ghost function Unplayed(s: Jitter, p: Packet): Packet {
    if !s.started || s.cursor <= p.offset then p
    else Packet(s.cursor, if s.cursor - p.offset <= |p.data| then p.data[s.cursor - p.offset..] else [])
  }

  datatype Verdict = Ignore | Restart | Merge

  ghost function Judge(s: Jitter, span: nat, p: Packet): Verdict {
    var u := Unplayed(s, p);
    if p.data == [] then Ignore
    else if !s.initialized then Restart
    else if u.data == [] || u.offset < Newest(s.log, u.offset) - span then Ignore
    else if s.base - u.offset >= RESET_DISTANCE || u.offset - s.cursor > span then Restart
    else Merge
  }

  /** The unread bytes a write keeps: all of them, unless it moves the origin back and replays the log. */
  ghost function Kept(s: Jitter, offset: int): map<int, byte> {
    if offset < s.base then map k | k in s.mem && Covered(s.log, k) :: s.mem[k] else s.mem
  }

  ghost predicate Merged(s: Jitter, span: nat, p: Packet, s': Jitter) {
    && s'.initialized
    && s'.started == s.started
    && s'.cursor == (if p.offset < s.base then p.offset else s.cursor)
    && s'.base == (if p.offset < s.base then p.offset else if p.offset - s.base > span then s.cursor else s.base)
    && s'.mem == Kept(s, p.offset) + Placed(p.offset, p.data)
    && LogMerged(s.log, Newest(s.log, p.offset) - span, p, s'.log, s'.cursor)
  }

  /** From `cursor` on the new log has exactly the packet and the old log's bytes no older than `cutoff`. */
  ghost predicate LogMerged(log: Log, cutoff: int, p: Packet, log': Log, cursor: int) {
    var end := p.offset + |p.data|;
    && (forall k :: cursor <= k ==>
          (Covered(log', k) <==> p.offset <= k < end || (Covered(log, k) && cutoff <= k)))
    && (forall a :: a in log' ==>
          (a == p.offset && log'[a] == p.data)
          || (Piece(log, a, log'[a]) && Clear(a, log'[a], cutoff, p.offset, end)
              && (a in log || (a in {cutoff, end} && |log'[a]| > 0))))
  }

  /** One call of `Write`. */
  ghost predicate WriteStep(s: Jitter, span: nat, p: Packet, s': Jitter) {
    var u := Unplayed(s, p);
    match Judge(s, span, p)
    case Ignore => s' == s
    case Restart => s' == Fresh(u.offset, u.data)
    case Merge => Merged(s, span, u, s')
  }

  // ------------------------------------------------------------------ moving the unread suffix

  /** `data` at `b` is a piece of an interval from before the boundary, or a moved piece from past it. */
  ghost predicate Stayed(log: Log, a: int, b: int, data: seq<byte>, boundary: int) {
    PieceOf(log, a, b, data) && b + |data| <= boundary
  }

  ghost predicate Moved(log: Log, a: int, b: int, data: seq<byte>, boundary: int, delta: int, cursor: int) {
    PieceOf(log, a, b - delta, data) && boundary <= b - delta && cursor <= b - delta && cursor <= b
  }

  /** Offset `k` is logged once the logged bytes from `boundary` on have moved by `delta`, clear of played offsets. */
  ghost predicate CoveredAfterShift(log: Log, boundary: int, delta: int, cursor: int, k: int) {
    || (k < boundary && Covered(log, k))
    || (boundary <= k - delta && cursor <= k - delta && cursor <= k && Covered(log, k - delta))
  }

  /** The byte `v` that the shifted log has at `k` is the one it had there, or the one `delta` before. */
  ghost predicate ByteAfterShift(log: Log, boundary: int, delta: int, cursor: int, k: int, v: byte) {
    exists a :: (k < boundary && Covers(log, a, k) && v == At(a, log[a], k))
                || (boundary <= k - delta && cursor <= k - delta && cursor <= k
                    && Covers(log, a, k - delta) && v == At(a, log[a], k - delta))
  }

  /** The program refuses to move bytes back over bytes that stay. */
  ghost predicate ShiftRefused(log: Log, boundary: int, delta: int) {
    delta < 0 && exists a :: a in log && a < boundary && a + |log[a]| > boundary + delta
  }

  ghost function LoggedPart(s: Jitter): map<int, byte> {
    map k | k in s.mem && Covered(s.log, k) :: s.mem[k]
  }

  /** With a complete log every unread byte is a logged one. */
  lemma AllIsLogged(s: Jitter)
    requires LogComplete(s)
    ensures LoggedPart(s) == s.mem
  {
  }

  /** Every byte from `boundary` on moves by `delta`; bytes that would move before the cursor are lost. */
  ghost function ShiftedMem(mem: map<int, byte>, boundary: int, delta: int, cursor: int): map<int, byte> {
    (map k | k in mem && k < boundary :: mem[k]) + MovedPart(mem, boundary, delta, cursor)
  }

  ghost function MovedPart(mem: map<int, byte>, boundary: int, delta: int, cursor: int): map<int, byte> {
    var keys := set k | k in mem && boundary <= k && cursor <= k + delta :: k + delta;
    map k | k in keys :: mem[k - delta]
  }

  lemma MovedKeys(mem: map<int, byte>, boundary: int, delta: int, cursor: int, k: int)
    ensures k in MovedPart(mem, boundary, delta, cursor) <==> k - delta in mem && boundary <= k - delta && cursor <= k
    ensures k in MovedPart(mem, boundary, delta, cursor) ==> MovedPart(mem, boundary, delta, cursor)[k] == mem[k - delta]
  {
    var keys := set j | j in mem && boundary <= j && cursor <= j + delta :: j + delta;
    assert k - delta in mem && boundary <= k - delta && cursor <= k ==> (k - delta) + delta in keys;
    assert k in MovedPart(mem, boundary, delta, cursor) <==> k in keys;
  }

  /** The parts of an interval start at or before `limit` once the suffix has moved. */
  ghost predicate LandsWithin(a: int, size: nat, limit: int, boundary: int, delta: int, cursor: int) {
    && (size > 0 && a < boundary ==> a <= limit)
    && (var to := NewStart(SuffixStart(a, boundary, cursor), delta, cursor);
        to - delta < a + size ==> to <= limit)
  }

  /** No interval starts more than `span` after `base` once the suffix has moved. */
  ghost predicate ShiftWithin(log: Log, base: int, span: nat, boundary: int, delta: int, cursor: int) {
    forall a :: a in log ==> LandsWithin(a, |log[a]|, base + span, boundary, delta, cursor)
  }

  ghost function SuffixStart(a: int, boundary: int, cursor: int): int {
    Max3(a, boundary, cursor)
  }

  ghost function NewStart(from: int, delta: int, cursor: int): int {
    if from + delta < cursor then cursor else from + delta
  }

  ghost function Max3(a: int, b: int, c: int): int {
    if a < b then (if b < c then c else b) else if a < c then c else a
  }

  ghost function StayOf(a: int, data: seq<byte>, boundary: int): Log {
    if a < boundary && |data| > 0 then map[a := data[..Min(|data|, boundary - a)]] else map[]
  }

  /** The part of an interval that lands at `to` and after. */
  ghost function MoveOf(a: int, data: seq<byte>, to: int, delta: int): Log
    requires a <= to - delta
  {
    if to - delta < a + |data| then map[to := data[to - delta - a..]] else map[]
  }

  /** What one logged interval becomes. */
  ghost function ShiftOf(a: int, data: seq<byte>, boundary: int, delta: int, cursor: int): Log {
    StayOf(a, data, boundary) + MoveOf(a, data, NewStart(SuffixStart(a, boundary, cursor), delta, cursor), delta)
  }

  lemma ShiftOfPieces(log: Log, a: int, boundary: int, delta: int, cursor: int, b: int)
    requires a in log && b in ShiftOf(a, log[a], boundary, delta, cursor)
    ensures var d := ShiftOf(a, log[a], boundary, delta, cursor)[b];
            && |d| > 0
            && (Stayed(log, a, b, d, boundary) || Moved(log, a, b, d, boundary, delta, cursor))
  {
  }

  lemma ShiftOfCovers(log: Log, a: int, boundary: int, delta: int, cursor: int, k: int)
    requires Covers(log, a, k)
    requires ShiftRefused(log, boundary, delta) ==> false
    ensures k < boundary ==> Covers(ShiftOf(a, log[a], boundary, delta, cursor), a, k)
    ensures boundary <= k && cursor <= k && cursor <= k + delta ==>
              Covered(ShiftOf(a, log[a], boundary, delta, cursor), k + delta)
  {
    var r := ShiftOf(a, log[a], boundary, delta, cursor);
    if boundary <= k && cursor <= k && cursor <= k + delta {
      assert Covers(r, NewStart(SuffixStart(a, boundary, cursor), delta, cursor), k + delta);
    }
  }

  /** The new log: made of pieces that stayed and pieces that moved, and nothing logged is missing. */
  ghost predicate Shifting(log: Log, shifted: Log, todo: set<int>, boundary: int, delta: int, cursor: int) {
    && todo <= log.Keys
    && (forall b :: b in shifted ==> exists a :: a in log && a !in todo && FromShift(log, a, shifted, b, boundary, delta, cursor))
    && (forall a, b :: a in log && a !in todo && b in ShiftOf(a, log[a], boundary, delta, cursor) ==>
          b in shifted && shifted[b] == ShiftOf(a, log[a], boundary, delta, cursor)[b])
  }

  ghost predicate FromShift(log: Log, a: int, shifted: Log, b: int, boundary: int, delta: int, cursor: int) {
    && a in log && b in shifted
    && b in ShiftOf(a, log[a], boundary, delta, cursor)
    && shifted[b] == ShiftOf(a, log[a], boundary, delta, cursor)[b]
  }

  /** Pieces of different intervals never meet: this is what the refusal is for. */
  lemma ShiftsApart(log: Log, a: int, a': int, b: int, b': int, boundary: int, delta: int, cursor: int)
    requires Disjoint(log) && !ShiftRefused(log, boundary, delta)
    requires a in log && a' in log && b <= b' && (a != a' || b != b')
    requires b in ShiftOf(a, log[a], boundary, delta, cursor) && b' in ShiftOf(a', log[a'], boundary, delta, cursor)
    ensures b + |ShiftOf(a, log[a], boundary, delta, cursor)[b]| <= b'
  {
    ShiftOfPieces(log, a, boundary, delta, cursor, b);
    ShiftOfPieces(log, a', boundary, delta, cursor, b');
  }

  lemma ShiftingStep(log: Log, shifted: Log, todo: set<int>, a: int, boundary: int, delta: int, cursor: int)
    requires Disjoint(log) && !ShiftRefused(log, boundary, delta)
    requires Shifting(log, shifted, todo, boundary, delta, cursor) && a in todo
    ensures Shifting(log, shifted + ShiftOf(a, log[a], boundary, delta, cursor), todo - {a}, boundary, delta, cursor)
  {
    var r := ShiftOf(a, log[a], boundary, delta, cursor);
    var next := shifted + r;
    forall b | b in next
      ensures exists c :: c in log && c !in todo - {a} && FromShift(log, c, next, b, boundary, delta, cursor)
    {
      if b in r {
        assert FromShift(log, a, next, b, boundary, delta, cursor);
      } else {
        var c :| c in log && c !in todo && FromShift(log, c, shifted, b, boundary, delta, cursor);
        assert FromShift(log, c, next, b, boundary, delta, cursor);
      }
    }
    forall c, b | c in log && c !in todo - {a} && b in ShiftOf(c, log[c], boundary, delta, cursor)
      ensures b in next && next[b] == ShiftOf(c, log[c], boundary, delta, cursor)[b]
    {
      if c != a && b in r {
        ShiftsApart(log, a, c, b, b, boundary, delta, cursor);
        ShiftOfPieces(log, a, boundary, delta, cursor, b);
      }
    }
  }

  lemma ShiftedIsDisjoint(log: Log, shifted: Log, boundary: int, delta: int, cursor: int)
    requires Disjoint(log) && !ShiftRefused(log, boundary, delta)
    requires Shifting(log, shifted, {}, boundary, delta, cursor)
    ensures Disjoint(shifted)
  {
    forall b, b' | b in shifted && b' in shifted && b < b'
      ensures b + |shifted[b]| <= b'
    {
      var a :| a in log && FromShift(log, a, shifted, b, boundary, delta, cursor);
      var a' :| a' in log && FromShift(log, a', shifted, b', boundary, delta, cursor);
      ShiftsApart(log, a, a', b, b', boundary, delta, cursor);
    }
  }

  lemma ShiftedByteIs(log: Log, shifted: Log, boundary: int, delta: int, cursor: int, b: int, k: int)
    requires Shifting(log, shifted, {}, boundary, delta, cursor) && Covers(shifted, b, k)
    ensures ByteAfterShift(log, boundary, delta, cursor, k, At(b, shifted[b], k))
  {
    var a :| a in log && FromShift(log, a, shifted, b, boundary, delta, cursor);
    ShiftOfPieces(log, a, boundary, delta, cursor, b);
    if Stayed(log, a, b, shifted[b], boundary) {
      assert Covers(log, a, k);
    } else {
      assert Covers(log, a, k - delta);
    }
  }

  lemma ShiftedCovers(log: Log, shifted: Log, boundary: int, delta: int, cursor: int, k: int)
    requires Disjoint(log) && !ShiftRefused(log, boundary, delta)
    requires Shifting(log, shifted, {}, boundary, delta, cursor)
    ensures Covered(shifted, k) <==> CoveredAfterShift(log, boundary, delta, cursor, k)
  {
    hide Disjoint, ShiftOf, ShiftRefused;
    if Covered(shifted, k) {
      var b :| Covers(shifted, b, k);
      var a :| a in log && FromShift(log, a, shifted, b, boundary, delta, cursor);
      ShiftOfPieces(log, a, boundary, delta, cursor, b);
      assert k < boundary ==> Stayed(log, a, b, shifted[b], boundary) || Moved(log, a, b, shifted[b], boundary, delta, cursor);
      if Stayed(log, a, b, shifted[b], boundary) {
        assert Covers(log, a, k);
      } else {
        assert Covers(log, a, k - delta);
      }
    }
    if k < boundary && Covered(log, k) {
      var a :| Covers(log, a, k);
      ShiftOfCovers(log, a, boundary, delta, cursor, k);
      assert Covers(shifted, a, k);
    } else if boundary <= k - delta && cursor <= k - delta && cursor <= k && Covered(log, k - delta) {
      var a :| Covers(log, a, k - delta);
      ShiftOfCovers(log, a, boundary, delta, cursor, k - delta);
      var b :| Covers(ShiftOf(a, log[a], boundary, delta, cursor), b, k);
      assert Covers(shifted, b, k);
    }
  }

  /** One call of `ShiftUnreadSuffix`. */
  ghost predicate ShiftStep(s: Jitter, span: nat, boundary: int, delta: int, ok: bool, s': Jitter) {
    if ShiftRefused(s.log, boundary, delta) then !ok && s' == s
    else
      && ok && s'.initialized == s.initialized
      && LogComplete(s')
      && if ShiftWithin(s.log, s.base, span, boundary, delta, s.cursor) then
           && s'.base == s.base && s'.cursor == s.cursor && s'.started == s.started
           && s'.mem == ShiftedMem(LoggedPart(s), boundary, delta, s.cursor)
           && Shifting(s.log, s'.log, {}, boundary, delta, s.cursor)
         else
           && s'.base == s'.cursor && !s'.started && s.base < s'.base && s'.cursor in s'.log
           && (forall b :: b in s'.log ==> s'.cursor <= b <= s'.cursor + span)
           && (forall k :: k in s'.mem <==> CoveredAfterShift(s.log, boundary, delta, s.cursor, k) && s'.cursor <= k)
           && (forall k :: k in s'.mem ==> ByteAfterShift(s.log, boundary, delta, s.cursor, k, s'.mem[k]))
           && (forall k :: CoveredAfterShift(s.log, boundary, delta, s.cursor, k) && k < s'.cursor ==>
                 k < Newest(s'.log, s'.cursor) - span)
  }

  lemma ShiftedKeys(mem: map<int, byte>, boundary: int, delta: int, cursor: int, k: int)
    ensures var m, fromThere := ShiftedMem(mem, boundary, delta, cursor), k - delta in mem && boundary <= k - delta && cursor <= k;
            && (k in m <==> (k in mem && k < boundary) || fromThere)
            && (fromThere ==> m[k] == mem[k - delta])
            && (k in mem && k < boundary && !fromThere ==> m[k] == mem[k])
  {
    MovedKeys(mem, boundary, delta, cursor, k);
    hide MovedPart;
  }

  lemma LoggedKeys(s: Jitter, k: int)
    requires LogIsHeard(s.log, s.mem, s.cursor) && s.cursor <= k
    ensures k in LoggedPart(s) <==> Covered(s.log, k)
  {
    if Covered(s.log, k) {
      var a :| Covers(s.log, a, k);
    }
  }

  /** Where the byte at `k` of the shifted log came from. */
  lemma ShiftedFrom(s: Jitter, shifted: Log, mem': map<int, byte>, boundary: int, delta: int, k: int) returns (from: int)
    requires Disjoint(s.log) && LogIsHeard(s.log, s.mem, s.cursor) && !ShiftRefused(s.log, boundary, delta)
    requires Shifting(s.log, shifted, {}, boundary, delta, s.cursor)
    requires LogIsHeard(shifted, mem', s.cursor)
    requires s.cursor <= k && Covered(shifted, k)
    ensures k in mem' && Covered(s.log, from) && from in s.mem && s.cursor <= from && mem'[k] == s.mem[from]
    ensures (from == k && k < boundary && (boundary <= k - delta ==> !Covered(s.log, k - delta) || delta == 0))
            || (from == k - delta && boundary <= from)
  {
    hide Disjoint, ShiftOf;
    var b :| Covers(shifted, b, k);
    var a :| a in s.log && FromShift(s.log, a, shifted, b, boundary, delta, s.cursor);
    ShiftOfPieces(s.log, a, boundary, delta, s.cursor, b);
    if Stayed(s.log, a, b, shifted[b], boundary) {
      from := k;
      assert delta >= 0 || a + |s.log[a]| <= boundary + delta;
    } else {
      from := k - delta;
    }
    assert Covers(s.log, a, from);
  }

  /** The map after a shift: its logged bytes, those from the boundary on moved. */
  lemma ShiftedMemIsExact(s: Jitter, shifted: Log, mem': map<int, byte>, boundary: int, delta: int)
    requires Disjoint(s.log) && LogIsHeard(s.log, s.mem, s.cursor) && !ShiftRefused(s.log, boundary, delta)
    requires forall k :: k in s.mem ==> s.cursor <= k
    requires Shifting(s.log, shifted, {}, boundary, delta, s.cursor)
    requires LogIsHeard(shifted, mem', s.cursor)
    requires forall k :: k in mem' <==> s.cursor <= k && Covered(shifted, k)
    ensures mem' == ShiftedMem(LoggedPart(s), boundary, delta, s.cursor)
  {
    hide Disjoint, LogIsHeard, Shifting, ShiftRefused, ShiftedMem, Covered;
    var expected := ShiftedMem(LoggedPart(s), boundary, delta, s.cursor);
    forall k
      ensures k in mem' <==> k in expected
      ensures k in mem' ==> mem'[k] == expected[k]
    {
      ShiftedCovers(s.log, shifted, boundary, delta, s.cursor, k);
      ShiftedKeys(LoggedPart(s), boundary, delta, s.cursor, k);
      if s.cursor <= k {
        LoggedKeys(s, k);
      }
      if s.cursor <= k - delta {
        LoggedKeys(s, k - delta);
      }
      if k in mem' {
        var from := ShiftedFrom(s, shifted, mem', boundary, delta, k);
      }
    }
  }

  /** Where the parts of an interval start. */
  lemma ShiftOfStarts(a: int, data: seq<byte>, boundary: int, delta: int, cursor: int, b: int)
    ensures var to := NewStart(SuffixStart(a, boundary, cursor), delta, cursor);
            b in ShiftOf(a, data, boundary, delta, cursor)
            <==> (b == a && a < boundary && |data| > 0) || (b == to && to - delta < a + |data|)
  {
  }

  lemma LandsWithinIff(a: int, data: seq<byte>, limit: int, boundary: int, delta: int, cursor: int)
    ensures (forall b :: b in ShiftOf(a, data, boundary, delta, cursor) ==> b <= limit)
            <==> LandsWithin(a, |data|, limit, boundary, delta, cursor)
  {
    hide ShiftOf, SuffixStart, NewStart;
    var r, to := ShiftOf(a, data, boundary, delta, cursor), NewStart(SuffixStart(a, boundary, cursor), delta, cursor);
    ShiftOfStarts(a, data, boundary, delta, cursor, a);
    ShiftOfStarts(a, data, boundary, delta, cursor, to);
    forall b | b in r
      ensures b == a || b == to
    {
      ShiftOfStarts(a, data, boundary, delta, cursor, b);
    }
  }

  /** What a replay needs to know of one interval of the shifted log. */
  lemma ShiftedPart(log: Log, shifted: Log, base: int, boundary: int, delta: int, cursor: int, b: int) returns (a: int)
    requires Shifting(log, shifted, {}, boundary, delta, cursor) && b in shifted
    ensures a in log && b in ShiftOf(a, log[a], boundary, delta, cursor) && 0 < |shifted[b]| <= |log[a]|
    ensures base <= a && base <= cursor ==> base <= b
  {
    hide ShiftOf;
    a :| a in log && FromShift(log, a, shifted, b, boundary, delta, cursor);
    ShiftOfPieces(log, a, boundary, delta, cursor, b);
  }

  lemma PartsAreThere(log: Log, shifted: Log, boundary: int, delta: int, cursor: int, a: int)
    requires Shifting(log, shifted, {}, boundary, delta, cursor) && a in log
    ensures forall b :: b in ShiftOf(a, log[a], boundary, delta, cursor) ==> b in shifted
  {
    hide ShiftOf;
  }

  lemma ShiftedWithinIff(log: Log, shifted: Log, base: int, span: nat, boundary: int, delta: int, cursor: int)
    requires Shifting(log, shifted, {}, boundary, delta, cursor)
    ensures (forall b :: b in shifted ==> b <= base + span) <==> ShiftWithin(log, base, span, boundary, delta, cursor)
  {
    hide ShiftOf, Shifting, LandsWithin;
    forall b | b in shifted && ShiftWithin(log, base, span, boundary, delta, cursor)
      ensures b <= base + span
    {
      var a := ShiftedPart(log, shifted, base, boundary, delta, cursor, b);
      LandsWithinIff(a, log[a], base + span, boundary, delta, cursor);
    }
    forall a | a in log && forall b :: b in shifted ==> b <= base + span
      ensures LandsWithin(a, |log[a]|, base + span, boundary, delta, cursor)
    {
      PartsAreThere(log, shifted, boundary, delta, cursor, a);
      LandsWithinIff(a, log[a], base + span, boundary, delta, cursor);
    }
  }

  /** What a replay needs to know of the shifted log. */
  lemma ShiftedLogFits(log: Log, shifted: Log, base: int, span: nat, longest: nat, boundary: int, delta: int, cursor: int)
    requires Shifting(log, shifted, {}, boundary, delta, cursor)
    requires forall a :: a in log ==> |log[a]| <= longest
    ensures forall b :: b in shifted ==> 0 < |shifted[b]| <= longest
    ensures (forall a :: a in log ==> base <= a) && base <= cursor ==> forall b :: b in shifted ==> base <= b
    ensures (forall b :: b in shifted ==> b <= base + span) <==> ShiftWithin(log, base, span, boundary, delta, cursor)
    ensures log == map[] ==> shifted == map[]
  {
    hide *;
    forall b | b in shifted
      ensures 0 < |shifted[b]| <= longest
      ensures (forall a :: a in log ==> base <= a) && base <= cursor ==> base <= b
      ensures log != map[]
    {
      var a := ShiftedPart(log, shifted, base, boundary, delta, cursor, b);
    }
    ShiftedWithinIff(log, shifted, base, span, boundary, delta, cursor);
  }

  lemma RefusedMeans(log: Log, boundary: int, delta: int)
    ensures ShiftRefused(log, boundary, delta) <==> delta < 0 && exists a :: a in log && a < boundary && a + |log[a]| > boundary + delta
  {
  }

  lemma RefusedStep(s: Jitter, span: nat, boundary: int, delta: int)
    requires ShiftRefused(s.log, boundary, delta)
    ensures ShiftStep(s, span, boundary, delta, false, s)
  {
    hide ShiftRefused;
  }

  lemma TooOldIsIgnored(s: Jitter, span: nat, p: Packet)
    requires s.initialized && p.data != [] && (s.started ==> s.cursor <= p.offset) && p.offset < Newest(s.log, p.offset) - span
    ensures WriteStep(s, span, p, s)
  {
    hide Newest, Merged, Fresh;
  }

  lemma StepOfUnplayed(s: Jitter, span: nat, p: Packet, s': Jitter)
    requires s.initialized && Unplayed(s, p).data != []
    requires WriteStep(s, span, Unplayed(s, p), s')
    ensures WriteStep(s, span, p, s')
  {
    var u := Unplayed(s, p);
    assert Unplayed(s, u) == u;
  }

  lemma StreamAfterRead(offset: int, data: seq<byte>, pos: nat, pos': nat, mem: map<int, byte>, silence: byte, log: Log)
    requires Holds(offset, data, pos, mem, silence) && LogIsHeard(log, mem, offset + pos) && pos <= pos'
    ensures var mem' := From(mem, offset + pos');
            Holds(offset, data, pos', mem', silence) && LogIsHeard(log, mem', offset + pos')
  {
  }

  /** One call of `Read`. */
  ghost predicate ReadStep(s: Jitter, length: nat, s': Jitter) {
    && s'.cursor == s.cursor + length
    && s'.mem == From(s.mem, s'.cursor)
    && s'.initialized == s.initialized
    && s'.started == (s.started || (length > 0 && s.initialized))
    && ((s'.base == s.base && s'.log == s.log)
        || (s'.base == s'.cursor && s'.log == EndingAfter(s.log, s'.base)))
  }

  // ------------------------------------------------------------------ the buffer

  class PacketManager {
    const maxLogSpan: nat
    const silence: byte
    var offset: int
    var data: seq<byte>      // the contents of the byte stream
    var pos: nat             // its read position, which may lie past its end
    var log: Log
    var initialized: bool
    var readStarted: bool

    ghost var mem: map<int, byte>  // every unread byte, by absolute offset
    ghost var longest: nat         // a bound on the packets accepted so far

    ghost predicate Valid()
      reads this
    {
      && (initialized && !readStarted ==> pos == 0 && forall a :: a in log ==> offset <= a)
      && (!initialized ==> data == [] && log == map[] && !readStarted)
      && Disjoint(log)
      && Holds(offset, data, pos, mem, silence)
      && LogIsHeard(log, mem, offset + pos)
      && (forall a :: a in log ==> |log[a]| <= longest)
      && |data| <= maxLogSpan + longest
    }

    ghost function View(): Jitter
      reads this
    {
      Jitter(offset, offset + pos, mem, log, initialized, readStarted)
    }

    lemma ValidIsWellKept()
      requires Valid()
      ensures WellKept(View())
    {
      if !initialized {
        assert forall k :: k !in mem;
      }
    }

    constructor (maxLogSpan: nat, silence: byte)
      ensures Valid() && !initialized && !readStarted && mem == map[]
      ensures this.maxLogSpan == maxLogSpan && this.silence == silence
    {
      this.maxLogSpan, this.silence := maxLogSpan, silence;
      offset, data, pos, log := 0x1_0000_0000, [], 0, map[];
      initialized, readStarted := false, false;
      mem, longest := map[], 0;
    }

    /** Consumed bytes go; the playout cursor and every unread byte stay. */
    method Compact()
      requires Holds(offset, data, pos, mem, silence)
      modifies this`data, this`pos, this`offset, this`log
      ensures Holds(offset, data, pos, mem, silence) && |data| <= old(|data|)
      ensures offset + pos == old(offset + pos)
      ensures if initialized && old(pos) > 0
              then pos == 0 && log == EndingAfter(old(log), offset)
              else pos == old(pos) && log == old(log) && data == old(data)
    {
      if pos == 0 || !initialized {
        return;
      }
      var consumed := pos;
      data := if pos <= |data| then data[pos..] else [];
      pos := 0;
      offset := offset + consumed;
      log := EndingAfter(log, offset);
    }

    /** BytesIO.read and the padding: the stream from its position, silence where it has ended. */
    method Take(length: nat) returns (packet: seq<byte>)
      requires Valid()
      modifies this`pos
      ensures pos == old(pos) + length
      ensures |packet| == length
      ensures forall i :: 0 <= i < length ==> packet[i] == Heard(mem, silence, old(offset + pos) + i)
    {
      var start := if pos <= |data| then pos else |data|;
      var stop := if pos + length <= |data| then pos + length else |data|;
      packet := if start <= stop then data[start..stop] else [];
      pos := pos + |packet|;
      if |packet| < length {
        var missing := length - |packet|;
        pos := pos + missing;
        packet := packet + seq(missing, _ => silence);
      }
    }

    /** Read, or refuse a negative length. */
    method Read(length: int) returns (packet: Option<seq<byte>>)
      requires Valid()
      modifies this
      ensures Valid()
      ensures packet.None? <==> length < 0
      ensures packet.None? ==> View() == old(View())
      ensures packet.Some? ==> |packet.value| == length && ReadStep(old(View()), length, View())
      ensures packet.Some? ==> forall i :: 0 <= i < length ==> packet.value[i] == Heard(old(mem), silence, old(offset + pos) + i)
    {
      hide Valid, ReadStep, Heard;
      if length < 0 {
        return None;
      }
      var bytes := ReadBytes(length);
      return Some(bytes);
    }

    /** The next `length` bytes of the map, silence in its holes; the cursor moves past them. */
    method ReadBytes(length: nat) returns (packet: seq<byte>)
      requires Valid()
      modifies this
      ensures Valid()
      ensures |packet| == length
      ensures forall i :: 0 <= i < length ==> packet[i] == Heard(old(mem), silence, old(offset + pos) + i)
      ensures ReadStep(old(View()), length, View())
      ensures longest == old(longest) && |data| <= old(|data|)
    {
      hide Disjoint, Holds, LogIsHeard, From, Heard, EndingAfter;
      packet := Take(length);
      mem := From(mem, offset + pos);
      StreamAfterRead(offset, data, old(pos), pos, old(mem), silence, log);
      EndingAfterIsEnough(log, mem, offset + pos);
      if length > 0 && initialized {
        readStarted := true;
      }
      if pos >= maxLogSpan / 2 {
        Compact();
      }
    }

    /**
     With `reset`, start over with one packet.  Otherwise write the log out again from the origin: the
     unread bytes become exactly the logged ones.  (The program calls this part-way through `write` and
     the suffix shift, when the stream does not match the log yet.)
     */
    method Rebuild(reset: bool, offset: int, data: seq<byte>)
      requires !reset ==> Disjoint(log) && forall a :: a in log ==> |log[a]| <= longest
      requires !reset ==> forall a :: a in log ==> a + |log[a]| <= this.offset + maxLogSpan + longest
      requires !reset && initialized && !readStarted ==> pos == 0 && forall a :: a in log ==> this.offset <= a
      requires !reset && !initialized ==> log == map[] && !readStarted
      modifies this
      ensures Valid() && longest == if reset then Max(old(longest), |data|) else old(longest)
      ensures reset ==> View() == Fresh(offset, data)
      ensures !reset ==> View() == old(View()).(mem := mem)
      ensures !reset ==> forall k :: k in mem <==> this.offset + pos <= k && Covered(log, k)
    {
      if reset {
        StartOver(offset, data);
      } else {
        Replay();
      }
    }

    method StartOver(offset: int, data: seq<byte>)
      modifies this
      ensures Valid() && longest == Max(old(longest), |data|)
      ensures View() == Fresh(offset, data)
    {
      longest := Max(longest, |data|);
      this.offset := offset;
      log := map[offset := data];
      this.data := data;
      pos := 0;
      initialized := true;
      readStarted := false;
      mem := Placed(offset, data);
    }

    method Replay()
      requires Disjoint(log)
      requires forall a :: a in log ==> |log[a]| <= longest && a + |log[a]| <= offset + maxLogSpan + longest
      requires initialized && !readStarted ==> pos == 0 && forall a :: a in log ==> offset <= a
      requires !initialized ==> log == map[] && !readStarted
      modifies this`data, this`mem
      ensures Valid()
      ensures forall k :: k in mem <==> offset + pos <= k && Covered(log, k)
    {
      data := Render();
      mem := map k: int | offset + pos <= k < offset + |data| && Covered(log, k) :: At(offset, data, k);
    }

    /** Accept a packet: see `WriteStep`. */
    method Write(offset: int, data: seq<byte>)
      requires Valid()
      modifies this
      ensures Valid()
      ensures WriteStep(old(View()), maxLogSpan, Packet(offset, data), View())
      ensures old(longest) <= longest <= Max(old(longest), |data|)
    {
      hide Disjoint, Holds, LogIsHeard, Merged, Newest;
      if data == [] {
        return;
      }
      if !initialized {
        Rebuild(true, offset, data);
        return;
      }
      var start, bytes := offset, data;
      if readStarted {
        var cursor := this.offset + pos;
        if start < cursor {
          bytes := if cursor - start <= |bytes| then bytes[cursor - start..] else [];
          start := cursor;
          if bytes == [] {
            return;
          }
        }
      }
      ghost var s := View();
      Insert(start, bytes);
      StepOfUnplayed(s, maxLogSpan, Packet(offset, data), View());
    }

    /** The rest of `write`, for the unplayed part of a packet. */
    method Insert(start: int, bytes: seq<byte>)
      requires Valid() && initialized && bytes != []
      requires readStarted ==> offset + pos <= start
      modifies this
      ensures Valid()
      ensures WriteStep(old(View()), maxLogSpan, Packet(start, bytes), View())
      ensures old(longest) <= longest <= Max(old(longest), |bytes|)
    {
      hide Disjoint, Holds, LogIsHeard, LogMerged, CarvedPiece, WriteStep, Newest, Covered, Covers, Placed, Fresh, PieceOf, Clear;
      var newest := NewestStart(log, start);
      NewestBounds(log, start);
      var cutoff := newest - maxLogSpan;
      if start < cutoff {
        TooOldIsIgnored(View(), maxLogSpan, Packet(start, bytes));
        return;
      }
      var carved := Carve(log, cutoff, start, start + |bytes|);
      LogGrows(log, carved, cutoff, newest, Packet(start, bytes), longest, Min(start, offset), if start < offset then start else offset + pos);
      if start < offset {
        Rewind(start, bytes, cutoff, carved);
      } else {
        Advance(start, bytes, cutoff, carved);
      }
    }

    ghost predicate Accepting(start: int, bytes: seq<byte>, cutoff: int, log': Log)
      reads this
    {
      && Valid() && initialized && bytes != [] && cutoff <= start
      && (readStarted ==> offset + pos <= start)
      && cutoff == Newest(log, start) - maxLogSpan
      && Disjoint(log')
      && LogMerged(log, cutoff, Packet(start, bytes), log', if start < offset then start else offset + pos)
      && (forall a :: a in log' ==> |log'[a]| <= Max(longest, |bytes|)
                                    && a + |log'[a]| <= start + maxLogSpan + Max(longest, |bytes|))
      && (readStarted || forall a :: a in log' ==> Min(start, offset) <= a)
    }

    /** A packet before the origin: start over if it is far before it, else replay the log. */
    method Rewind(start: int, bytes: seq<byte>, cutoff: int, carved: Log)
      requires Accepting(start, bytes, cutoff, carved[start := bytes]) && start < offset
      modifies this
      ensures Valid()
      ensures WriteStep(old(View()), maxLogSpan, Packet(start, bytes), View())
      ensures longest == Max(old(longest), |bytes|)
    {
      hide Disjoint, Holds, LogIsHeard, Placed, LogMerged, Kept, Newest;
      log := carved[start := bytes];
      longest := Max(longest, |bytes|);
      var reset := offset - start >= RESET_DISTANCE;
      offset := start;
      Rebuild(reset, start, bytes);
      if !reset {
        StreamBounds(old(offset), old(data), old(pos), old(mem), silence);
        ReplayMerges(old(View()), cutoff, Packet(start, bytes), View());
      }
    }

    /** A packet at or after the origin. */
    method Advance(start: int, bytes: seq<byte>, cutoff: int, carved: Log)
      requires Accepting(start, bytes, cutoff, carved[start := bytes]) && offset <= start
      modifies this
      ensures Valid()
      ensures WriteStep(old(View()), maxLogSpan, Packet(start, bytes), View())
      ensures longest == Max(old(longest), |bytes|)
    {
      hide Disjoint, Holds, LogIsHeard, Placed, EndingAfter, LogMerged, Newest;
      log := carved[start := bytes];
      longest := Max(longest, |bytes|);
      OverlayIsHeard(old(log), mem, offset + pos, cutoff, Packet(start, bytes), log);
      EndingAfterIsEnough(log, mem + Placed(start, bytes), offset + pos);
      EndingAfterMerged(old(log), cutoff, Packet(start, bytes), log, offset + pos);
      if start - offset > maxLogSpan {
        Compact();
      }
      if start - offset > maxLogSpan {
        StartOver(start, bytes);
      } else {
        Overlay(start, bytes);
      }
    }

    /** Write the packet into the stream, padding with silence up to it. */
    method Overlay(start: int, bytes: seq<byte>)
      requires offset + pos <= start <= offset + maxLogSpan && |bytes| <= longest
      requires Holds(offset, data, pos, mem, silence) && |data| <= maxLogSpan + longest
      modifies this`data, this`mem
      ensures Holds(offset, data, pos, mem, silence) && |data| <= maxLogSpan + longest
      ensures mem == old(mem) + Placed(start, bytes)
    {
      var adjusted := start - offset;
      if adjusted > |data| {
        data := data + seq(adjusted - |data|, _ => silence);
      }
      data := data[..adjusted] + bytes + (if adjusted + |bytes| <= |data| then data[adjusted + |bytes|..] else []);
      mem := mem + Placed(start, bytes);
    }

    /** Move the unread bytes from `boundary` on by `delta`: see `ShiftStep`. */
    method ShiftUnreadSuffix(boundary: int, delta: int) returns (ok: bool)
      requires Valid()
      modifies this
      ensures Valid() && longest == old(longest)
      ensures ShiftStep(old(View()), maxLogSpan, boundary, delta, ok, View())
    {
      hide Disjoint, Holds, LogIsHeard, Shifting, Newest, ShiftWithin, ShiftStep, ShiftRefused;
      var cursor := offset + pos;
      RefusedMeans(log, boundary, delta);
      if delta < 0 && exists a :: a in log && a < boundary && a + |log[a]| > boundary + delta {
        RefusedStep(View(), maxLogSpan, boundary, delta);
        return false;
      }
      ok := true;
      var shifted := ShiftLog(log, boundary, delta, cursor);
      ShiftedIsDisjoint(log, shifted, boundary, delta, cursor);
      ShiftedLogFits(log, shifted, offset, maxLogSpan, longest, boundary, delta, cursor);
      var newest := NewestStart(shifted, offset);
      NewestBounds(shifted, offset);
      if newest - offset > maxLogSpan {
        ShiftFar(shifted, newest, boundary, delta);
      } else {
        ShiftNear(shifted, boundary, delta);
      }
    }

    /** The shifted log spans too much: only its end is kept. */
    method ShiftFar(shifted: Log, newest: int, ghost boundary: int, ghost delta: int)
      requires Valid() && initialized && !ShiftRefused(log, boundary, delta)
      requires Disjoint(shifted) && Shifting(log, shifted, {}, boundary, delta, offset + pos)
      requires newest in shifted && newest - offset > maxLogSpan
      requires forall b :: b in shifted ==> 0 < |shifted[b]| <= longest && b <= newest
      requires !ShiftWithin(log, offset, maxLogSpan, boundary, delta, offset + pos)
      modifies this
      ensures Valid() && longest == old(longest)
      ensures ShiftStep(old(View()), maxLogSpan, boundary, delta, true, View())
    {
      hide Disjoint, Holds, LogIsHeard, Shifting, Newest, ShiftWithin, Covered, CoveredAfterShift, ByteAfterShift, At, ShiftRefused;
      ghost var was, cursor := log, offset + pos;
      TrimTo(shifted, newest);
      NewestIs(log, offset, newest);
      TrimmedShift(was, shifted, boundary, delta, cursor, mem);
    }

    method ShiftNear(shifted: Log, ghost boundary: int, ghost delta: int)
      requires Valid() && !ShiftRefused(log, boundary, delta)
      requires Disjoint(shifted) && Shifting(log, shifted, {}, boundary, delta, offset + pos)
      requires forall b :: b in shifted ==> |shifted[b]| <= longest && b <= offset + maxLogSpan
      requires initialized && !readStarted ==> forall b :: b in shifted ==> offset <= b
      requires !initialized ==> shifted == map[]
      requires ShiftWithin(log, offset, maxLogSpan, boundary, delta, offset + pos)
      modifies this
      ensures Valid() && longest == old(longest)
      ensures ShiftStep(old(View()), maxLogSpan, boundary, delta, true, View())
    {
      hide Disjoint, Holds, LogIsHeard, Shifting, ShiftedMem, LoggedPart, ShiftWithin, Covered, ShiftRefused;
      Rewrite(shifted, boundary, delta);
    }

    /** What a trimmed shift still covers, and with which bytes. */
    static lemma TrimmedShift(log: Log, shifted: Log, boundary: int, delta: int, cursor: int, mem: map<int, byte>)
      requires Disjoint(log) && !ShiftRefused(log, boundary, delta) && Shifting(log, shifted, {}, boundary, delta, cursor)
      requires forall k :: k in mem ==> exists b :: Covers(shifted, b, k) && mem[k] == At(b, shifted[b], k)
      ensures forall k :: Covered(shifted, k) <==> CoveredAfterShift(log, boundary, delta, cursor, k)
      ensures forall k :: k in mem ==> ByteAfterShift(log, boundary, delta, cursor, k, mem[k])
    {
      hide Disjoint, Shifting, Covered, CoveredAfterShift, ByteAfterShift, At;
      forall k
        ensures Covered(shifted, k) <==> CoveredAfterShift(log, boundary, delta, cursor, k)
      {
        ShiftedCovers(log, shifted, boundary, delta, cursor, k);
      }
      forall k | k in mem
        ensures ByteAfterShift(log, boundary, delta, cursor, k, mem[k])
      {
        var b :| Covers(shifted, b, k) && mem[k] == At(b, shifted[b], k);
        ShiftedByteIs(log, shifted, boundary, delta, cursor, b, k);
      }
    }

    /** The shifted log fits: write it out. */
    method Rewrite(shifted: Log, ghost boundary: int, ghost delta: int)
      requires Valid() && !ShiftRefused(log, boundary, delta)
      requires Disjoint(shifted) && Shifting(log, shifted, {}, boundary, delta, offset + pos)
      requires forall b :: b in shifted ==> |shifted[b]| <= longest && b <= offset + maxLogSpan
      requires initialized && !readStarted ==> forall b :: b in shifted ==> offset <= b
      requires !initialized ==> shifted == map[]
      modifies this
      ensures Valid() && longest == old(longest)
      ensures View() == old(View()).(log := shifted, mem := mem)
      ensures mem == ShiftedMem(LoggedPart(old(View())), boundary, delta, offset + pos)
      ensures forall k :: k in mem ==> Covered(log, k)
    {
      hide Disjoint, Holds, LogIsHeard, Shifting, ShiftRefused, ShiftedMem, LoggedPart, Covered;
      StreamBounds(offset, data, pos, mem, silence);
      log := shifted;
      Rebuild(false, 0, []);
      ShiftedMemIsExact(old(View()), shifted, mem, boundary, delta);
    }

    /** The shifted log spans too much: keep its last `maxLogSpan` bytes and start over from there. */
    method TrimTo(shifted: Log, newest: int)
      requires Disjoint(shifted) && initialized
      requires newest in shifted && newest - offset > maxLogSpan
      requires forall b :: b in shifted ==> 0 < |shifted[b]| <= longest && b <= newest
      modifies this
      ensures Valid() && longest == old(longest) && initialized
      ensures old(offset) < offset && pos == 0 && !readStarted && offset in log
      ensures forall b :: b in log ==> offset <= b <= offset + maxLogSpan && b <= newest
      ensures forall k :: k in mem ==> Covered(log, k)
      ensures forall k :: k in mem <==> Covered(shifted, k) && offset <= k
      ensures forall k :: k in mem ==> exists b :: Covers(shifted, b, k) && mem[k] == At(b, shifted[b], k)
      ensures newest in log && forall k :: Covered(shifted, k) && k < offset ==> k < newest - maxLogSpan
    {
      hide Disjoint, Holds, LogIsHeard, Trimmed, Covered;
      var cutoff := newest - maxLogSpan;
      log := TrimLog(shifted, cutoff);
      TrimKeeps(shifted, log, cutoff, newest, longest);
      offset := Least(log.Keys);
      data := [];
      pos := 0;
      readStarted := false;
      Rebuild(false, 0, []);
      forall k {
        TrimmedByte(shifted, log, cutoff, offset, mem, k);
      }
    }

    /** The log as one stretch of bytes from the origin, silence between intervals. */
    method Render() returns (out: seq<byte>)
      requires Disjoint(log)
      requires forall a :: a in log ==> a + |log[a]| <= offset + maxLogSpan + longest
      ensures |out| <= maxLogSpan + longest
      ensures forall a, k :: Covers(log, a, k) && offset <= k ==> k < offset + |out| && At(offset, out, k) == At(a, log[a], k)
      ensures forall k :: offset <= k < offset + |out| && !Covered(log, k) ==> At(offset, out, k) == silence
      ensures log == map[] ==> out == []
    {
      hide Rendering, Disjoint, Covered;
      out := [];
      var todo := log.Keys;
      RenderStarts(log, offset, silence);
      while todo != {}
        invariant todo <= log.Keys && |out| <= maxLogSpan + longest
        invariant Rendering(log, todo, offset, out, silence)
        decreases |todo|
      {
        var start := Least(todo);
        ghost var was := out;
        RenderRoom(log, todo, start, offset, out, silence);
        var payload, adjusted := log[start], start - offset;
        if adjusted < 0 {
          payload := if -adjusted <= |payload| then payload[-adjusted..] else [];
          adjusted := 0;
          if payload == [] {
            RenderNothing(log, todo, start, offset, out, silence);
            todo := todo - {start};
            continue;
          }
        }
        if adjusted > |out| {
          out := out + seq(adjusted - |out|, _ => silence);
        }
        out := out[..adjusted] + payload;
        RenderNext(log, todo, start, offset, was, out, adjusted, silence);
        todo := todo - {start};
      }
      RenderEnds(log, offset, out, silence);
    }
  }

  /** The intervals not to do are written out, with silence around them. */
  ghost predicate Rendering(log: Log, todo: set<int>, offset: int, out: seq<byte>, silence: byte) {
    && (forall a, k :: Covers(log, a, k) && offset <= k && a !in todo ==> k < offset + |out| && At(offset, out, k) == At(a, log[a], k))
    && (forall k :: offset <= k < offset + |out| && !Covered(log, k) ==> At(offset, out, k) == silence)
    && (forall a :: a in todo ==> offset + |out| <= a || out == [])
    && (log == map[] ==> out == [])
  }

  lemma RenderStarts(log: Log, offset: int, silence: byte)
    ensures Rendering(log, log.Keys, offset, [], silence)
  {
  }

  lemma RenderRoom(log: Log, todo: set<int>, start: int, offset: int, out: seq<byte>, silence: byte)
    requires Rendering(log, todo, offset, out, silence) && start in todo
    ensures offset + |out| <= start || out == []
  {
  }

  lemma RenderEnds(log: Log, offset: int, out: seq<byte>, silence: byte)
    requires Rendering(log, {}, offset, out, silence)
    ensures forall a, k :: Covers(log, a, k) && offset <= k ==> k < offset + |out| && At(offset, out, k) == At(a, log[a], k)
    ensures forall k :: offset <= k < offset + |out| && !Covered(log, k) ==> At(offset, out, k) == silence
    ensures log == map[] ==> out == []
  {
    hide Covered;
  }

  /** An interval that ends before the origin adds nothing. */
  lemma RenderNothing(log: Log, todo: set<int>, start: int, offset: int, out: seq<byte>, silence: byte)
    requires Rendering(log, todo, offset, out, silence) && start in todo && start in log && start + |log[start]| <= offset
    ensures Rendering(log, todo - {start}, offset, out, silence)
  {
    hide Covered;
  }

  /** One interval, from the origin on, is written after what there is, silence before it. */
  lemma RenderNext(log: Log, todo: set<int>, start: int, offset: int, out: seq<byte>, out': seq<byte>, adjusted: nat, silence: byte)
    requires Rendering(log, todo, offset, out, silence) && Disjoint(log)
    requires todo <= log.Keys && start in todo && forall a :: a in todo ==> start <= a
    requires adjusted == (if start < offset then 0 else start - offset) && |out| <= adjusted
    requires start < offset ==> offset < start + |log[start]|
    requires |out'| == start + |log[start]| - offset
    requires forall k :: 0 <= k < |out| ==> out'[k] == out[k]
    requires forall k :: |out| <= k < adjusted ==> out'[k] == silence
    requires forall k :: adjusted <= k < |out'| ==> out'[k] == log[start][k + offset - start]
    ensures Rendering(log, todo - {start}, offset, out', silence)
  {
    forall a, k | Covers(log, a, k) && offset <= k && a !in todo - {start}
      ensures k < offset + |out'| && At(offset, out', k) == At(a, log[a], k)
    {
      if a != start {
        assert k < offset + |out| && At(offset, out, k) == At(a, log[a], k);
      }
    }
    forall k | offset <= k < offset + |out'| && !Covered(log, k)
      ensures At(offset, out', k) == silence
    {
      assert !Covers(log, start, k);
      assert k - offset < |out| ==> At(offset, out, k) == silence;
    }
    forall a | a in todo - {start}
      ensures offset + |out'| <= a
    {
      assert start + |log[start]| <= a;
    }
  }

  /** Dropping intervals that end at or before `at` says nothing new about offsets from `at` on. */
  lemma EndingAfterIsEnough(log: Log, mem: map<int, byte>, at: int)
    requires Disjoint(log) && LogIsHeard(log, mem, at)
    ensures Disjoint(EndingAfter(log, at)) && LogIsHeard(EndingAfter(log, at), mem, at)
    ensures forall a :: a in EndingAfter(log, at) ==> a in log && EndingAfter(log, at)[a] == log[a]
  {
  }

  lemma EndingAfterCovers(log: Log, at: int)
    ensures forall k :: at <= k ==> (Covered(EndingAfter(log, at), k) <==> Covered(log, k))
  {
    forall k | at <= k && Covered(log, k)
      ensures Covered(EndingAfter(log, at), k)
    {
      var a :| Covers(log, a, k);
      assert Covers(EndingAfter(log, at), a, k);
    }
    forall k | Covered(EndingAfter(log, at), k)
      ensures Covered(log, k)
    {
      var a :| Covers(EndingAfter(log, at), a, k);
      assert Covers(log, a, k);
    }
  }

  ghost function HeadOf(a: int, data: seq<byte>, start: int, offset: int): Log
    requires a <= start && offset <= a + |data|
  {
    if start < offset then map[start := data[start - a..offset - a]] else map[]
  }

  ghost function TailOf(a: int, data: seq<byte>, end: int): Log
    requires a <= end
  {
    if a + |data| > end then map[end := data[end - a..]] else map[]
  }

  /** What is left of one interval: its part before `offset`, and its part from `end` on. */
  ghost function Remnants(a: int, data: seq<byte>, cutoff: int, offset: int, end: int): Log
    requires cutoff <= offset < end
  {
    var start, stop := if a < cutoff then cutoff else a, a + |data|;
    if a < cutoff && stop <= cutoff then map[]
    else if start < end && stop > offset then
      HeadOf(a, data, start, offset) + TailOf(a, data, end)
    else map[start := data[start - a..]]
  }

  ghost predicate Remnant(log: Log, a: int, cutoff: int, offset: int, end: int, b: int, d: seq<byte>) {
    PieceOf(log, a, b, d) && Clear(b, d, cutoff, offset, end) && b in {a, cutoff, end} && (b == a || |d| > 0)
  }

  lemma HeadIsRemnant(log: Log, a: int, cutoff: int, offset: int, end: int)
    requires a in log && cutoff <= offset < end && a < offset <= a + |log[a]|
    ensures var start := if a < cutoff then cutoff else a;
            start < offset ==> Remnant(log, a, cutoff, offset, end, start, log[a][start - a..offset - a])
  {
  }

  lemma TailIsRemnant(log: Log, a: int, cutoff: int, offset: int, end: int)
    requires a in log && cutoff <= offset < end && a <= end < a + |log[a]|
    ensures Remnant(log, a, cutoff, offset, end, end, log[a][end - a..])
  {
  }

  lemma RestIsRemnant(log: Log, a: int, cutoff: int, offset: int, end: int)
    requires a in log && cutoff <= offset < end
    requires var start := if a < cutoff then cutoff else a;
             (a < cutoff ==> cutoff < a + |log[a]|) && (end <= start || a + |log[a]| <= offset)
    ensures var start := if a < cutoff then cutoff else a;
            Remnant(log, a, cutoff, offset, end, start, log[a][start - a..])
  {
  }

  lemma RemnantsArePieces(log: Log, a: int, cutoff: int, offset: int, end: int, b: int)
    requires a in log && cutoff <= offset < end
    requires b in Remnants(a, log[a], cutoff, offset, end)
    ensures var d := Remnants(a, log[a], cutoff, offset, end)[b];
            PieceOf(log, a, b, d) && Clear(b, d, cutoff, offset, end) && b in {a, cutoff, end} && (b == a || |d| > 0)
  {
    hide PieceOf, Clear;
    var start, stop := if a < cutoff then cutoff else a, a + |log[a]|;
    if start < end && stop > offset {
      if start < offset {
        HeadIsRemnant(log, a, cutoff, offset, end);
      }
      if stop > end {
        TailIsRemnant(log, a, cutoff, offset, end);
      }
    } else {
      RestIsRemnant(log, a, cutoff, offset, end);
    }
  }

  lemma RemnantsAreDisjoint(a: int, data: seq<byte>, cutoff: int, offset: int, end: int)
    requires cutoff <= offset < end
    ensures Disjoint(Remnants(a, data, cutoff, offset, end))
  {
  }

  lemma RemnantsAreAll(log: Log, a: int, cutoff: int, offset: int, end: int, k: int)
    requires a in log && cutoff <= offset < end
    requires Covers(log, a, k) && cutoff <= k && !(offset <= k < end)
    ensures Covered(Remnants(a, log[a], cutoff, offset, end), k)
  {
    var start, stop, r := if a < cutoff then cutoff else a, a + |log[a]|, Remnants(a, log[a], cutoff, offset, end);
    if start >= end || stop <= offset {
      assert start in r && |r[start]| == stop - start;
      assert Covers(r, start, k);
    } else if k < offset {
      assert start in HeadOf(a, log[a], start, offset) && start !in TailOf(a, log[a], end);
      assert start in r && |r[start]| == offset - start;
      assert Covers(r, start, k);
    } else {
      assert end in TailOf(a, log[a], end);
      assert end in r && |r[end]| == stop - end;
      assert Covers(r, end, k);
    }
  }

  /** Pieces of one interval may take its place: nothing else overlaps them. */
  lemma ReplaceOne(log: Log, a: int, r: Log)
    requires Disjoint(log) && a in log && Disjoint(r)
    requires forall b :: b in r ==> PieceOf(log, a, b, r[b]) && (b == a || |r[b]| > 0)
    ensures Disjoint((log - {a}) + r)
    ensures forall b :: b in log && b != a ==> b !in r
  {
    forall b | b in log && b != a
      ensures b !in r
    {
    }
  }

  /** What `Remnants` comes to, by how the interval lies. */
  lemma RemnantsAre(a: int, data: seq<byte>, cutoff: int, offset: int, end: int)
    requires cutoff <= offset < end
    ensures var start, stop := if a < cutoff then cutoff else a, a + |data|;
            if a < cutoff && stop <= cutoff then Remnants(a, data, cutoff, offset, end) == map[]
            else if start < end && stop > offset then
              Remnants(a, data, cutoff, offset, end) == HeadOf(a, data, start, offset) + TailOf(a, data, end)
            else Remnants(a, data, cutoff, offset, end) == map[start := data[start - a..]]
  {
    hide HeadOf, TailOf;
  }

  lemma PutBack(log: Log, a: int, start: int, data: seq<byte>)
    requires a in log && (start == a || start !in log)
    ensures (log - {a})[start := data] == (log - {a}) + map[start := data]
    ensures start == a && data == log[a] ==> log == (log - {a})[start := data]
  {
  }

  /** One turn of the loop in `write`: the interval logged at `a` gives way to `[offset, end)`. */
  method CarveOne(log: Log, a: int, cutoff: int, offset: int, end: int) returns (log': Log)
    requires Disjoint(log) && a in log
    requires cutoff <= offset < end
    ensures log' == (log - {a}) + Remnants(a, log[a], cutoff, offset, end)
  {
    hide Disjoint, Remnants, HeadOf, TailOf;
    RemnantsAre(a, log[a], cutoff, offset, end);
    var start, data := a, log[a];
    var stop := start + |data|;
    log' := log;
    if start < cutoff {
      log' := log' - {start};
      if stop <= cutoff {
        assert log' == log' + map[];
        return;
      }
      InsideIsFree(log, a, cutoff);
      data := data[cutoff - start..];
      start := cutoff;
      log' := log'[start := data];
    }
    PutBack(log, a, start, data);
    assert data == log[a][start - a..];
    if start < end && stop > offset {
      log' := log' - {start};
      StartIsOut(log, a, start, data);
      log' := CarveMiddle(log', a, log[a], start, data, offset, end);
    }
  }

  lemma InsideIsFree(log: Log, a: int, k: int)
    requires Disjoint(log) && a in log && a < k < a + |log[a]|
    ensures k !in log
  {
  }

  lemma StartIsOut(log: Log, a: int, start: int, data: seq<byte>)
    requires a in log && (start == a || start !in log)
    ensures (log - {a})[start := data] - {start} == log - {a}
  {
  }

  /** What is before `offset`, and what is from `end` on, goes back. */
  method CarveMiddle(log: Log, a: int, ghost whole: seq<byte>, start: int, data: seq<byte>, offset: int, end: int) returns (log': Log)
    requires a <= start && start - a <= |whole| && data == whole[start - a..] && start < end && offset < start + |data| && offset < end
    ensures log' == log + (HeadOf(a, whole, start, offset) + TailOf(a, whole, end))
  {
    log' := log;
    if start < offset {
      assert data[..offset - start] == whole[start - a..offset - a];
      log' := log'[start := data[..offset - start]];
    }
    assert log' == log + HeadOf(a, whole, start, offset);
    if start + |data| > end {
      assert data[end - start..] == whole[end - a..];
      log' := log'[end := data[end - start..]];
    }
    assert log' == log + HeadOf(a, whole, start, offset) + TailOf(a, whole, end);
  }

  /** Putting the packet into the carved log: nothing overlaps it, and no interval got longer or earlier. */
  lemma LogGrows(log: Log, carved: Log, cutoff: int, newest: int, p: Packet, longest: nat, base: int, cursor: int)
    requires p.data != [] && cutoff <= p.offset <= newest && Disjoint(carved)
    requires forall b :: b in carved ==> CarvedPiece(log, b, carved[b], cutoff, p.offset, p.offset + |p.data|)
    requires forall k :: Covered(carved, k) <==> Covered(log, k) && cutoff <= k && !(p.offset <= k < p.offset + |p.data|)
    requires forall a :: a in log ==> |log[a]| <= longest && a <= newest
    ensures var log' := carved[p.offset := p.data];
            && Disjoint(log')
            && LogMerged(log, cutoff, p, log', cursor)
            && (forall a :: a in log' ==> |log'[a]| <= Max(longest, |p.data|) && a + |log'[a]| <= newest + Max(longest, |p.data|))
            && ((forall a :: a in log ==> base <= a) && base <= p.offset ==> forall a :: a in log' ==> base <= a)
  {
    var log' := carved[p.offset := p.data];
    forall a | a in log'
      ensures |log'[a]| <= Max(longest, |p.data|) && a + |log'[a]| <= newest + Max(longest, |p.data|)
      ensures (forall c :: c in log ==> base <= c) && base <= p.offset ==> base <= a
    {
      if a != p.offset {
        var b :| PieceOf(log, b, a, log'[a]);
      }
    }
    forall k
      ensures Covered(log', k) <==> p.offset <= k < p.offset + |p.data| || (Covered(log, k) && cutoff <= k)
    {
      if p.offset <= k < p.offset + |p.data| {
        assert Covers(log', p.offset, k);
      } else if Covered(carved, k) {
        var a :| Covers(carved, a, k);
        assert Covers(log', a, k);
      } else if Covered(log', k) {
        var a :| Covers(log', a, k);
        assert Covers(carved, a, k);
      }
    }
  }

  /** A packet laid over the map and over the log: what is logged is still what will be heard. */
  lemma OverlayIsHeard(log: Log, mem: map<int, byte>, cursor: int, cutoff: int, p: Packet, log': Log)
    requires LogIsHeard(log, mem, cursor)
    requires LogMerged(log, cutoff, p, log', cursor)
    ensures LogIsHeard(log', mem + Placed(p.offset, p.data), cursor)
  {
    forall a, k | Covers(log', a, k) && cursor <= k
      ensures k in mem + Placed(p.offset, p.data) && (mem + Placed(p.offset, p.data))[k] == At(a, log'[a], k)
    {
      if a == p.offset && log'[a] == p.data {
      } else {
        var b :| PieceOf(log, b, a, log'[a]);
        assert Covers(log, b, k);
      }
    }
  }

  lemma EndingAfterMerged(log: Log, cutoff: int, p: Packet, log': Log, at: int)
    requires LogMerged(log, cutoff, p, log', at)
    ensures LogMerged(log, cutoff, p, EndingAfter(log', at), at)
  {
    EndingAfterCovers(log', at);
  }

  lemma StreamBounds(offset: int, data: seq<byte>, pos: nat, mem: map<int, byte>, silence: byte)
    requires Holds(offset, data, pos, mem, silence)
    ensures forall k :: k in mem ==> offset + pos <= k
  {
  }

  /** Replaying the log from an earlier origin: the logged bytes of the old map, and the packet. */
  lemma ReplayMerges(s: Jitter, cutoff: int, p: Packet, s': Jitter)
    requires LogIsHeard(s.log, s.mem, s.cursor) && (forall a :: a in s.log ==> s.cursor <= a)
    requires cutoff <= p.offset < s.base <= s.cursor && s'.cursor == p.offset
    requires forall k :: k in s.mem ==> s.cursor <= k
    requires LogMerged(s.log, cutoff, p, s'.log, s'.cursor)
    requires LogIsHeard(s'.log, s'.mem, s'.cursor)
    requires forall k :: k in s'.mem <==> s'.cursor <= k && Covered(s'.log, k)
    ensures s'.mem == Kept(s, p.offset) + Placed(p.offset, p.data)
  {
    var expected := Kept(s, p.offset) + Placed(p.offset, p.data);
    forall k | Covered(s.log, k)
      ensures k in s.mem
    {
      var a :| Covers(s.log, a, k);
    }
    assert s'.mem.Keys == expected.Keys;
    forall k | k in s'.mem
      ensures s'.mem[k] == expected[k]
    {
      OverlayIsHeard(s.log, s.mem, p.offset, cutoff, p, s'.log);
      var a :| Covers(s'.log, a, k);
    }
  }

  ghost predicate Carving(log: Log, log': Log, todo: set<int>, cutoff: int, offset: int, end: int) {
    && Disjoint(log')
    && (forall a :: a in todo ==> a in log && a in log' && log'[a] == log[a])
    && (forall b :: b in log' && b !in todo ==> CarvedPiece(log, b, log'[b], cutoff, offset, end))
    && (forall k :: Covered(log, k) && cutoff <= k && !(offset <= k < end) ==> Covered(log', k))
  }

  ghost predicate CarvedPiece(log: Log, b: int, data: seq<byte>, cutoff: int, offset: int, end: int) {
    Piece(log, b, data) && Clear(b, data, cutoff, offset, end) && (b in log || (b in {cutoff, end} && |data| > 0))
  }

  /** A byte outside the packet stays covered when the interval that covers it is carved. */
  lemma StaysCovered(log: Log, a: int, r: Log, cutoff: int, offset: int, end: int, k: int)
    requires a in log && cutoff <= offset < end && r == Remnants(a, log[a], cutoff, offset, end)
    requires forall b :: b in log && b != a ==> b !in r
    requires Covered(log, k) && cutoff <= k && !(offset <= k < end)
    ensures Covered((log - {a}) + r, k)
  {
    var next := (log - {a}) + r;
    var b :| Covers(log, b, k);
    if b == a {
      RemnantsAreAll(log, a, cutoff, offset, end, k);
      hide Remnants;
      var c :| Covers(r, c, k);
      assert Covers(next, c, k);
    } else {
      hide Remnants;
      assert Covers(next, b, k);
    }
  }

  lemma RemnantIsCarved(log: Log, log': Log, a: int, cutoff: int, offset: int, end: int, b: int)
    requires a in log && a in log' && log'[a] == log[a] && cutoff <= offset < end && b in Remnants(a, log[a], cutoff, offset, end)
    ensures var d := Remnants(a, log[a], cutoff, offset, end)[b];
            PieceOf(log', a, b, d) && CarvedPiece(log, b, d, cutoff, offset, end) && (b == a || |d| > 0)
  {
    RemnantsArePieces(log', a, cutoff, offset, end, b);
    hide Remnants;
    assert PieceOf(log, a, b, Remnants(a, log[a], cutoff, offset, end)[b]);
  }

  lemma CarvingStep(log: Log, log': Log, todo: set<int>, a: int, cutoff: int, offset: int, end: int)
    requires Carving(log, log', todo, cutoff, offset, end) && a in todo
    requires cutoff <= offset < end
    ensures Carving(log, (log' - {a}) + Remnants(a, log[a], cutoff, offset, end), todo - {a}, cutoff, offset, end)
  {
    hide Remnants, Covered, CarvedPiece, Disjoint, PieceOf;
    var r := Remnants(a, log[a], cutoff, offset, end);
    RemnantsAreDisjoint(a, log[a], cutoff, offset, end);
    forall b | b in r
      ensures PieceOf(log', a, b, r[b]) && CarvedPiece(log, b, r[b], cutoff, offset, end) && (b == a || |r[b]| > 0)
    {
      RemnantIsCarved(log, log', a, cutoff, offset, end, b);
    }
    ReplaceOne(log', a, r);
    forall k | Covered(log, k) && cutoff <= k && !(offset <= k < end)
      ensures Covered((log' - {a}) + r, k)
    {
      StaysCovered(log', a, r, cutoff, offset, end, k);
    }
  }

  lemma CarvedOnly(log: Log, log': Log, cutoff: int, offset: int, end: int, k: int)
    requires Carving(log, log', {}, cutoff, offset, end)
    ensures Covered(log', k) <==> Covered(log, k) && cutoff <= k && !(offset <= k < end)
  {
    if Covered(log', k) {
      var b :| Covers(log', b, k);
      var a :| PieceOf(log, a, b, log'[b]);
      assert Covers(log, a, k);
    }
  }

  /**
   The loop in `write`: what is left of the log is exactly its bytes from `cutoff` on outside
   `[offset, end)`, each interval a piece of a logged one.
   */
  method Carve(log: Log, cutoff: int, offset: int, end: int) returns (log': Log)
    requires Disjoint(log)
    requires cutoff <= offset < end
    ensures Disjoint(log')
    ensures forall b :: b in log' ==> CarvedPiece(log, b, log'[b], cutoff, offset, end)
    ensures forall k :: Covered(log', k) <==> Covered(log, k) && cutoff <= k && !(offset <= k < end)
  {
    log' := log;
    var todo := log.Keys;
    while todo != {}
      invariant Carving(log, log', todo, cutoff, offset, end)
      decreases |todo|
    {
      var a := Pick(todo);
      CarvingStep(log, log', todo, a, cutoff, offset, end);
      todo := todo - {a};
      log' := CarveOne(log', a, cutoff, offset, end);
    }
    forall k {
      CarvedOnly(log, log', cutoff, offset, end, k);
    }
  }

  function Min(a: int, b: int): int {
    if a < b then a else b
  }

  /** data[n:] */
  function DropFirst(data: seq<byte>, n: nat): (rest: seq<byte>)
    ensures |rest| == if n <= |data| then |data| - n else 0
  {
    if n <= |data| then data[n..] else []
  }

  function MaxInt(a: int, b: int): int {
    if a < b then b else a
  }

  function Max(a: nat, b: nat): nat {
    if a < b then b else a
  }

  lemma NewestIs(log: Log, offset: int, newest: int)
    requires newest in log && offset <= newest && forall a :: a in log ==> a <= newest
    ensures Newest(log, offset) == newest
  {
  }

  lemma NewestBounds(log: Log, offset: int)
    ensures Newest(log, offset) == offset || Newest(log, offset) in log
    ensures Newest(log, offset) >= offset && forall a :: a in log ==> a <= Newest(log, offset)
  {
  }

  /** max(max(log), offset) */
  method NewestStart(log: Log, offset: int) returns (n: int)
    ensures n == Newest(log, offset)
  {
    n := offset;
    var todo := log.Keys;
    while todo != {}
      invariant todo <= log.Keys
      invariant n >= offset && (n == offset || n in log)
      invariant forall a :: a in log && a !in todo ==> a <= n
      decreases |todo|
    {
      var a := Pick(todo);
      todo := todo - {a};
      if a > n {
        n := a;
      }
    }
  }

  /** The loop of the suffix shift. */
  method ShiftLog(log: Log, boundary: int, delta: int, cursor: int) returns (shifted: Log)
    requires Disjoint(log) && !ShiftRefused(log, boundary, delta)
    ensures Shifting(log, shifted, {}, boundary, delta, cursor)
  {
    shifted := map[];
    var todo := log.Keys;
    while todo != {}
      invariant Shifting(log, shifted, todo, boundary, delta, cursor)
      decreases |todo|
    {
      var a := Pick(todo);
      ShiftingStep(log, shifted, todo, a, boundary, delta, cursor);
      shifted := ShiftOne(shifted, a, log[a], boundary, delta, cursor);
      todo := todo - {a};
    }
  }

  /** One turn of that loop. */
  method ShiftOne(shifted: Log, start: int, data: seq<byte>, boundary: int, delta: int, cursor: int) returns (shifted': Log)
    ensures shifted' == shifted + ShiftOf(start, data, boundary, delta, cursor)
  {
    hide StayOf, MoveOf, SuffixStart, DropFirst;
    shifted' := shifted;
    var split := if boundary - start < 0 then 0 else if boundary - start < |data| then boundary - start else |data|;
    if split > 0 {
      shifted' := shifted'[start := data[..split]];
    }
    var oldStart := if start + split < cursor then cursor else start + split;
    var suffix := DropFirst(data, oldStart - start);
    var newStart := oldStart + delta;
    if newStart < cursor {
      DropTwice(data, oldStart - start, cursor - newStart);
      suffix := DropFirst(suffix, cursor - newStart);
      newStart := cursor;
    }
    SuffixLands(start, data, boundary, delta, cursor, split, oldStart);
    if suffix != [] {
      shifted' := shifted'[newStart := suffix];
    }
  }

  lemma DropTwice(data: seq<byte>, n: nat, m: nat)
    ensures DropFirst(DropFirst(data, n), m) == DropFirst(data, n + m)
  {
  }

  lemma SuffixLands(start: int, data: seq<byte>, boundary: int, delta: int, cursor: int, split: nat, oldStart: int)
    requires split == if boundary - start < 0 then 0 else if boundary - start < |data| then boundary - start else |data|
    requires oldStart == if start + split < cursor then cursor else start + split
    ensures var newStart := NewStart(oldStart, delta, cursor);
            var suffix := DropFirst(data, newStart - delta - start);
            && StayOf(start, data, boundary) == (if split > 0 then map[start := data[..split]] else map[])
            && MoveOf(start, data, NewStart(SuffixStart(start, boundary, cursor), delta, cursor), delta)
               == if suffix != [] then map[newStart := suffix] else map[]
  {
  }

  /** The part of the log from `cutoff` on. */
  ghost predicate Trimmed(log: Log, log': Log, cutoff: int) {
    && Disjoint(log')
    && (forall b :: b in log' ==> Piece(log, b, log'[b]) && |log'[b]| > 0 && cutoff <= b && (b in log || b == cutoff))
    && (forall a :: a in log && cutoff <= a ==> a in log')
    && (forall k :: Covered(log', k) <==> Covered(log, k) && cutoff <= k)
  }

  ghost predicate TrimOf(log: Log, a: int, cutoff: int, b: int, data: seq<byte>) {
    a in log && a + |log[a]| > cutoff && b == MaxInt(a, cutoff) && data == log[a][b - a..]
  }

  lemma TrimIsPiece(log: Log, a: int, cutoff: int, b: int, data: seq<byte>)
    requires TrimOf(log, a, cutoff, b, data) && forall c :: c in log ==> |log[c]| > 0
    ensures PieceOf(log, a, b, data) && |data| > 0 && cutoff <= b && (b == a || b == cutoff) && b + |data| == a + |log[a]|
  {
  }

  lemma TrimsApart(log: Log, cutoff: int, a: int, b: int, data: seq<byte>, a': int, b': int, data': seq<byte>)
    requires Disjoint(log) && TrimOf(log, a, cutoff, b, data) && TrimOf(log, a', cutoff, b', data') && b < b'
    ensures b + |data| <= b'
  {
  }

  lemma TrimsAreTrimmed(log: Log, log': Log, cutoff: int)
    requires Disjoint(log) && forall a :: a in log ==> |log[a]| > 0
    requires forall b :: b in log' ==> exists a :: TrimOf(log, a, cutoff, b, log'[b])
    requires forall a :: a in log && a + |log[a]| > cutoff ==> MaxInt(a, cutoff) in log' && TrimOf(log, a, cutoff, MaxInt(a, cutoff), log'[MaxInt(a, cutoff)])
    ensures Trimmed(log, log', cutoff)
  {
    hide TrimOf, PieceOf, Covered;
    forall b | b in log'
      ensures Piece(log, b, log'[b]) && |log'[b]| > 0 && cutoff <= b && (b in log || b == cutoff)
    {
      var a :| TrimOf(log, a, cutoff, b, log'[b]);
      TrimIsPiece(log, a, cutoff, b, log'[b]);
    }
    forall a | a in log && cutoff <= a
      ensures a in log'
    {
      assert MaxInt(a, cutoff) == a;
    }
    forall b, b' | b in log' && b' in log' && b < b'
      ensures b + |log'[b]| <= b'
    {
      var a :| TrimOf(log, a, cutoff, b, log'[b]);
      var a' :| TrimOf(log, a', cutoff, b', log'[b']);
      TrimsApart(log, cutoff, a, b, log'[b], a', b', log'[b']);
    }
    forall k
      ensures Covered(log', k) <==> Covered(log, k) && cutoff <= k
    {
      TrimmedCovers(log, log', cutoff, k);
    }
  }

  lemma TrimmedCovers(log: Log, log': Log, cutoff: int, k: int)
    requires forall a :: a in log ==> |log[a]| > 0
    requires forall b :: b in log' ==> exists a :: TrimOf(log, a, cutoff, b, log'[b])
    requires forall a :: a in log && a + |log[a]| > cutoff ==> MaxInt(a, cutoff) in log' && TrimOf(log, a, cutoff, MaxInt(a, cutoff), log'[MaxInt(a, cutoff)])
    ensures Covered(log', k) <==> Covered(log, k) && cutoff <= k
  {
    hide TrimOf;
    if Covered(log', k) {
      var b :| Covers(log', b, k);
      var a :| TrimOf(log, a, cutoff, b, log'[b]);
      TrimIsPiece(log, a, cutoff, b, log'[b]);
      assert Covers(log, a, k);
    }
    if Covered(log, k) && cutoff <= k {
      var a :| Covers(log, a, k);
      var b := MaxInt(a, cutoff);
      TrimIsPiece(log, a, cutoff, b, log'[b]);
      assert Covers(log', b, k);
    }
  }

  lemma TrimKeeps(log: Log, log': Log, cutoff: int, newest: int, longest: nat)
    requires Trimmed(log, log', cutoff) && newest in log && cutoff <= newest
    requires forall b :: b in log ==> 0 < |log[b]| <= longest && b <= newest
    ensures log'.Keys != {}
    ensures forall b :: b in log' ==> |log'[b]| <= longest && cutoff <= b <= newest
    ensures newest in log' && Disjoint(log')
  {
    assert newest in log'.Keys;
    forall b | b in log'
      ensures |log'[b]| <= longest
    {
      var c :| PieceOf(log, c, b, log'[b]);
    }
  }

  lemma TrimmedByte(log: Log, log': Log, cutoff: int, offset: int, mem: map<int, byte>, k: int)
    requires Trimmed(log, log', cutoff) && LogIsHeard(log', mem, offset)
    requires forall b :: b in log' ==> offset <= b
    requires k in mem <==> offset <= k && Covered(log', k)
    ensures Covered(log', k) ==> offset <= k
    ensures k in mem <==> Covered(log, k) && cutoff <= k
    ensures k in mem ==> exists b :: Covers(log, b, k) && mem[k] == At(b, log[b], k)
  {
    if Covered(log', k) {
      var b :| Covers(log', b, k);
      var a :| PieceOf(log, a, b, log'[b]);
      assert Covers(log, a, k);
    }
  }

  ghost predicate TrimFrom(log: Log, todo: set<int>, cutoff: int, b: int, data: seq<byte>) {
    exists a :: a !in todo && TrimOf(log, a, cutoff, b, data)
  }

  ghost predicate TrimIn(log: Log, log': Log, cutoff: int, a: int) {
    a in log && MaxInt(a, cutoff) in log' && TrimOf(log, a, cutoff, MaxInt(a, cutoff), log'[MaxInt(a, cutoff)])
  }

  /** The intervals not to do have been trimmed. */
  ghost predicate Trimming(log: Log, log': Log, todo: set<int>, cutoff: int) {
    && todo <= log.Keys
    && (forall b :: b in log' ==> TrimFrom(log, todo, cutoff, b, log'[b]))
    && (forall a :: a in log && a !in todo && a + |log[a]| > cutoff ==> TrimIn(log, log', cutoff, a))
  }

  lemma TrimsOne(log: Log, log': Log, todo: set<int>, a: int, cutoff: int)
    requires Disjoint(log) && Trimming(log, log', todo, cutoff) && a in todo && a + |log[a]| > cutoff
    ensures Trimming(log, log'[MaxInt(a, cutoff) := log[a][MaxInt(0, cutoff - a)..]], todo - {a}, cutoff)
  {
    var to := MaxInt(a, cutoff);
    var next := log'[to := log[a][MaxInt(0, cutoff - a)..]];
    assert TrimOf(log, a, cutoff, to, next[to]);
    hide TrimOf;
    forall b | b in next
      ensures TrimFrom(log, todo - {a}, cutoff, b, next[b])
    {
      if b != to {
        var c :| c !in todo && TrimOf(log, c, cutoff, b, log'[b]);
      }
    }
    forall c | c in log && c !in todo - {a} && c + |log[c]| > cutoff
      ensures TrimIn(log, next, cutoff, c)
    {
      if c != a {
        assert TrimIn(log, log', cutoff, c);
      }
    }
  }

  lemma TrimsNone(log: Log, log': Log, todo: set<int>, a: int, cutoff: int)
    requires Trimming(log, log', todo, cutoff) && a in todo && a + |log[a]| <= cutoff
    ensures Trimming(log, log', todo - {a}, cutoff)
  {
    hide TrimOf, TrimIn;
    forall b | b in log'
      ensures TrimFrom(log, todo - {a}, cutoff, b, log'[b])
    {
      var c :| c !in todo && TrimOf(log, c, cutoff, b, log'[b]);
    }
  }

  lemma TrimsAll(log: Log, log': Log, cutoff: int)
    requires Disjoint(log) && (forall a :: a in log ==> |log[a]| > 0) && Trimming(log, log', {}, cutoff)
    ensures Trimmed(log, log', cutoff)
  {
    hide TrimOf, Disjoint, Trimmed;
    TrimsAreTrimmed(log, log', cutoff);
  }

  method TrimLog(log: Log, cutoff: int) returns (log': Log)
    requires Disjoint(log) && forall a :: a in log ==> |log[a]| > 0
    ensures Trimmed(log, log', cutoff)
  {
    hide Disjoint, Trimmed, TrimFrom, TrimIn;
    log' := map[];
    var todo := log.Keys;
    while todo != {}
      invariant Trimming(log, log', todo, cutoff)
      decreases |todo|
    {
      var a := Pick(todo);
      if a + |log[a]| > cutoff {
        TrimsOne(log, log', todo, a, cutoff);
        log' := log'[MaxInt(a, cutoff) := DropFirst(log[a], MaxInt(0, cutoff - a))];
      } else {
        TrimsNone(log, log', todo, a, cutoff);
      }
      todo := todo - {a};
    }
    TrimsAll(log, log', cutoff);
  }

  /** sorted(): the next key in increasing order. */
  method Least(s: set<int>) returns (m: int)
    requires s != {}
    ensures m in s && forall x :: x in s ==> m <= x
  {
    m := Pick(s);
    var rest := s - {m};
    while rest != {}
      invariant rest <= s && m in s
      invariant forall x :: x in s && x !in rest ==> m <= x
      decreases |rest|
    {
      var x := Pick(rest);
      if x < m {
        m := x;
      }
      rest := rest - {x};
    }
  }
}
