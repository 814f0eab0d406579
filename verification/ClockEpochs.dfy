/**
 The receive timeline going forward: unwrapped numbers are the true ones, and PCM offsets never go back
 however often the RTP clock changes rate.
 */
module ClockEpochs {
  import opened Bytes
  import opened ReceiveTimeline

  // ------------------------------------------------------------------ unwrapping

  lemma AddMultiple(x: int, m: int, q: int)
    requires m > 0
    ensures (x + m * q) % m == x % m
    decreases if q < 0 then -q else q
  {
    if q > 0 {
      AddMultiple(x, m, q - 1);
      assert x + m * q == (x + m * (q - 1)) + m;
      AddOne(x + m * (q - 1), m);
    } else if q < 0 {
      AddMultiple(x, m, q + 1);
      assert x + m * (q + 1) == (x + m * q) + m;
      AddOne(x + m * q, m);
    }
  }

  lemma AddOne(x: int, m: int)
    requires m > 0
    ensures (x + m) % m == x % m
  {
    var q, r := x / m, x % m;
    assert x + m == m * (q + 1) + r;
    DivModUnique(x + m, m, q + 1, r);
  }

  lemma DivModUnique(x: int, m: int, q: int, r: int)
    requires m > 0 && 0 <= r < m && x == m * q + r
    ensures x % m == r
  {
    var d := x / m - q;
    assert m * d == r - x % m;
    assert d > 0 ==> m * d >= m;
    assert d < 0 ==> m * d <= -m;
  }

  /** Within half a modulus of the previous value, a value is recovered from its remainder. */
  lemma UnwrapRecovers(previous: int, value: int, modulus: int)
    requires modulus > 0 && modulus % 2 == 0
    requires -(modulus / 2) <= value - previous < modulus / 2
    ensures Unwrap(Some(previous), value % modulus, modulus) == value
    ensures Unwrap(Some(previous), value, modulus) == value
  {
    var half := modulus / 2;
    AddMultiple(value - previous + half, modulus, -(value / modulus));
    assert value % modulus == value - modulus * (value / modulus);
    assert value % modulus - previous + half == (value - previous + half) + modulus * -(value / modulus);
    DivModUnique(value - previous + half, modulus, 0, value - previous + half);
  }

  /** `parse_audio` measures from the low 32 bits of its high-water mark: the same thing. */
  function Extend(high: Option<int>, raw: int): int {
    match high
    case None => raw
    case Some(h) => h + ((raw - h % 0x1_0000_0000 + 0x8000_0000) % 0x1_0000_0000 - 0x8000_0000)
  }

  lemma ExtendIsUnwrap(high: Option<int>, raw: int)
    ensures Extend(high, raw) == Unwrap(high, raw, 0x1_0000_0000)
  {
    if high.Some? {
      var h, m := high.value, 0x1_0000_0000;
      assert h == m * (h / m) + h % m;
      AddMultiple(raw - h + 0x8000_0000, m, h / m);
    }
  }

  function Higher(high: Option<int>, stamp: int): Option<int> {
    if high.None? || stamp > high.value then Some(stamp) else high
  }

  /** The high-water mark after a run of timestamps. */
  function HighWater(stamps: seq<int>): Option<int> {
    if stamps == [] then None else Higher(HighWater(stamps[..|stamps| - 1]), stamps[|stamps| - 1])
  }

  predicate WithinHalf(high: Option<int>, stamp: int) {
    high.Some? ==> -0x8000_0000 <= stamp - high.value < 0x8000_0000
  }

  /** The extended timestamps that `parse_audio` computes from the 32-bit ones of a run, and its high-water mark. */
  function ExtendAll(raws: seq<int>): (seq<int>, Option<int>) {
    if raws == [] then ([], None)
    else
      var (before, high) := ExtendAll(raws[..|raws| - 1]);
      var stamp := Extend(high, raws[|raws| - 1]);
      (before + [stamp], Higher(high, stamp))
  }

  function Wrapped(stamps: seq<int>): (raws: seq<int>)
    ensures |raws| == |stamps| && forall i :: 0 <= i < |raws| ==> raws[i] == stamps[i] % 0x1_0000_0000
  {
    seq(|stamps|, i requires 0 <= i < |stamps| => stamps[i] % 0x1_0000_0000)
  }

  /**
   Under any reordering and any number of wraps: while each true timestamp is within 2^31 of the highest
   before it, the extended timestamps are the true ones.
   */
  lemma {:induction false} TimelineIsRecovered(stamps: seq<int>)
    requires stamps != [] ==> 0 <= stamps[0] < 0x1_0000_0000
    requires forall i :: 0 <= i < |stamps| ==> WithinHalf(HighWater(stamps[..i]), stamps[i])
    ensures ExtendAll(Wrapped(stamps)) == (stamps, HighWater(stamps))
  {
    hide Extend, WithinHalf;
    if stamps != [] {
      var n := |stamps| - 1;
      var before, last := stamps[..n], stamps[n];
      forall i | 0 <= i < n
        ensures WithinHalf(HighWater(before[..i]), before[i])
      {
        assert before[..i] == stamps[..i];
      }
      TimelineIsRecovered(before);
      assert Wrapped(stamps)[..n] == Wrapped(before);
      if before != [] {
        HighWaterExists(before);
      }
      assert WithinHalf(HighWater(stamps[..n]), stamps[n]);
      ExtendRecovers(HighWater(before), last);
      assert before + [last] == stamps;
    }
  }

  /** One timestamp is recovered from its low 32 bits. */
  lemma ExtendRecovers(high: Option<int>, stamp: int)
    requires WithinHalf(high, stamp) && (high.None? ==> 0 <= stamp < 0x1_0000_0000)
    ensures Extend(high, stamp % 0x1_0000_0000) == stamp
  {
    ExtendIsUnwrap(high, stamp % 0x1_0000_0000);
    hide Extend;
    if high.Some? {
      UnwrapRecovers(high.value, stamp, 0x1_0000_0000);
    }
  }

  lemma HighWaterExists(stamps: seq<int>)
    requires stamps != []
    ensures HighWater(stamps).Some?
  {
  }

  // ------------------------------------------------------------------ offsets

  lemma OffsetNeverFalls(f: Format, a: int, b: int, rate: Rate)
    requires a <= b
    ensures OffsetAt(f, a, rate) <= OffsetAt(f, b, rate)
  {
    ProductNeverFalls(a, b, f.sampleRate);
    QuotientNeverFalls(a * f.sampleRate, b * f.sampleRate, rate);
    ProductNeverFalls(a * f.sampleRate / rate, b * f.sampleRate / rate, f.alignment);
  }

  lemma ProductNeverFalls(a: int, b: int, k: Rate)
    requires a <= b
    ensures a * k <= b * k
  {
  }

  lemma QuotientNeverFalls(x: int, y: int, m: Rate)
    requires x <= y
    ensures x / m <= y / m
  {
    var d := x / m - y / m;
    assert m * d == (x - x % m) - (y - y % m);
    assert d > 0 ==> m * d >= m;
  }

  ghost predicate Whole(f: Format, offset: int) {
    exists samples :: offset == samples * f.alignment
  }

  lemma OffsetIsWhole(f: Format, stamp: int, rate: Rate)
    ensures Whole(f, OffsetAt(f, stamp, rate))
  {
  }

  lemma WholeSum(f: Format, a: int, b: int, c: int)
    requires Whole(f, a) && Whole(f, b) && Whole(f, c)
    ensures Whole(f, a + b - c)
  {
    var x, y, z :| a == x * f.alignment && b == y * f.alignment && c == z * f.alignment;
    assert a + b - c == (x + y - z) * f.alignment;
  }

  // ------------------------------------------------------------------ a run that never goes back

  /** The timeline after a run of packets that ask for no repair. */
  ghost function After(f: Format, rs: seq<Report>): Clock {
    if rs == [] then Unset else Place(f, After(f, rs[..|rs| - 1]), rs[|rs| - 1]).clock
  }

  ghost function Placed(f: Format, rs: seq<Report>, i: nat): Placement
    requires i < |rs|
  {
    Place(f, After(f, rs[..i]), rs[i])
  }

  ghost predicate NeverBack(f: Format, rs: seq<Report>) {
    forall i: nat :: i < |rs| ==> Placed(f, rs, i).forward
  }

  /** The PCM offset of the present moment. */
  ghost function Now(f: Format, c: Clock): int
    requires c.epochs != [] && c.stamp.Some?
  {
    Measure(f, Last(c.epochs), c.stamp.value, Last(c.epochs).rate)
  }

  ghost predicate Running(f: Format, c: Clock) {
    && c.epochs != [] && c.number.Some? && c.stamp.Some?
    && Last(c.epochs).number <= c.number.value
    && Last(c.epochs).origin <= c.stamp.value
    && (c.eventEnd.Some? ==> c.stamp.value <= c.eventEnd.value)
    && Whole(f, Last(c.epochs).pcm)
  }

  lemma FirstStep(f: Format, r: Report)
    ensures var p := Place(f, Unset, r);
            Running(f, p.clock) && p.forward && p.offset == Now(f, p.clock) && Whole(f, p.offset)
  {
    hide OffsetAt;
    var p := Place(f, Unset, r);
    assert p.clock.epochs == EpochsWith(f, Unset, r);
    OffsetIsWhole(f, StampOf(Unset, r), r.rate);
  }

  lemma EpochsGoingForward(f: Format, c: Clock, r: Report)
    requires Running(f, c) && IsForward(c, SeqOf(c, r), StampOf(c, r))
    ensures var last, e := Last(c.epochs), Last(EpochsWith(f, c, r));
            && e.rate == r.rate && e.number <= SeqOf(c, r) && c.stamp.value <= StampOf(c, r) && e.origin <= StampOf(c, r)
            && (if r.rate == last.rate then e == last
                else && c.stamp.value <= e.origin && last.origin <= e.origin
                     && e.pcm == Measure(f, last, e.origin, last.rate))
  {
    hide OffsetAt, SeqOf, StampOf;
    var e := NextEpoch(f, Last(c.epochs), c.eventEnd, SeqOf(c, r), StampOf(c, r), r.rate, r.audio);
    AppendEnds(c.epochs, e);
  }

  lemma AppendEnds<T>(items: seq<T>, x: T)
    ensures |Append(items, x)| > 0 && Append(items, x)[|Append(items, x)| - 1] == x
  {
  }

  lemma WholeMeasure(f: Format, e: Epoch, stamp: int, rate: Rate)
    requires Whole(f, e.pcm)
    ensures Whole(f, Measure(f, e, stamp, rate))
  {
    OffsetIsWhole(f, stamp, rate);
    OffsetIsWhole(f, e.origin, rate);
    WholeSum(f, e.pcm, OffsetAt(f, stamp, rate), OffsetAt(f, e.origin, rate));
  }

  lemma ForwardStep(f: Format, c: Clock, r: Report)
    requires Running(f, c) && Place(f, c, r).forward
    ensures var p := Place(f, c, r);
            && Running(f, p.clock)
            && Now(f, c) <= p.offset == Now(f, p.clock)
            && Whole(f, p.offset)
  {
    hide OffsetAt, SeqOf, StampOf, EpochsWith, Whole;
    var p := Place(f, c, r);
    var stamp, last, e := StampOf(c, r), Last(c.epochs), Last(EpochsWith(f, c, r));
    EpochsGoingForward(f, c, r);
    assert EpochFor(EpochsWith(f, c, r), r, SeqOf(c, r), true) == e;
    OffsetNeverFalls(f, c.stamp.value, if r.rate == last.rate then stamp else e.origin, last.rate);
    OffsetNeverFalls(f, e.origin, stamp, e.rate);
    WholeMeasure(f, last, e.origin, last.rate);
    WholeMeasure(f, e, stamp, r.rate);
  }

  lemma {:induction false} RunsForward(f: Format, rs: seq<Report>)
    requires NeverBack(f, rs) && rs != []
    ensures Running(f, After(f, rs))
    ensures Placed(f, rs, |rs| - 1).offset == Now(f, After(f, rs)) && Whole(f, Placed(f, rs, |rs| - 1).offset)
    ensures |rs| > 1 ==> Placed(f, rs, |rs| - 2).offset <= Placed(f, rs, |rs| - 1).offset
  {
    var n := |rs| - 1;
    var before := rs[..n];
    hide Running, Place, Whole, Now;
    if n == 0 {
      FirstStep(f, rs[0]);
    } else {
      forall i: nat | i < n
        ensures Placed(f, before, i) == Placed(f, rs, i)
      {
        assert before[..i] == rs[..i];
      }
      RunsForward(f, before);
      assert Placed(f, rs, n).forward;
      ForwardStep(f, After(f, before), rs[n]);
    }
  }

  /**
   However often the clock changes rate, as long as unwrapped sequence numbers and timestamps do not go
   back neither do the PCM offsets, and every offset is a whole number of PCM samples.
   */
  lemma {:induction false} OffsetsNeverGoBack(f: Format, rs: seq<Report>, i: nat, j: nat)
    requires NeverBack(f, rs) && i <= j < |rs|
    ensures Placed(f, rs, i).offset <= Placed(f, rs, j).offset
    ensures Whole(f, Placed(f, rs, j).offset)
  {
    var upto := rs[..j + 1];
    forall k: nat | k <= j
      ensures Placed(f, upto, k) == Placed(f, rs, k)
    {
      assert upto[..k] == rs[..k];
    }
    RunsForward(f, upto);
    if i < j {
      OffsetsNeverGoBack(f, rs, i, j - 1);
    }
  }

  /**
   Where the clock changes, at the event's end or at the packet, the old and the new clock give the same
   offset, and that moment lies between the previous packet and this one.
   */
  lemma ClocksAgreeAtTransition(f: Format, rs: seq<Report>, i: nat)
    requires NeverBack(f, rs) && 0 < i < |rs|
    requires rs[i].rate != Last(After(f, rs[..i]).epochs).rate
    ensures var c, p := After(f, rs[..i]), Placed(f, rs, i);
            var old', new' := Last(c.epochs), Last(p.clock.epochs);
            && c.stamp.Some? && c.stamp.value <= new'.origin <= p.stamp && new'.rate == rs[i].rate
            && Measure(f, old', new'.origin, old'.rate) == Measure(f, new', new'.origin, new'.rate)
  {
    var before := rs[..i];
    forall k: nat | k < i
      ensures Placed(f, before, k) == Placed(f, rs, k)
    {
      assert before[..k] == rs[..k];
    }
    RunsForward(f, before);
    assert Placed(f, rs, i).forward;
    EpochsGoingForward(f, After(f, before), rs[i]);
  }
}
