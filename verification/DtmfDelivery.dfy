/**
 Digits end to end: whatever the network loses or repeats, as long as each segment's final report arrives and
 segments arrive in order, the receiver's callback sees the digits that were sent, once each and in order.
 */
module DtmfDelivery {
  import opened Bytes
  import opened Rtp
  import opened Dtmf

  /** A report of segment `index` reaches the receiver. */
  datatype Arrival = Arrival(index: nat, report: EventReport)

  function KeyOf(ssrc: nat, s: Segment): Key {
    Key(ssrc, s.start % 0x1_0000_0000, s.code)
  }

  function After(ssrc: nat, segs: seq<Segment>, arrivals: seq<Arrival>): Heard
    requires forall a :: a in arrivals ==> a.index < |segs|
  {
    if arrivals == [] then Heard([], map[], [])
    else
      var a := arrivals[|arrivals| - 1];
      Receive(After(ssrc, segs, arrivals[..|arrivals| - 1]), KeyOf(ssrc, segs[a.index]),
              a.report.duration, a.report.end, a.report.marker, false)
  }

  /** How many segments have been heard of. */
  function Started(arrivals: seq<Arrival>): nat {
    if arrivals == [] then 0
    else
      var before, a := Started(arrivals[..|arrivals| - 1]), arrivals[|arrivals| - 1];
      if a.index < before then before else a.index + 1
  }

  ghost predicate Finished(segs: seq<Segment>, arrivals: seq<Arrival>, i: nat) {
    i < |segs| && exists a :: a in arrivals && a.index == i && IsFinal(segs[i], a.report)
  }

  /**
   Reports may be lost and repeated.  A segment is not heard of before the final report of the one before it,
   and repeats are of one of the last 256 segments.
   */
  ghost predicate Scheduled(segs: seq<Segment>, arrivals: seq<Arrival>) {
    arrivals == [] ||
    (var before, a := arrivals[..|arrivals| - 1], arrivals[|arrivals| - 1];
     var m := Started(before);
     && Scheduled(segs, before)
     && a.index <= m && a.index < |segs| && m <= a.index + 256 && IsReport(segs[a.index], a.report)
     && (a.index == m > 0 ==> Finished(segs, before, m - 1)))
  }

  // ------------------------------------------------------------------ 32-bit timestamps

  lemma SameRemainder(x: int, y: int)
    requires -0x1_0000_0000 < x - y < 0x1_0000_0000 && x % 0x1_0000_0000 == y % 0x1_0000_0000
    ensures x == y
  {
  }

  lemma KeysDiffer(ssrc: nat, segs: seq<Segment>, i: nat, j: nat)
    requires Chained(segs) && Spaced(segs) && i < j < |segs| && j <= i + 256
    ensures KeyOf(ssrc, segs[i]) != KeyOf(ssrc, segs[j])
    ensures segs[i].start + segs[i].duration <= segs[j].start
  {
    StartsRise(segs, i, j);
    if segs[i].start % 0x1_0000_0000 == segs[j].start % 0x1_0000_0000 {
      SameRemainder(segs[i].start, segs[j].start);
    }
  }

  lemma {:induction false} StartsRise(segs: seq<Segment>, i: nat, j: nat)
    requires Chained(segs) && i < j < |segs|
    ensures segs[i].start + segs[i].duration <= segs[j].start
  {
    assert Follows(segs[j - 1], segs[(j - 1) + 1]);
    if i < j - 1 {
      StartsRise(segs, i, j - 1);
    }
  }

  /** A recent segment found 65535 ticks before segment `j` started exactly there. */
  lemma PrecedingIsExact(ssrc: nat, segs: seq<Segment>, i: nat, j: nat)
    requires Chained(segs) && Spaced(segs) && i < j < |segs| && j <= i + 256
    requires KeyOf(ssrc, segs[i]).timestamp == (KeyOf(ssrc, segs[j]).timestamp - 0xFFFF) % 0x1_0000_0000
    ensures segs[i].start == segs[j].start - 0xFFFF
  {
    StartsRise(segs, i, j);
    var q := segs[j].start / 0x1_0000_0000;
    assert segs[j].start % 0x1_0000_0000 - 0xFFFF == (segs[j].start - 0xFFFF) - 0x1_0000_0000 * q;
    Shifted(segs[j].start - 0xFFFF, q);
    SameRemainder(segs[i].start, segs[j].start - 0xFFFF);
  }

  lemma Shifted(x: int, q: nat)
    ensures (x - 0x1_0000_0000 * q) % 0x1_0000_0000 == x % 0x1_0000_0000
  {
  }

  // ------------------------------------------------------------------ the receiver's memory

  function Window(m: nat): nat {
    if m > 256 then m - 256 else 0
  }

  function KeysOf(ssrc: nat, segs: seq<Segment>, lo: nat, hi: nat): (keys: seq<Key>)
    requires lo <= hi <= |segs|
    ensures |keys| == hi - lo && forall i :: 0 <= i < |keys| ==> keys[i] == KeyOf(ssrc, segs[lo + i])
  {
    seq<Key>(hi - lo, i requires 0 <= i < hi - lo => KeyOf(ssrc, segs[lo + i]))
  }

  /** What is known of a segment never exceeds it, and is exact once its final report has arrived. */
  ghost predicate Known(segs: seq<Segment>, arrivals: seq<Arrival>, i: nat, value: (nat, bool))
    requires i < |segs|
  {
    && value.0 <= segs[i].duration && (value.1 ==> segs[i].last)
    && (Finished(segs, arrivals, i) ==> value == (segs[i].duration, segs[i].last))
  }

  /** The receiver remembers the latest 256 of the first `m` segments, and has heard the digits they begin. */
  ghost predicate Remembers(ssrc: nat, segs: seq<Segment>, arrivals: seq<Arrival>, m: nat, h: Heard) {
    && m <= |segs|
    && h.order == KeysOf(ssrc, segs, Window(m), m)
    && (forall k :: k in h.segments ==> k in h.order)
    && (forall i :: Window(m) <= i < m ==> KnownIn(ssrc, segs, arrivals, h.segments, i))
    && h.digits == Begun(segs[..m])
  }

  ghost predicate KnownIn(ssrc: nat, segs: seq<Segment>, arrivals: seq<Arrival>, known: map<Key, (nat, bool)>, i: nat) {
    i < |segs| && KeyOf(ssrc, segs[i]) in known && Known(segs, arrivals, i, known[KeyOf(ssrc, segs[i])])
  }

  lemma StartedNext(before: seq<Arrival>, a: Arrival)
    ensures Started(before + [a]) == if a.index < Started(before) then Started(before) else a.index + 1
  {
    assert (before + [a])[..|before|] == before;
  }

  lemma FinishedGrows(segs: seq<Segment>, before: seq<Arrival>, a: Arrival, i: nat)
    requires i < |segs|
    ensures Finished(segs, before + [a], i) <==> Finished(segs, before, i) || (a.index == i && IsFinal(segs[i], a.report))
  {
    assert a in before + [a];
  }

  function ReceiveOf(ssrc: nat, segs: seq<Segment>, h: Heard, a: Arrival): Heard
    requires a.index < |segs|
  {
    Receive(h, KeyOf(ssrc, segs[a.index]), a.report.duration, a.report.end, a.report.marker, false)
  }

  /** What one more report of a segment says of it. */
  lemma KnownSharper(segs: seq<Segment>, before: seq<Arrival>, a: Arrival, value: (nat, bool))
    requires a.index < |segs| && Known(segs, before, a.index, value) && IsReport(segs[a.index], a.report)
    ensures Known(segs, before + [a], a.index,
                  (if a.report.duration > value.0 then a.report.duration else value.0, a.report.end || value.1))
  {
    FinishedGrows(segs, before, a, a.index);
  }

  lemma KnownFirst(segs: seq<Segment>, before: seq<Arrival>, a: Arrival)
    requires a.index < |segs| && !Finished(segs, before, a.index) && IsReport(segs[a.index], a.report)
    ensures Known(segs, before + [a], a.index, (a.report.duration, a.report.end))
  {
    FinishedGrows(segs, before, a, a.index);
  }

  lemma OthersKnown(ssrc: nat, segs: seq<Segment>, before: seq<Arrival>, a: Arrival, i: nat,
                    known: map<Key, (nat, bool)>, known': map<Key, (nat, bool)>)
    requires KnownIn(ssrc, segs, before, known, i) && i != a.index
    requires KeyOf(ssrc, segs[i]) in known' && known'[KeyOf(ssrc, segs[i])] == known[KeyOf(ssrc, segs[i])]
    ensures KnownIn(ssrc, segs, before + [a], known', i)
  {
    FinishedGrows(segs, before, a, i);
  }

  /** A repeat of a segment that is remembered only sharpens what is known of it. */
  lemma RepeatRemembered(ssrc: nat, segs: seq<Segment>, before: seq<Arrival>, m: nat, h: Heard, a: Arrival)
    requires Chained(segs) && Spaced(segs) && Remembers(ssrc, segs, before, m, h)
    requires Window(m) <= a.index < m && IsReport(segs[a.index], a.report)
    ensures Remembers(ssrc, segs, before + [a], m, ReceiveOf(ssrc, segs, h, a))
  {
    hide Known, Finished, IsReport, Chained, Spaced;
    var key := KeyOf(ssrc, segs[a.index]);
    var h' := ReceiveOf(ssrc, segs, h, a);
    assert h.order[a.index - Window(m)] == key;
    assert KnownIn(ssrc, segs, before, h.segments, a.index);
    forall i | Window(m) <= i < m
      ensures KnownIn(ssrc, segs, before + [a], h'.segments, i)
    {
      assert KnownIn(ssrc, segs, before, h.segments, i);
      if i == a.index {
        KnownSharper(segs, before, a, h.segments[key]);
      } else {
        if i < a.index {
          KeysDiffer(ssrc, segs, i, a.index);
        } else {
          KeysDiffer(ssrc, segs, a.index, i);
        }
        OthersKnown(ssrc, segs, before, a, i, h.segments, h'.segments);
      }
    }
  }

  lemma KeyIsNew(ssrc: nat, segs: seq<Segment>, m: nat)
    requires Chained(segs) && Spaced(segs) && m < |segs|
    ensures KeyOf(ssrc, segs[m]) !in KeysOf(ssrc, segs, Window(m), m)
  {
    var keys := KeysOf(ssrc, segs, Window(m), m);
    forall i | 0 <= i < |keys|
      ensures keys[i] != KeyOf(ssrc, segs[m])
    {
      KeysDiffer(ssrc, segs, Window(m) + i, m);
    }
  }

  function PrecedingOf(ssrc: nat, s: Segment): Key {
    Key(ssrc, (s.start % 0x1_0000_0000 - 0xFFFF) % 0x1_0000_0000, s.code)
  }

  /** The segment before a continuation is known to be a full one that has not ended. */
  lemma Continued(ssrc: nat, segs: seq<Segment>, before: seq<Arrival>, m: nat, h: Heard)
    requires Chained(segs) && Remembers(ssrc, segs, before, m, h) && 0 < m < |segs|
    requires !segs[m].first && Finished(segs, before, m - 1)
    ensures var p := PrecedingOf(ssrc, segs[m]);
            p in h.segments && h.segments[p] == (0xFFFF, false)
  {
    assert Follows(segs[m - 1], segs[(m - 1) + 1]);
    Shifted(segs[m].start - 0xFFFF, segs[m].start / 0x1_0000_0000);
    assert PrecedingOf(ssrc, segs[m]) == KeyOf(ssrc, segs[m - 1]);
    assert KnownIn(ssrc, segs, before, h.segments, m - 1);
  }

  /** A segment that ends where a new digit begins is known to have ended, or to be shorter than the longest. */
  lemma NotContinued(ssrc: nat, segs: seq<Segment>, before: seq<Arrival>, m: nat, h: Heard)
    requires Chained(segs) && Spaced(segs) && Remembers(ssrc, segs, before, m, h) && m < |segs|
    requires segs[m].first && (m > 0 ==> Finished(segs, before, m - 1))
    ensures var p := PrecedingOf(ssrc, segs[m]);
            p in h.segments ==> h.segments[p] != (0xFFFF, false)
  {
    var p := PrecedingOf(ssrc, segs[m]);
    if p in h.segments {
      var i := RememberedAt(ssrc, segs, before, m, h, p);
      hide Remembers, KnownIn, Chained, Spaced, Finished;
      PrecedingIsExact(ssrc, segs, i, m);
      EndedOrShort(ssrc, segs, before, m, h.segments, i);
    }
  }

  lemma RememberedAt(ssrc: nat, segs: seq<Segment>, before: seq<Arrival>, m: nat, h: Heard, p: Key) returns (i: nat)
    requires Remembers(ssrc, segs, before, m, h) && p in h.segments
    ensures Window(m) <= i < m <= |segs| && KeyOf(ssrc, segs[i]) == p && KnownIn(ssrc, segs, before, h.segments, i)
  {
    hide KnownIn;
    var k :| 0 <= k < |h.order| && h.order[k] == p;
    i := Window(m) + k;
  }

  lemma EndedOrShort(ssrc: nat, segs: seq<Segment>, before: seq<Arrival>, m: nat, known: map<Key, (nat, bool)>, i: nat)
    requires Chained(segs) && KnownIn(ssrc, segs, before, known, i) && i < m < |segs|
    requires segs[m].first && segs[i].start == segs[m].start - 0xFFFF && Finished(segs, before, m - 1)
    ensures known[KeyOf(ssrc, segs[i])] != (0xFFFF, false)
  {
    assert Follows(segs[m - 1], segs[(m - 1) + 1]);
    if i < m - 1 {
      StartsRise(segs, i, m - 1);
    }
  }

  /** The first report of the next segment makes a digit exactly when the segment begins one. */
  /** A report of a key not heard before. */
  lemma NewKeyMakesDigit(ssrc: nat, segs: seq<Segment>, h: Heard, a: Arrival, m: nat)
    requires a.index == m < |segs| && IsReport(segs[m], a.report) && KeyOf(ssrc, segs[m]) !in h.order
    requires var p := PrecedingOf(ssrc, segs[m]);
             if segs[m].first then p in h.segments ==> h.segments[p] != (0xFFFF, false)
             else p in h.segments && h.segments[p] == (0xFFFF, false)
    ensures ReceiveOf(ssrc, segs, h, a).digits == h.digits + if segs[m].first then [segs[m].code] else []
  {
  }

  lemma NextMakesDigit(ssrc: nat, segs: seq<Segment>, before: seq<Arrival>, m: nat, h: Heard, a: Arrival)
    requires Chained(segs) && Spaced(segs) && Remembers(ssrc, segs, before, m, h)
    requires a.index == m < |segs| && IsReport(segs[m], a.report) && (m > 0 ==> Finished(segs, before, m - 1))
    ensures KeyOf(ssrc, segs[m]) !in h.order
    ensures ReceiveOf(ssrc, segs, h, a).digits == h.digits + if segs[m].first then [segs[m].code] else []
  {
    KeyIsNew(ssrc, segs, m);
    assert KeyOf(ssrc, segs[m]) !in h.order;
    assert m == 0 ==> segs[m].first;
    hide *;
    if segs[m].first {
      NotContinued(ssrc, segs, before, m, h);
    } else {
      Continued(ssrc, segs, before, m, h);
    }
    NewKeyMakesDigit(ssrc, segs, h, a, m);
  }

  lemma NextRemembered(ssrc: nat, segs: seq<Segment>, before: seq<Arrival>, m: nat, h: Heard, a: Arrival)
    requires Chained(segs) && Spaced(segs) && Remembers(ssrc, segs, before, m, h)
    requires a.index == m < |segs| && IsReport(segs[m], a.report) && (m > 0 ==> Finished(segs, before, m - 1))
    requires !Finished(segs, before, m)
    ensures Remembers(ssrc, segs, before + [a], m + 1, ReceiveOf(ssrc, segs, h, a))
  {
    hide Known, Finished, IsReport, Chained, Spaced;
    var key := KeyOf(ssrc, segs[m]);
    var h' := ReceiveOf(ssrc, segs, h, a);
    NextMakesDigit(ssrc, segs, before, m, h, a);
    KnownFirst(segs, before, a);
    assert segs[..m + 1][..m] == segs[..m];
    assert h'.order == KeysOf(ssrc, segs, Window(m + 1), m + 1);
    forall i | Window(m + 1) <= i < m + 1
      ensures KnownIn(ssrc, segs, before + [a], h'.segments, i)
    {
      if m >= 256 {
        KeysDiffer(ssrc, segs, m - 256, i);
      }
      if i < m {
        KeysDiffer(ssrc, segs, i, m);
        assert KnownIn(ssrc, segs, before, h.segments, i);
        OthersKnown(ssrc, segs, before, a, i, h.segments, h'.segments);
      }
    }
    forall k | k in h'.segments
      ensures k in h'.order
    {
      assert k in h.order + [key];
    }
  }

  lemma {:induction false} UnheardIsUnfinished(segs: seq<Segment>, arrivals: seq<Arrival>, i: nat)
    requires i >= Started(arrivals)
    ensures !Finished(segs, arrivals, i)
  {
    if arrivals != [] {
      var before, a := arrivals[..|arrivals| - 1], arrivals[|arrivals| - 1];
      UnheardIsUnfinished(segs, before, i);
      assert arrivals == before + [a];
    }
  }

  lemma {:induction false} ScheduleRemembered(ssrc: nat, segs: seq<Segment>, arrivals: seq<Arrival>)
    requires Chained(segs) && Spaced(segs) && Scheduled(segs, arrivals)
    ensures forall a :: a in arrivals ==> a.index < |segs|
    ensures Remembers(ssrc, segs, arrivals, Started(arrivals), After(ssrc, segs, arrivals))
  {
    hide Chained, Spaced, Remembers, Finished, Receive, Started, Scheduled, After;
    if arrivals == [] {
      NothingRemembered(ssrc, segs, arrivals);
    } else {
      var before, a := arrivals[..|arrivals| - 1], arrivals[|arrivals| - 1];
      ScheduledNext(segs, arrivals);
      ScheduleRemembered(ssrc, segs, before);
      assert arrivals == before + [a];
      StartedNext(before, a);
      var m, h := Started(before), After(ssrc, segs, before);
      if a.index < m {
        RepeatRemembered(ssrc, segs, before, m, h, a);
      } else {
        UnheardIsUnfinished(segs, before, a.index);
        NextRemembered(ssrc, segs, before, m, h, a);
      }
      AfterNext(ssrc, segs, arrivals);
    }
  }

  lemma NothingRemembered(ssrc: nat, segs: seq<Segment>, arrivals: seq<Arrival>)
    requires arrivals == []
    ensures Remembers(ssrc, segs, arrivals, Started(arrivals), After(ssrc, segs, arrivals))
  {
    assert segs[..0] == [];
  }

  lemma ScheduledNext(segs: seq<Segment>, arrivals: seq<Arrival>)
    requires Scheduled(segs, arrivals) && arrivals != []
    ensures var before, a := arrivals[..|arrivals| - 1], arrivals[|arrivals| - 1];
            var m := Started(before);
            && Scheduled(segs, before)
            && a.index <= m && a.index < |segs| && m <= a.index + 256 && IsReport(segs[a.index], a.report)
            && (a.index == m > 0 ==> Finished(segs, before, m - 1))
  {
    hide Finished, Started, IsReport;
  }

  lemma AfterNext(ssrc: nat, segs: seq<Segment>, arrivals: seq<Arrival>)
    requires arrivals != [] && forall a :: a in arrivals ==> a.index < |segs|
    ensures forall a :: a in arrivals[..|arrivals| - 1] ==> a.index < |segs|
    ensures After(ssrc, segs, arrivals) == ReceiveOf(ssrc, segs, After(ssrc, segs, arrivals[..|arrivals| - 1]), arrivals[|arrivals| - 1])
  {
    hide Receive;
  }

  /** The callback sees the digits whose segments have been heard of, once each and in order. */
  lemma DigitsHeardOnce(ssrc: nat, tones: seq<Tone>, start: nat, arrivals: seq<Arrival>)
    requires forall i :: 0 <= i < |tones| ==> tones[i].code < 16
    requires Scheduled(AllSegments(tones, start), arrivals) && Started(arrivals) == |AllSegments(tones, start)|
    ensures var segs := AllSegments(tones, start);
            (forall a :: a in arrivals ==> a.index < |segs|) && After(ssrc, segs, arrivals).digits == Digits(tones)
  {
    var segs := AllSegments(tones, start);
    TonesAreChained(tones, start);
    BackToBackIsSpaced(segs);
    ScheduleRemembered(ssrc, segs, arrivals);
    assert segs[..|segs|] == segs;
  }
}
