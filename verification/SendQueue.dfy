/**
 The send queue (RTPAudioOutput).  The program keeps a deque of timed chunks; `Output` is the same queue as
 one sequence of timed bytes, and the functions on it say what each method does to the bytes.

 Times are integers that do not go back (say, microseconds).
 */
module SendQueue {
  import opened Bytes

  type Pos = n: int | 0 < n witness 1

  const MIN_PERIOD: Pos := 1000

  datatype Stamped = Stamped(at: int, value: byte)
  datatype Mode = Prefill | Underrun | Audio

  /** `latency` is set in realtime mode; `headroom` is the prefill time. */
  datatype Config = Config(frameBytes: Pos, period: Pos, silence: byte, alignment: Pos, latency: Option<Pos>, headroom: nat)

  datatype Output = Output(queue: seq<Stamped>, skip: nat, dropped: nat, expired: nat, underruns: nat, primed: bool, mode: Mode)

  function Least(a: nat, b: nat): nat {
    if a < b then a else b
  }

  function Most(a: nat, b: nat): nat {
    if a < b then b else a
  }

  /** The frames it takes to cover `headroom`, at least one, in bytes. */
  function Covering(headroom: nat, period: Pos, frameBytes: Pos): nat {
    Most(1, (headroom + period - 1) / period) * frameBytes
  }

  /** The whole frames that fit in `latency`, at least one, in bytes. */
  function Fitting(latency: Pos, period: Pos, frameBytes: Pos): nat {
    Most(frameBytes, latency / period * frameBytes)
  }

  function PrefillBytes(c: Config): nat {
    var wanted := Covering(c.headroom, c.period, c.frameBytes);
    match Maximum(c) case None => wanted case Some(m) => Least(wanted, m)
  }

  function Maximum(c: Config): Option<nat> {
    match c.latency case None => None case Some(l) => Some(Fitting(l, c.period, c.frameBytes))
  }

  /** What has to go so that at most the maximum stays, in whole samples. */
  function Excess(c: Config, size: nat): (n: nat)
    ensures n <= size
  {
    match Maximum(c)
    case None => 0
    case Some(m) =>
      if size <= m then 0
      else Least(size, (size - m + c.alignment - 1) / c.alignment * c.alignment)
  }

  function Trimmed(c: Config, o: Output): Output {
    var n := Excess(c, |o.queue|);
    o.(queue := o.queue[n..], dropped := o.dropped + n)
  }

  function StampAll(at: int, data: seq<byte>): (s: seq<Stamped>)
    ensures |s| == |data| && forall i :: 0 <= i < |s| ==> s[i] == Stamped(at, data[i])
  {
    seq(|data|, i requires 0 <= i < |data| => Stamped(at, data[i]))
  }

  function Values(s: seq<Stamped>): (v: seq<byte>)
    ensures |v| == |s| && forall i :: 0 <= i < |v| ==> v[i] == s[i].value
  {
    seq(|s|, i requires 0 <= i < |s| => s[i].value)
  }

  function Silence(c: Config, n: nat): (s: seq<byte>)
    ensures |s| == n
  {
    seq<byte>(n, _ => c.silence)
  }

  /** `write`: what the alignment skip leaves of the data is queued, and the queue is trimmed. */
  function Written(c: Config, o: Output, now: int, data: seq<byte>): Output {
    if data == [] then o
    else
      var skipped := Least(|data|, o.skip);
      var o' := o.(skip := o.skip - skipped, expired := o.expired + skipped);
      if skipped == |data| then o'
      else Trimmed(c, o'.(queue := o.queue + StampAll(now, data[skipped..])))
  }

  /** How many leading bytes are older than `latency`. */
  function Stale(queue: seq<Stamped>, now: int, latency: nat): (n: nat)
    ensures n <= |queue|
  {
    if queue != [] && now - queue[0].at > latency then 1 + Stale(queue[1..], now, latency) else 0
  }

  /** The bytes that expiry takes from the queue: the stale ones and the rest of the sample they break. */
  function Expiring(c: Config, o: Output, now: int): (n: nat)
    ensures n <= |o.queue|
  {
    match c.latency
    case None => 0
    case Some(l) =>
      var stale := Stale(o.queue, now, l);
      if stale % c.alignment == 0 then stale
      else Least(|o.queue|, stale + (c.alignment - stale % c.alignment))
  }

  /** What is missing from that sample is skipped when it is written. */
  function NewSkip(c: Config, o: Output, now: int): nat {
    match c.latency
    case None => 0
    case Some(l) =>
      var stale := Stale(o.queue, now, l);
      if stale % c.alignment == 0 then 0
      else stale + (c.alignment - stale % c.alignment) - Expiring(c, o, now)
  }

  function Expired(c: Config, o: Output, now: int): Output {
    var n := Expiring(c, o, now);
    o.(queue := o.queue[n..], expired := o.expired + n, skip := o.skip + NewSkip(c, o, now))
  }

  function Held(c: Config, o: Output, now: int, length: nat): bool {
    |o.queue| < length || !(|o.queue| >= PrefillBytes(c) || (o.queue != [] && now - o.queue[0].at >= c.headroom))
  }

  /** Whole samples available for a read of `length`. */
  function Available(c: Config, o: Output, length: nat): (n: nat)
    ensures n <= length && n <= |o.queue|
  {
    var count := Least(length, |o.queue|);
    count - count % c.alignment
  }

  /** How a read of positive length goes, after expiry: how many bytes it delivers, and the state it leaves. */
  function Delivery(c: Config, o: Output, now: int, length: nat): (nat, Output) {
    if c.latency.Some? && !o.primed && Held(c, o, now, length) then (0, o.(mode := Prefill))
    else if c.latency.Some? && |o.queue| < length then
      (0, o.(underruns := o.underruns + 1, primed := false, mode := Underrun))
    else
      var n := Available(c, o, length);
      (n, o.(queue := o.queue[n..],
             underruns := if |o.queue| < length then o.underruns + 1 else o.underruns,
             primed := o.primed || c.latency.Some?,
             mode := if n > 0 then Audio else Underrun))
  }

  /** The state `read` leaves, and the audio at the head of what it returns. */
  function ReadFrom(c: Config, o: Output, now: int, length: int): (Output, seq<byte>) {
    if length <= 0 then (o, [])
    else
      var e := Expired(c, o, now);
      var (n, o') := Delivery(c, e, now, length);
      (o', if n <= |e.queue| then Values(e.queue[..n]) else [])
  }

  // ------------------------------------------------------------------ the deque

  datatype Chunk = Chunk(at: int, data: seq<byte>)

  function Flat(chunks: seq<Chunk>): seq<Stamped> {
    if chunks == [] then [] else StampAll(chunks[0].at, chunks[0].data) + Flat(chunks[1..])
  }

  lemma {:induction false} FlatAppend(chunks: seq<Chunk>, c: Chunk)
    ensures Flat(chunks + [c]) == Flat(chunks) + StampAll(c.at, c.data)
  {
    if chunks == [] {
      assert chunks + [c] == [c];
      assert Flat([c][1..]) == [];
    } else {
      FlatAppend(chunks[1..], c);
      assert (chunks + [c])[1..] == chunks[1..] + [c];
    }
  }

  lemma StampRest(at: int, data: seq<byte>, n: nat)
    requires n <= |data|
    ensures StampAll(at, data)[n..] == StampAll(at, data[n..])
    ensures StampAll(at, data)[..n] == StampAll(at, data[..n])
    ensures Values(StampAll(at, data[..n])) == data[..n]
  {
  }

  /** A whole chunk is stale or none of it is. */
  lemma {:induction false} StaleChunk(at: int, data: seq<byte>, rest: seq<Stamped>, now: int, latency: nat)
    ensures Stale(StampAll(at, data) + rest, now, latency)
            == if data == [] || now - at > latency then |data| + Stale(rest, now, latency) else 0
    decreases |data|
  {
    var all := StampAll(at, data) + rest;
    if data == [] {
      assert all == rest;
    } else {
      StaleChunk(at, data[1..], rest, now, latency);
      StampRest(at, data, 1);
      assert all[1..] == StampAll(at, data[1..]) + rest;
    }
  }

  class AudioOutput {
    const alignment: Pos
    var chunks: seq<Chunk>
    var size: nat
    var primed: bool
    var latency: Option<Pos>
    var headroom: nat
    var skip: nat
    var underruns: nat
    var dropped: nat
    var expired: nat
    var mode: Mode
    var frameBytes: Pos
    var period: Pos
    var silence: byte
    var prefill: nat
    var maximum: Option<nat>

    ghost predicate Valid()
      reads this
    {
      && size == |Flat(chunks)|
      && (forall i :: 0 <= i < |chunks| ==> chunks[i].data != [])
      && prefill == PrefillBytes(Settings()) && maximum == Maximum(Settings())
    }

    function Settings(): Config
      reads this
    {
      Config(frameBytes, period, silence, alignment, latency, headroom)
    }

    ghost function View(): Output
      reads this
    {
      Output(Flat(chunks), skip, dropped, expired, underruns, primed, mode)
    }

    constructor (frameBytes: int, silence: byte, alignment: int)
      ensures Valid() && View() == Output([], 0, 0, 0, 0, false, Prefill)
      ensures Settings() == Config(if frameBytes < 1 then 1 else frameBytes, 20000, silence, if alignment < 1 then 1 else alignment, None, 0)
    {
      this.alignment := if alignment < 1 then 1 else alignment;
      chunks, size, primed, latency, headroom, skip := [], 0, false, None, 0, 0;
      underruns, dropped, expired, mode := 0, 0, 0, Prefill;
      this.frameBytes, period, this.silence := if frameBytes < 1 then 1 else frameBytes, 20000, silence;
      prefill, maximum := 0, None;
      new;
      Configure(frameBytes, 20000, silence);
    }

    method Configure(frameBytes: int, period: int, silence: byte)
      requires size == |Flat(chunks)| && forall i :: 0 <= i < |chunks| ==> chunks[i].data != []
      modifies this
      ensures Valid()
      ensures Settings() == old(Settings()).(frameBytes := if frameBytes < 1 then 1 else frameBytes,
                                             period := if period < 1000 then 1000 else period, silence := silence)
      ensures View() == Trimmed(Settings(), old(View()))
    {
      hide Covering, Fitting, Excess, Trimmed;
      this.frameBytes := if frameBytes < 1 then 1 else frameBytes;
      this.period := if period < MIN_PERIOD then MIN_PERIOD else period;
      this.silence := silence;
      prefill := Covering(headroom, this.period, this.frameBytes);
      maximum := if latency.None? then None else Some(Fitting(latency.value, this.period, this.frameBytes));
      if maximum.Some? {
        prefill := Least(prefill, maximum.value);
      }
      Trim();
    }

    /** Bound queued audio by age and size; fails when the times do not make sense. */
    method EnableRealtime(maxLatency: int, prefillTime: int) returns (ok: bool)
      requires Valid()
      modifies this
      ensures Valid()
      ensures ok <==> 0 <= prefillTime <= maxLatency && 0 < maxLatency
      ensures !ok ==> View() == old(View()) && Settings() == old(Settings())
      ensures ok ==> Settings() == old(Settings()).(latency := Some(maxLatency), headroom := prefillTime,
                                                       period := if period < 1000 then 1000 else period)
                     && View() == Trimmed(Settings(), old(View()).(primed := false))
    {
      ok := 0 < maxLatency && 0 <= prefillTime && prefillTime <= maxLatency;
      hide Excess, Covering, Fitting, PrefillBytes, Maximum, Flat, Trimmed;
      if ok {
        latency, headroom, primed := Some(maxLatency), prefillTime, false;
        Configure(frameBytes, period, silence);
        TrimTwice(Settings(), old(View()).(primed := false));
        Trim();
      }
    }

    /** Take up to `length` bytes from the head. */
    method Take(length: nat) returns (output: seq<byte>)
      requires size == |Flat(chunks)| && forall i :: 0 <= i < |chunks| ==> chunks[i].data != []
      modifies this`chunks, this`size
      ensures size == |Flat(chunks)| && forall i :: 0 <= i < |chunks| ==> chunks[i].data != []
      ensures var n := Least(length, |Flat(old(chunks))|);
              output == Values(Flat(old(chunks))[..n]) && Flat(chunks) == Flat(old(chunks))[n..]
    {
      output := [];
      var remaining := length;
      ghost var all := Flat(chunks);
      while remaining > 0 && chunks != []
        invariant size == |Flat(chunks)| && forall i :: 0 <= i < |chunks| ==> chunks[i].data != []
        invariant 0 <= remaining && |output| + remaining == length && |output| <= |all|
        invariant output == Values(all[..|output|]) && Flat(chunks) == all[|output|..]
        decreases |chunks|, remaining
      {
        var head := chunks[0];
        chunks := chunks[1..];
        var count := Least(remaining, |head.data|);
        StampRest(head.at, head.data, count);
        TakeTurn(all, |output|, head, Flat(chunks), count);
        output := output + head.data[..count];
        size := size - count;
        remaining := remaining - count;
        if count < |head.data| {
          chunks := [Chunk(head.at, head.data[count..])] + chunks;
        }
      }
      assert |all[|output|..]| == |Flat(chunks)|;
      assert |output| == if remaining == 0 then length else |all|;
      assert |output| == Least(length, |all|);
    }

    /** Drop the oldest bytes beyond the maximum. */
    method Trim()
      requires size == |Flat(chunks)| && forall i :: 0 <= i < |chunks| ==> chunks[i].data != []
      requires maximum == Maximum(Settings())
      modifies this`chunks, this`size, this`dropped
      ensures size == |Flat(chunks)| && forall i :: 0 <= i < |chunks| ==> chunks[i].data != []
      ensures View() == Trimmed(Settings(), old(View()))
    {
      if maximum.None? || size <= maximum.value {
        return;
      }
      var excess := size - maximum.value;
      excess := Least(size, (excess + alignment - 1) / alignment * alignment);
      var gone := Take(excess);
      dropped := dropped + excess;
    }

    method Write(now: int, data: seq<byte>)
      requires Valid()
      modifies this
      ensures Valid() && Settings() == old(Settings())
      ensures View() == Written(Settings(), old(View()), now, data)
    {
      hide Excess, Covering, Fitting;
      if data == [] {
        return;
      }
      var rest := data;
      if skip > 0 {
        var skipped := Least(|data|, skip);
        rest := data[skipped..];
        skip := skip - skipped;
        expired := expired + skipped;
        if rest == [] {
          return;
        }
      }
      FlatAppend(chunks, Chunk(now, rest));
      chunks := chunks + [Chunk(now, rest)];
      size := size + |rest|;
      Trim();
    }

    /** Drop the stale chunks at the head. */
    method DropStale(now: int, limit: nat) returns (gone: nat)
      requires size == |Flat(chunks)| && forall i :: 0 <= i < |chunks| ==> chunks[i].data != []
      modifies this`chunks, this`size
      ensures size == |Flat(chunks)| && forall i :: 0 <= i < |chunks| ==> chunks[i].data != []
      ensures gone == Stale(Flat(old(chunks)), now, limit) && Flat(chunks) == Flat(old(chunks))[gone..]
    {
      gone := 0;
      ghost var all := Flat(chunks);
      while chunks != [] && now - chunks[0].at > limit
        invariant size == |Flat(chunks)| && forall i :: 0 <= i < |chunks| ==> chunks[i].data != []
        invariant gone <= |all| && Flat(chunks) == all[gone..]
        invariant Stale(all, now, limit) == gone + Stale(Flat(chunks), now, limit)
        decreases |chunks|
      {
        var head := chunks[0];
        chunks := chunks[1..];
        StaleChunk(head.at, head.data, Flat(chunks), now, limit);
        TakeTurn(all, gone, head, Flat(chunks), |head.data|);
        size := size - |head.data|;
        gone := gone + |head.data|;
      }
      if chunks != [] {
        StaleChunk(chunks[0].at, chunks[0].data, Flat(chunks[1..]), now, limit);
      }
    }

    /** Drop what is too old, to a whole sample. */
    method Expire(now: int)
      requires Valid() && latency.Some?
      modifies this`chunks, this`size, this`expired, this`skip
      ensures Valid() && View() == Expired(Settings(), old(View()), now)
    {
      hide Flat, Stale, Covering, Fitting;
      var gone := DropStale(now, latency.value);
      if gone % alignment != 0 {
        var suffix := alignment - gone % alignment;
        var taken := Take(suffix);
        gone := gone + |taken|;
        skip := skip + (suffix - |taken|);
      }
      expired := expired + gone;
    }

    /** The next `length` bytes: audio as far as it goes in whole samples, then silence. */
    method Read(now: int, length: int) returns (packet: seq<byte>)
      requires Valid()
      modifies this
      ensures Valid() && Settings() == old(Settings())
      ensures View() == ReadFrom(Settings(), old(View()), now, length).0
      ensures |packet| == if length > 0 then length else 0
      ensures var audio := ReadFrom(Settings(), old(View()), now, length).1;
              |audio| <= |packet| && packet == audio + Silence(Settings(), |packet| - |audio|)
    {
      hide Flat, Expired, Delivery, PrefillBytes, Maximum, Values, Silence, Held;
      if length <= 0 {
        return [];
      }
      if latency.None? {
        NeverExpires(Settings(), View(), now);
      }
      var play := true;
      if latency.Some? {
        Expire(now);
        play := PrimeOrHold(now, length);
      } else if size < length {
        underruns := underruns + 1;
      }
      if !play {
        return Silence(Settings(), length);
      }
      Plays(Settings(), if latency.Some? then Expired(Settings(), old(View()), now) else old(View()), now, length);
      packet := Deliver(length);
      packet := packet + Silence(Settings(), length - |packet|);
    }

    /** Realtime mode: play only with enough audio queued, or queued for long enough after a pause. */
    method PrimeOrHold(now: int, length: nat) returns (play: bool)
      requires Valid() && latency.Some?
      modifies this`primed, this`mode, this`underruns
      ensures !play ==> Delivery(Settings(), old(View()), now, length) == (0, View())
      ensures play ==> View() == old(View()).(primed := true) && |View().queue| >= length
                       && (old(primed) || !Held(Settings(), old(View()), now, length))
    {
      HeadOfFlat(chunks);
      hide Flat, PrefillBytes, Maximum;
      if !primed {
        var ready := size >= prefill;
        var waited := chunks != [] && now - chunks[0].at >= headroom;
        if size < length || !(ready || waited) {
          mode := Prefill;
          return false;
        }
        primed := true;
      }
      if size < length {
        underruns := underruns + 1;
        primed := false;
        mode := Underrun;
        return false;
      }
      return true;
    }

    /** The audio of one read, in whole samples. */
    method Deliver(length: nat) returns (output: seq<byte>)
      requires Valid()
      modifies this`chunks, this`size, this`mode
      ensures Valid()
      ensures var n := Available(Settings(), old(View()), length);
              && output == Values(old(View()).queue[..n])
              && View() == old(View()).(queue := old(View()).queue[n..], mode := if n > 0 then Audio else Underrun)
    {
      hide Flat, PrefillBytes, Maximum;
      var count := Least(length, size);
      count := count - count % alignment;
      output := Take(count);
      mode := if output != [] then Audio else Underrun;
    }
  }

  lemma NeverExpires(c: Config, o: Output, now: int)
    requires c.latency == None
    ensures Expired(c, o, now) == o
  {
  }

  /** When a read is not held back it delivers the whole samples it finds. */
  lemma Plays(c: Config, o: Output, now: int, length: nat)
    requires c.latency.Some? ==> |o.queue| >= length && (o.primed || !Held(c, o, now, length))
    ensures var n := Available(c, o, length);
            Delivery(c, o, now, length)
            == (n, o.(queue := o.queue[n..],
                      underruns := if |o.queue| < length then o.underruns + 1 else o.underruns,
                      primed := o.primed || c.latency.Some?,
                      mode := if n > 0 then Audio else Underrun))
  {
  }

  lemma HeadOfFlat(chunks: seq<Chunk>)
    requires forall i :: 0 <= i < |chunks| ==> chunks[i].data != []
    ensures chunks == [] <==> Flat(chunks) == []
    ensures chunks != [] ==> Flat(chunks)[0].at == chunks[0].at
  {
  }

  // ------------------------------------------------------------------ rounding

  lemma RoundsUp(n: nat, a: Pos)
    ensures n <= (n + a - 1) / a * a < n + a
    ensures ((n + a - 1) / a * a) % a == 0
  {
    var q := (n + a - 1) / a;
    assert q * a + (n + a - 1) % a == n + a - 1;
    MultipleHasNoRemainder(q, a);
  }

  lemma MultipleHasNoRemainder(q: nat, a: Pos)
    ensures (q * a) % a == 0
  {
    if q > 0 {
      MultipleHasNoRemainder(q - 1, a);
      assert q * a == (q - 1) * a + a;
      RemainderOfSum((q - 1) * a, a);
    }
  }

  lemma RemainderOfSum(x: nat, a: Pos)
    ensures (x + a) % a == x % a
  {
    var q := (x + a) / a - x / a;
    assert a * q == x + a - (x + a) % a - (x - x % a);
    assert q > 1 ==> a * q >= 2 * a;
    assert q < 1 ==> a * q <= 0;
  }

  /** Trimming leaves no more than the maximum. */
  lemma TrimFits(c: Config, o: Output)
    ensures Maximum(c).Some? ==> |Trimmed(c, o).queue| <= Maximum(c).value
  {
    if Maximum(c).Some? && |o.queue| > Maximum(c).value {
      RoundsUp(|o.queue| - Maximum(c).value, c.alignment);
    }
  }

  lemma TrimTwice(c: Config, o: Output)
    ensures Trimmed(c, Trimmed(c, o)) == Trimmed(c, o)
  {
    TrimFits(c, o);
    assert Excess(c, |Trimmed(c, o).queue|) == 0;
  }

  lemma TakeTurn(all: seq<Stamped>, done: nat, head: Chunk, rest: seq<Stamped>, count: nat)
    requires done <= |all| && all[done..] == StampAll(head.at, head.data) + rest && count <= |head.data|
    ensures done + count <= |all|
    ensures Values(all[..done + count]) == Values(all[..done]) + head.data[..count]
    ensures all[done + count..] == StampAll(head.at, head.data[count..]) + rest
  {
    assert all == all[..done] + all[done..];
    StampRest(head.at, head.data, count);
    assert all[done + count..] == all[done..][count..];
  }
}
