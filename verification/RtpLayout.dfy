/**
 Any RTP packet, laid out byte by byte as in sections 5.1 and 5.3.1 of RFC 3550: what the parser makes of it, whole or
 cut short, and that it accepts nothing else.
 */
module RtpLayout {
  import opened Bytes
  import opened Rtp

  /** A header extension of whole 32-bit words. */
  datatype Extension = Extension(profile: nat, words: nat, data: seq<byte>)

  datatype Header = Header(padded: bool, marker: bool, payloadType: nat, sequence: nat, timestamp: nat, ssrc: nat,
                           sources: seq<seq<byte>>, extension: Option<Extension>)

  predicate Fits(h: Header) {
    && h.payloadType < 128 && h.sequence < 0x1_0000 && h.timestamp < 0x1_0000_0000 && h.ssrc < 0x1_0000_0000
    && |h.sources| <= 15 && (forall s :: s in h.sources ==> |s| == 4)
    && (h.extension.Some? ==>
          var x := h.extension.value; x.profile < 0x1_0000 && x.words < 0x1_0000 && |x.data| == 4 * x.words)
  }

  function Two(n: nat): seq<byte>
    requires n < 0x1_0000
  {
    [n / 256, n % 256]
  }

  function Four(n: nat): seq<byte>
    requires n < 0x1_0000_0000
  {
    [n / 0x100_0000, n / 0x1_0000 % 256, n / 256 % 256, n % 256]
  }

  function Joined(sources: seq<seq<byte>>): seq<byte> {
    if sources == [] then [] else sources[0] + Joined(sources[1..])
  }

  /** The first twelve bytes. */
  function Fixed(h: Header): (b: seq<byte>)
    requires Fits(h)
    ensures |b| == 12
  {
    [0x80 + (if h.padded then 0x20 else 0) + (if h.extension.Some? then 0x10 else 0) + |h.sources|]
    + [(if h.marker then 0x80 else 0) + h.payloadType]
    + Two(h.sequence) + Four(h.timestamp) + Four(h.ssrc)
  }

  function Extending(h: Header): seq<byte>
    requires Fits(h)
  {
    match h.extension
    case None => []
    case Some(x) => Two(x.profile) + Two(x.words) + x.data
  }

  /** Everything before the payload. */
  function Head(h: Header): seq<byte>
    requires Fits(h)
  {
    Fixed(h) + Joined(h.sources) + Extending(h)
  }

  function Received(h: Header, payload: seq<byte>): Message {
    Message(h.padded, h.extension.Some?, h.marker, h.payloadType, h.sequence, h.timestamp, h.ssrc, h.sources,
            if h.extension.Some? then Some(h.extension.value.profile) else None,
            if h.extension.Some? then h.extension.value.data else [], payload)
  }

  // ------------------------------------------------------------------ numbers and lists

  lemma NumberOfTwo(b: seq<byte>)
    requires |b| == 2
    ensures FromBytes(b) == 256 * (b[0] as int) + b[1]
  {
    assert b[..1][..0] == [] && FromBytes(b[..1]) == b[0];
  }

  lemma NumberOfFour(b: seq<byte>)
    requires |b| == 4
    ensures FromBytes(b) == 0x100_0000 * (b[0] as int) + 0x1_0000 * (b[1] as int) + 256 * (b[2] as int) + b[3]
  {
    NumberOfTwo(b[..2]);
    assert b[..3][..2] == b[..2];
  }

  lemma TwoIs(n: nat)
    requires n < 0x1_0000
    ensures FromBytes(Two(n)) == n
  {
    NumberOfTwo(Two(n));
  }

  lemma FourIs(n: nat)
    requires n < 0x1_0000_0000
    ensures FromBytes(Four(n)) == n
  {
    NumberOfFour(Four(n));
    assert n / 0x1_0000 == n / 0x100_0000 * 256 + n / 0x1_0000 % 256 by { assert n / 0x1_0000 / 256 == n / 0x100_0000; }
    assert n / 256 == n / 0x1_0000 * 256 + n / 256 % 256 by { assert n / 256 / 256 == n / 0x1_0000; }
  }

  lemma {:induction false} JoinedLength(sources: seq<seq<byte>>)
    requires forall s :: s in sources ==> |s| == 4
    ensures |Joined(sources)| == 4 * |sources|
  {
    if sources != [] {
      assert sources[0] in sources && forall s :: s in sources[1..] ==> s in sources;
      JoinedLength(sources[1..]);
    }
  }

  /** The sources are found again wherever they lie. */
  lemma {:induction false} SourcesOfJoined(packet: seq<byte>, i: nat, sources: seq<seq<byte>>)
    requires forall s :: s in sources ==> |s| == 4
    requires i + 4 * |sources| <= |packet| && packet[i..i + 4 * |sources|] == Joined(sources)
    ensures Sources(packet, i, |sources|) == sources
    decreases sources
  {
    if sources != [] {
      var first, rest := sources[0], sources[1..];
      assert first in sources && forall s :: s in rest ==> s in sources;
      JoinedLength(rest);
      var all := packet[i..i + 4 * |sources|];
      assert all == first + Joined(rest);
      assert packet[i..i + 4] == all[..4] == first;
      assert packet[i + 4..i + 4 + 4 * |rest|] == all[4..] == Joined(rest);
      SourcesOfJoined(packet, i + 4, rest);
    }
  }

  // ------------------------------------------------------------------ the whole packet

  /** Where the parts lie. */
  lemma PartsOf(h: Header, rest: seq<byte>)
    requires Fits(h)
    ensures var packet, i := Head(h) + rest, 12 + 4 * |h.sources|;
            && |packet| == i + |Extending(h)| + |rest|
            && packet[..12] == Fixed(h) && packet[12..i] == Joined(h.sources)
            && packet[i..i + |Extending(h)|] == Extending(h) && packet[i + |Extending(h)|..] == rest
  {
    JoinedLength(h.sources);
    hide Fixed, Joined, Extending;
  }

  /** What the first twelve bytes say. */
  lemma FixedSays(h: Header, packet: seq<byte>)
    requires Fits(h) && |packet| >= 12 && packet[..12] == Fixed(h)
    ensures packet[0] / 64 == 2 && (packet[0] / 32 % 2 == 1 <==> h.padded) && (packet[0] / 16 % 2 == 1 <==> h.extension.Some?)
    ensures packet[0] % 16 == |h.sources| && (packet[1] / 128 == 1 <==> h.marker) && packet[1] % 128 == h.payloadType
    ensures FromBytes(packet[2..4]) == h.sequence && FromBytes(packet[4..8]) == h.timestamp && FromBytes(packet[8..12]) == h.ssrc
  {
    var b := Fixed(h);
    assert packet[0] == b[0] && packet[1] == b[1];
    assert packet[2..4] == b[2..4] == Two(h.sequence);
    assert packet[4..8] == b[4..8] == Four(h.timestamp);
    assert packet[8..12] == b[8..12] == Four(h.ssrc);
    TwoIs(h.sequence);
    FourIs(h.timestamp);
    FourIs(h.ssrc);
  }

  lemma SliceOfSlice(packet: seq<byte>, i: nat, n: nat, a: nat, b: nat)
    requires i + n <= |packet| && a <= b <= n
    ensures packet[i..i + n][a..b] == packet[i + a..i + b]
  {
    var slice := packet[i..i + n];
    forall k | 0 <= k < b - a
      ensures slice[a..b][k] == packet[i + a..i + b][k]
    {
      assert slice[a..b][k] == slice[a + k];
    }
  }

  lemma ExtensionSays(h: Header, packet: seq<byte>, i: nat)
    requires Fits(h) && h.extension.Some? && i + |Extending(h)| <= |packet| && packet[i..i + |Extending(h)|] == Extending(h)
    ensures var x := h.extension.value;
            && |Extending(h)| == 4 + 4 * x.words
            && FromBytes(packet[i..i + 2]) == x.profile && FromBytes(packet[i + 2..i + 4]) == x.words
            && packet[i + 4..i + 4 + 4 * x.words] == x.data
  {
    var x, b := h.extension.value, Extending(h);
    assert b[0..2] == Two(x.profile) && b[2..4] == Two(x.words) && b[4..4 + 4 * x.words] == x.data;
    SliceOfSlice(packet, i, |b|, 0, 2);
    SliceOfSlice(packet, i, |b|, 2, 4);
    SliceOfSlice(packet, i, |b|, 4, 4 + 4 * x.words);
    TwoIs(x.profile);
    TwoIs(x.words);
  }

  /**
   A packet laid out with any flags, sources and extension is parsed into exactly its fields; if it is flagged as
   padded, what follows the header ends in the number of bytes to leave out, and has to hold that many.
   */
  lemma ParsesLayout(h: Header, rest: seq<byte>, accepts: set<nat>)
    requires Fits(h)
    ensures Parse(Head(h) + rest, accepts)
            == if h.payloadType !in accepts then Err(BadPayloadType)
               else if !h.padded then Ok(Received(h, rest))
               else if rest == [] then Err(EmptyPadding)
               else if rest[|rest| - 1] == 0 || rest[|rest| - 1] > |rest| then Err(BadPadding)
               else Ok(Received(h, rest[..|rest| - rest[|rest| - 1]]))
  {
    var packet, i := Head(h) + rest, 12 + 4 * |h.sources|;
    PartsOf(h, rest);
    FixedSays(h, packet);
    SourcesOfJoined(packet, 12, h.sources);
    if h.extension.Some? {
      ExtensionSays(h, packet, i);
    } else {
      assert Extending(h) == [];
    }
    hide *;
    ParseOf(h, packet, i, i + |Extending(h)|, accepts);
    UnpadOf(rest, h.padded);
  }

  lemma UnpadOf(rest: seq<byte>, padded: bool)
    ensures Unpad(rest, padded)
            == if !padded then Ok(rest)
               else if rest == [] then Err(EmptyPadding)
               else if rest[|rest| - 1] == 0 || rest[|rest| - 1] > |rest| then Err(BadPadding)
               else Ok(rest[..|rest| - rest[|rest| - 1]])
  {
  }

  /** The parser's way through a packet of known parts. */
  lemma ParseOf(h: Header, packet: seq<byte>, i: nat, start: nat, accepts: set<nat>)
    requires |packet| >= 12 && i == 12 + 4 * |h.sources| <= start <= |packet|
    requires packet[0] / 64 == 2 && (packet[0] / 32 % 2 == 1 <==> h.padded) && (packet[0] / 16 % 2 == 1 <==> h.extension.Some?)
    requires packet[0] % 16 == |h.sources| && (packet[1] / 128 == 1 <==> h.marker) && packet[1] % 128 == h.payloadType
    requires FromBytes(packet[2..4]) == h.sequence && FromBytes(packet[4..8]) == h.timestamp && FromBytes(packet[8..12]) == h.ssrc
    requires Sources(packet, 12, |h.sources|) == h.sources
    requires match h.extension
             case None => start == i
             case Some(x) => start == i + 4 + 4 * x.words && FromBytes(packet[i..i + 2]) == x.profile
                             && FromBytes(packet[i + 2..i + 4]) == x.words && packet[i + 4..start] == x.data
    ensures Parse(packet, accepts)
            == if h.payloadType !in accepts then Err(BadPayloadType)
               else
                 match Unpad(packet[start..], h.padded)
                 case Err(e) => Err(e)
                 case Ok(payload) => Ok(Received(h, payload))
  {
    hide FromBytes, Sources, Unpad;
    assert packet[i..i] == [];
  }

  /** A payload and 1 to 255 bytes of padding that end in their number: the payload is received. */
  lemma PaddedRoundTrip(h: Header, payload: seq<byte>, padding: seq<byte>, accepts: set<nat>)
    requires Fits(h) && h.padded && h.payloadType in accepts
    requires 1 <= |padding| <= 255 && padding[|padding| - 1] == |padding|
    ensures Parse(Head(h) + payload + padding, accepts) == Ok(Received(h, payload))
  {
    var rest := payload + padding;
    assert Head(h) + payload + padding == Head(h) + rest;
    assert rest[..|rest| - |padding|] == payload;
    hide Head, Parse;
    ParsesLayout(h, rest, accepts);
  }

  lemma SliceOfPrefix(packet: seq<byte>, n: nat, a: nat, b: nat)
    requires n <= |packet| && a <= b
    ensures b <= n ==> packet[..n][a..b] == packet[a..b]
  {
  }

  /** A packet that ends before its payload begins: what it lacks is what is reported. */
  lemma CutShort(h: Header, n: nat, accepts: set<nat>)
    requires Fits(h) && n < |Head(h)|
    ensures Parse(Head(h)[..n], accepts)
            == Err(if n < 12 then TooShort
                   else if h.payloadType !in accepts then BadPayloadType
                   else if n < 12 + 4 * |h.sources| then TruncatedCsrc
                   else TruncatedExtension)
  {
    var packet := Head(h)[..n];
    if n < 12 {
      TooShortIs(packet, accepts);
    } else {
      PrefixSays(h, n);
      PrefixIsShort(h, n);
      hide *;
      CutAfterFixed(h, packet, accepts);
    }
  }

  /** The part of the header that is there says what the whole says. */
  lemma PrefixSays(h: Header, n: nat)
    requires Fits(h) && 12 <= n < |Head(h)|
    ensures var packet := Head(h)[..n];
            && packet[0] / 64 == 2 && packet[0] % 16 == |h.sources| && packet[1] % 128 == h.payloadType
            && (packet[0] / 16 % 2 == 1 <==> h.extension.Some?)
  {
    var all, packet := Head(h), Head(h)[..n];
    PartsOf(h, []);
    assert all + [] == all;
    hide Head, Fixed, FromBytes;
    assert packet[..12] == all[..12];
    FixedSays(h, packet);
  }

  lemma HeadParts(h: Header)
    requires Fits(h)
    ensures var head, i := Head(h), 12 + 4 * |h.sources|;
            && |head| == i + |Extending(h)| && head[i..i + |Extending(h)|] == Extending(h)
            && (h.extension.None? ==> |Extending(h)| == 0)
  {
    PartsOf(h, []);
    hide Fixed, Joined;
    assert Head(h) + [] == Head(h);
  }

  lemma PrefixIsShort(h: Header, n: nat)
    requires Fits(h) && n < |Head(h)|
    ensures var packet, i := Head(h)[..n], 12 + 4 * |h.sources|;
            n < i || (h.extension.Some? && (n < i + 4 || n < i + 4 + 4 * FromBytes(packet[i + 2..i + 4])))
  {
    var all, i := Head(h), 12 + 4 * |h.sources|;
    HeadParts(h);
    hide *;
    if h.extension.Some? {
      ExtensionSays(h, all, i);
    }
    SliceOfPrefix(all, n, i + 2, i + 4);
  }

  lemma TooShortIs(packet: seq<byte>, accepts: set<nat>)
    requires |packet| < 12
    ensures Parse(packet, accepts) == Err(TooShort)
  {
  }

  lemma CutAfterFixed(h: Header, packet: seq<byte>, accepts: set<nat>)
    requires |packet| >= 12 && packet[0] / 64 == 2 && packet[0] % 16 == |h.sources| && packet[1] % 128 == h.payloadType
    requires packet[0] / 16 % 2 == 1 <==> h.extension.Some?
    requires var i := 12 + 4 * |h.sources|;
             |packet| < i || (h.extension.Some? && (|packet| < i + 4 || |packet| < i + 4 + 4 * FromBytes(packet[i + 2..i + 4])))
    ensures Parse(packet, accepts)
            == Err(if h.payloadType !in accepts then BadPayloadType
                   else if |packet| < 12 + 4 * |h.sources| then TruncatedCsrc
                   else TruncatedExtension)
  {
    hide FromBytes, Sources, Unpad;
  }

  /** What is sent is such a packet, with no sources, extension or padding. */
  lemma BuiltIsLaidOut(payloadType: int, payload: seq<byte>, marker: bool, timestamp: nat, sequence: nat, ssrc: nat)
    ensures Build(payloadType, payload, marker, timestamp, sequence, ssrc)
            == if 0 <= payloadType <= 127 then
                 Ok(Head(Header(false, marker, payloadType, sequence % 0x1_0000, timestamp % 0x1_0000_0000, ssrc % 0x1_0000_0000, [], None)) + payload)
               else Err(BadPayloadType)
  {
    if 0 <= payloadType <= 127 {
      var h := Header(false, marker, payloadType, sequence % 0x1_0000, timestamp % 0x1_0000_0000, ssrc % 0x1_0000_0000, [], None);
      ToTwo(h.sequence);
      ToFour(h.timestamp);
      ToFour(h.ssrc);
      assert Head(h) == Fixed(h);
      hide ToBytes, Two, Four;
    }
  }

  lemma ToTwo(n: nat)
    requires n < 0x1_0000
    ensures ToBytes(n, 2) == Two(n)
  {
    assert ToBytes(n / 256, 1) == ToBytes(n / 256 / 256, 0) + [n / 256 % 256];
  }

  lemma ToFour(n: nat)
    requires n < 0x1_0000_0000
    ensures ToBytes(n, 4) == Four(n)
  {
    assert n / 256 / 256 == n / 0x1_0000 && n / 0x1_0000 / 256 == n / 0x100_0000;
    assert ToBytes(n / 0x100_0000, 1) == [] + [n / 0x100_0000 % 256];
    assert ToBytes(n / 0x1_0000, 2) == ToBytes(n / 0x100_0000, 1) + [n / 0x1_0000 % 256];
    assert ToBytes(n / 256, 3) == ToBytes(n / 0x1_0000, 2) + [n / 256 % 256];
  }

  // ------------------------------------------------------------------ nothing else

  lemma TwoOf(b: seq<byte>)
    requires |b| == 2
    ensures FromBytes(b) < 0x1_0000 && Two(FromBytes(b)) == b
  {
    NumberOfTwo(b);
  }

  lemma Digit(n: nat, q: nat, r: nat)
    requires n == 256 * q + r && r < 256
    ensures n / 256 == q && n % 256 == r
  {
  }

  lemma FourOf(b: seq<byte>)
    requires |b| == 4
    ensures FromBytes(b) < 0x1_0000_0000 && Four(FromBytes(b)) == b
  {
    NumberOfFour(b);
    var n := FromBytes(b);
    hide FromBytes;
    var third := 0x1_0000 * (b[0] as int) + 256 * (b[1] as int) + b[2];
    var second := 256 * (b[0] as int) + b[1];
    Digit(n, third, b[3]);
    Digit(third, second, b[2]);
    Digit(second, b[0], b[1]);
    assert n / 0x1_0000 == n / 256 / 256 && n / 0x100_0000 == n / 256 / 256 / 256;
  }

  lemma SplitAt(packet: seq<byte>, i: nat, j: nat, end: nat)
    requires i <= j <= end <= |packet|
    ensures packet[i..end] == packet[i..j] + packet[j..end]
  {
  }

  lemma JoinedMore(first: seq<byte>, rest: seq<seq<byte>>)
    ensures Joined([first] + rest) == first + Joined(rest)
  {
    assert ([first] + rest)[1..] == rest;
  }

  lemma {:induction false} SourcesAreFour(packet: seq<byte>, i: nat, count: nat)
    requires i + 4 * count <= |packet|
    ensures |Sources(packet, i, count)| == count && forall s :: s in Sources(packet, i, count) ==> |s| == 4
    decreases count
  {
    if count > 0 {
      SourcesAreFour(packet, i + 4, count - 1);
    }
  }

  lemma {:induction false} JoinedOfSources(packet: seq<byte>, i: nat, count: nat, end: nat)
    requires i + 4 * count == end <= |packet|
    ensures Joined(Sources(packet, i, count)) == packet[i..end]
    decreases count
  {
    if count > 0 {
      hide Joined;
      var first, rest := packet[i..i + 4], Sources(packet, i + 4, count - 1);
      JoinedOfSources(packet, i + 4, count - 1, end);
      assert Sources(packet, i, count) == [first] + rest;
      hide Sources;
      JoinedMore(first, rest);
      SplitAt(packet, i, i + 4, end);
    }
  }

  /** The header that a packet's bytes spell. */
  function Spelled(packet: seq<byte>, m: Message): Header {
    Header(m.padding, m.marker, m.payloadType, m.sequence, m.timestamp, m.ssrc, m.csrc,
           if m.profile.Some? then Some(Extension(m.profile.value, |m.extensionPayload| / 4, m.extensionPayload)) else None)
  }

  /** What the parser has looked at. */
  lemma Accepted(packet: seq<byte>, accepts: set<nat>)
    requires Parse(packet, accepts).Ok?
    ensures |packet| >= 12 && packet[0] / 64 == 2 && 12 + 4 * (packet[0] % 16) <= |packet|
    ensures var m := Parse(packet, accepts).value;
            && m.padding == (packet[0] / 32 % 2 == 1) && m.extension == (packet[0] / 16 % 2 == 1) && m.extension == m.profile.Some?
            && m.marker == (packet[1] / 128 == 1) && m.payloadType == packet[1] % 128
            && m.sequence == FromBytes(packet[2..4]) && m.timestamp == FromBytes(packet[4..8]) && m.ssrc == FromBytes(packet[8..12])
            && m.csrc == Sources(packet, 12, packet[0] % 16)
  {
    hide FromBytes, Sources, Unpad;
  }

  lemma AcceptedRest(packet: seq<byte>, accepts: set<nat>, i: nat)
    requires Parse(packet, accepts).Ok? && |packet| >= 12 && i == 12 + 4 * (packet[0] % 16) <= |packet|
    ensures var m := Parse(packet, accepts).value;
            if m.extension then
              && i + 4 <= |packet| && i + 4 + 4 * FromBytes(packet[i + 2..i + 4]) <= |packet|
              && m.profile == Some(FromBytes(packet[i..i + 2]))
              && m.extensionPayload == packet[i + 4..i + 4 + 4 * FromBytes(packet[i + 2..i + 4])]
              && Unpad(packet[i + 4 + 4 * FromBytes(packet[i + 2..i + 4])..], m.padding) == Ok(m.payload)
            else Unpad(packet[i..], m.padding) == Ok(m.payload)
  {
    hide FromBytes, Sources, Unpad;
  }

  lemma SpelledFixed(packet: seq<byte>, m: Message)
    requires |packet| >= 12 && packet[0] / 64 == 2 && |m.csrc| == packet[0] % 16 && (forall s :: s in m.csrc ==> |s| == 4)
    requires m.padding == (packet[0] / 32 % 2 == 1) && (packet[0] / 16 % 2 == 1) == m.profile.Some?
    requires m.marker == (packet[1] / 128 == 1) && m.payloadType == packet[1] % 128
    requires m.sequence == FromBytes(packet[2..4]) && m.timestamp == FromBytes(packet[4..8]) && m.ssrc == FromBytes(packet[8..12])
    requires m.profile.Some? ==> m.profile.value < 0x1_0000 && |m.extensionPayload| % 4 == 0 && |m.extensionPayload| / 4 < 0x1_0000
    ensures Fits(Spelled(packet, m)) && Fixed(Spelled(packet, m)) == packet[..12]
  {
    TwoOf(packet[2..4]);
    FourOf(packet[4..8]);
    FourOf(packet[8..12]);
    assert packet[..12] == packet[..1] + packet[1..2] + packet[2..4] + packet[4..8] + packet[8..12];
    hide Two, Four, FromBytes;
  }

  lemma Unpadded(rest: seq<byte>, padded: bool) returns (padding: seq<byte>)
    requires Unpad(rest, padded).Ok?
    ensures rest == Unpad(rest, padded).value + padding
    ensures if padded then 1 <= |padding| <= 255 && padding[|padding| - 1] == |padding| else padding == []
  {
    padding := rest[|Unpad(rest, padded).value|..];
  }

  /** What the parser accepts is such a packet, and what it returns are its fields. */
  lemma AcceptedIsLaidOut(packet: seq<byte>, accepts: set<nat>) returns (h: Header, padding: seq<byte>)
    requires Parse(packet, accepts).Ok?
    ensures var m := Parse(packet, accepts).value;
            && Fits(h) && h.payloadType in accepts && m == Received(h, m.payload)
            && packet == Head(h) + m.payload + padding
            && if h.padded then 1 <= |padding| <= 255 && padding[|padding| - 1] == |padding| else padding == []
  {
    hide *;
    var m := Parse(packet, accepts).value;
    h := Spelled(packet, m);
    TypeAccepted(packet, accepts);
    ReceivedIs(packet, m);
    var i, j := AcceptedParts(packet, accepts);
    padding := Unpadded(packet[j..], m.padding);
    HeadIs(h, packet, i, j, m.payload, padding);
  }

  /** Where its parts lie. */
  lemma AcceptedParts(packet: seq<byte>, accepts: set<nat>) returns (i: nat, j: nat)
    requires Parse(packet, accepts).Ok?
    ensures var m := Parse(packet, accepts).value;
            var h := Spelled(packet, m);
            && Fits(h) && 12 <= i <= j <= |packet|
            && Fixed(h) == packet[..12] && Joined(h.sources) == packet[12..i] && Extending(h) == packet[i..j]
            && Unpad(packet[j..], m.padding) == Ok(m.payload)
  {
    hide *;
    var m := Parse(packet, accepts).value;
    Accepted(packet, accepts);
    i := 12 + 4 * (packet[0] % 16);
    AcceptedRest(packet, accepts, i);
    ReceivedIf(packet, accepts);
    SourcesAreFour(packet, 12, packet[0] % 16);
    JoinedOfSources(packet, 12, packet[0] % 16, i);
    j := SpelledExtending(packet, m, i);
    SpelledFixed(packet, m);
  }

  lemma ReceivedIf(packet: seq<byte>, accepts: set<nat>)
    requires Parse(packet, accepts).Ok?
    ensures var m := Parse(packet, accepts).value;
            Spelled(packet, m).sources == m.csrc && Spelled(packet, m).payloadType == m.payloadType
  {
    hide Parse;
  }

  lemma TypeAccepted(packet: seq<byte>, accepts: set<nat>)
    requires Parse(packet, accepts).Ok?
    ensures Parse(packet, accepts).value.payloadType in accepts
    ensures var m := Parse(packet, accepts).value;
            m.extension == m.profile.Some? && (!m.extension ==> m.extensionPayload == [])
  {
    hide FromBytes, Sources, Unpad;
  }

  lemma HeadIs(h: Header, packet: seq<byte>, i: nat, j: nat, payload: seq<byte>, padding: seq<byte>)
    requires Fits(h) && 12 <= i <= j <= |packet| && Fixed(h) == packet[..12] && Joined(h.sources) == packet[12..i] && Extending(h) == packet[i..j]
    requires packet[j..] == payload + padding
    ensures packet == Head(h) + payload + padding
  {
    hide Fixed, Joined, Extending;
    assert packet == packet[..12] + packet[12..i] + packet[i..j] + packet[j..];
    assert Head(h) + payload + padding == Head(h) + (payload + padding);
  }

  lemma ReceivedIs(packet: seq<byte>, m: Message)
    requires m.extension == m.profile.Some? && (!m.extension ==> m.extensionPayload == [])
    ensures m == Received(Spelled(packet, m), m.payload) && Spelled(packet, m).padded == m.padding
    ensures Spelled(packet, m).sources == m.csrc && Spelled(packet, m).payloadType == m.payloadType
  {
  }

  lemma SpelledExtending(packet: seq<byte>, m: Message, i: nat) returns (j: nat)
    requires i <= |packet| && m.extension == m.profile.Some?
    requires if m.extension then
               && i + 4 <= |packet| && i + 4 + 4 * FromBytes(packet[i + 2..i + 4]) <= |packet|
               && m.profile.value == FromBytes(packet[i..i + 2])
               && m.extensionPayload == packet[i + 4..i + 4 + 4 * FromBytes(packet[i + 2..i + 4])]
               && Unpad(packet[i + 4 + 4 * FromBytes(packet[i + 2..i + 4])..], m.padding) == Ok(m.payload)
             else Unpad(packet[i..], m.padding) == Ok(m.payload)
    ensures m.profile.Some? ==> m.profile.value < 0x1_0000 && |m.extensionPayload| % 4 == 0 && |m.extensionPayload| / 4 < 0x1_0000
    ensures i <= j <= |packet| && (Fits(Spelled(packet, m)) ==> Extending(Spelled(packet, m)) == packet[i..j])
    ensures Unpad(packet[j..], m.padding) == Ok(m.payload)
  {
    hide FromBytes, Unpad, Two, Extending, Fits;
    j := i;
    if m.extension {
      TwoOf(packet[i + 2..i + 4]);
      j := i + 4 + 4 * FromBytes(packet[i + 2..i + 4]);
      WordsSpelled(packet, m, i, j);
    } else {
      NothingSpelled(packet, m, i);
    }
  }

  lemma NothingSpelled(packet: seq<byte>, m: Message, i: nat)
    requires i <= |packet| && !m.extension && m.profile.None?
    ensures Fits(Spelled(packet, m)) ==> Extending(Spelled(packet, m)) == packet[i..i]
  {
  }

  lemma WordsSpelled(packet: seq<byte>, m: Message, i: nat, j: nat)
    requires i + 4 <= j <= |packet| && m.extension && m.profile.Some? && j == i + 4 + 4 * FromBytes(packet[i + 2..i + 4])
    requires m.profile.value == FromBytes(packet[i..i + 2]) && m.extensionPayload == packet[i + 4..j]
    ensures m.profile.value < 0x1_0000 && |m.extensionPayload| == 4 * FromBytes(packet[i + 2..i + 4])
    ensures FromBytes(packet[i + 2..i + 4]) < 0x1_0000
    ensures Fits(Spelled(packet, m)) ==> Extending(Spelled(packet, m)) == packet[i..j]
  {
    hide FromBytes, Two, Fits;
    TwoOf(packet[i..i + 2]);
    TwoOf(packet[i + 2..i + 4]);
    SplitAt(packet, i, i + 4, j);
    SplitAt(packet, i, i + 2, i + 4);
  }
}
