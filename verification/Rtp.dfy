/** RTP packets on the wire: section 5.1 of RFC 3550. */
module Rtp {
  import opened Bytes

  datatype Result<+T, +E> = Ok(value: T) | Err(error: E)

  datatype Error = TooShort | BadVersion | BadPayloadType | TruncatedCsrc | TruncatedExtension | EmptyPadding | BadPadding

  datatype Message = Message(
    padding: bool, extension: bool, marker: bool, payloadType: nat, sequence: nat, timestamp: nat, ssrc: nat,
    csrc: seq<seq<byte>>, profile: Option<nat>, extensionPayload: seq<byte>, payload: seq<byte>)

  // ------------------------------------------------------------------ numbers

  /** int.from_bytes(..., "big") */
  function FromBytes(b: seq<byte>): nat {
    if b == [] then 0 else FromBytes(b[..|b| - 1]) * 256 + b[|b| - 1]
  }

  /** int.to_bytes(width, "big") */
  function ToBytes(n: nat, width: nat): (b: seq<byte>)
    ensures |b| == width
  {
    if width == 0 then [] else ToBytes(n / 256, width - 1) + [n % 256]
  }

  function Power256(width: nat): nat {
    if width == 0 then 1 else 256 * Power256(width - 1)
  }

  lemma {:induction false} BytesRoundTrip(n: nat, width: nat)
    requires n < Power256(width)
    ensures FromBytes(ToBytes(n, width)) == n
  {
    if width > 0 {
      BytesRoundTrip(n / 256, width - 1);
      assert ToBytes(n, width)[..width - 1] == ToBytes(n / 256, width - 1);
    }
  }

  lemma SmallPowers()
    ensures Power256(1) == 0x100 && Power256(2) == 0x1_0000 && Power256(4) == 0x1_0000_0000
  {
    assert Power256(3) == 0x100_0000;
  }

  // ------------------------------------------------------------------ sending

  /** `_build_rtp_packet`: version 2, no padding, extension or contributing sources. */
  function Build(payloadType: int, payload: seq<byte>, marker: bool, timestamp: nat, sequence: nat, ssrc: nat): Result<seq<byte>, Error> {
    if payloadType < 0 || payloadType > 127 then Err(BadPayloadType)
    else
      Ok([0x80] + [(if marker then 0x80 else 0) + payloadType]
         + ToBytes(sequence % 0x1_0000, 2) + ToBytes(timestamp % 0x1_0000_0000, 4) + ToBytes(ssrc % 0x1_0000_0000, 4)
         + payload)
  }

  // ------------------------------------------------------------------ receiving

  /** The contributing sources from byte `i` on. */
  function Sources(packet: seq<byte>, i: nat, count: nat): seq<seq<byte>>
    requires i + 4 * count <= |packet|
    decreases count
  {
    if count == 0 then [] else [packet[i..i + 4]] + Sources(packet, i + 4, count - 1)
  }

  function Unpad(payload: seq<byte>, padding: bool): Result<seq<byte>, Error> {
    if !padding then Ok(payload)
    else if payload == [] then Err(EmptyPadding)
    else
      var n := payload[|payload| - 1];
      if n == 0 || n > |payload| then Err(BadPadding) else Ok(payload[..|payload| - n])
  }

  /** `RTPMessage.parse`; `accepts` are the payload types negotiated or static. */
  function Parse(packet: seq<byte>, accepts: set<nat>): Result<Message, Error> {
    if |packet| < 12 then Err(TooShort)
    else if packet[0] / 64 != 2 then Err(BadVersion)
    else
      var padding, extension, count := packet[0] / 32 % 2 == 1, packet[0] / 16 % 2 == 1, packet[0] % 16;
      var marker, payloadType := packet[1] / 128 == 1, packet[1] % 128;
      if payloadType !in accepts then Err(BadPayloadType)
      else if |packet| < 12 + 4 * count then Err(TruncatedCsrc)
      else
        var i := 12 + 4 * count;
        if extension && |packet| < i + 4 then Err(TruncatedExtension)
        else
          var length := if extension then 4 * FromBytes(packet[i + 2..i + 4]) else 0;
          var start := if extension then i + 4 else i;
          if |packet| < start + length then Err(TruncatedExtension)
          else
            match Unpad(packet[start + length..], padding)
            case Err(e) => Err(e)
            case Ok(payload) =>
              Ok(Message(padding, extension, marker, payloadType,
                         FromBytes(packet[2..4]), FromBytes(packet[4..8]), FromBytes(packet[8..12]),
                         Sources(packet, 12, count),
                         if extension then Some(FromBytes(packet[i..i + 2])) else None,
                         packet[start..start + length], payload))
  }

  /** What is sent is what is received. */
  lemma WireRoundTrip(payloadType: nat, payload: seq<byte>, marker: bool, timestamp: nat, sequence: nat, ssrc: nat, accepts: set<nat>)
    requires payloadType <= 127 && payloadType in accepts
    ensures var packet := Build(payloadType, payload, marker, timestamp, sequence, ssrc);
            && packet.Ok?
            && Parse(packet.value, accepts)
               == Ok(Message(false, false, marker, payloadType, sequence % 0x1_0000, timestamp % 0x1_0000_0000,
                             ssrc % 0x1_0000_0000, [], None, [], payload))
  {
    var packet := Build(payloadType, payload, marker, timestamp, sequence, ssrc).value;
    SmallPowers();
    BytesRoundTrip(sequence % 0x1_0000, 2);
    BytesRoundTrip(timestamp % 0x1_0000_0000, 4);
    BytesRoundTrip(ssrc % 0x1_0000_0000, 4);
    hide FromBytes, ToBytes, Power256;
    assert packet[2..4] == ToBytes(sequence % 0x1_0000, 2);
    assert packet[4..8] == ToBytes(timestamp % 0x1_0000_0000, 4);
    assert packet[8..12] == ToBytes(ssrc % 0x1_0000_0000, 4);
    assert packet[12..12] == [] && packet[12..] == payload;
    assert packet[0] == 0x80 && packet[1] == (if marker then 0x80 else 0) + payloadType;
    assert packet[1] / 128 == (if marker then 1 else 0) && packet[1] % 128 == payloadType;
    assert Sources(packet, 12, 0) == [];
  }

  /** The loop over the contributing sources. */
  method ReadSources(packet: seq<byte>, count: nat) returns (csrc: seq<seq<byte>>)
    requires 12 + 4 * count <= |packet|
    ensures csrc == Sources(packet, 12, count)
  {
    csrc := [];
    var i := 12;
    for x := 0 to count
      invariant i == 12 + 4 * x
      invariant csrc + Sources(packet, i, count - x) == Sources(packet, 12, count)
    {
      csrc := csrc + [packet[i..i + 4]];
      i := i + 4;
    }
  }

  /** The parser as the program runs it: an index that moves through the packet. */
  method ParseMessage(packet: seq<byte>, accepts: set<nat>) returns (r: Result<Message, Error>)
    ensures r == Parse(packet, accepts)
  {
    hide FromBytes, Unpad;
    if |packet| < 12 {
      return Err(TooShort);
    }
    if packet[0] / 64 != 2 {
      return Err(BadVersion);
    }
    var padding, extension, count := packet[0] / 32 % 2 == 1, packet[0] / 16 % 2 == 1, packet[0] % 16;
    var marker, payloadType := packet[1] / 128 == 1, packet[1] % 128;
    if payloadType !in accepts {
      return Err(BadPayloadType);
    }
    var i := 12;
    if |packet| < i + 4 * count {
      return Err(TruncatedCsrc);
    }
    var csrc := ReadSources(packet, count);
    i := i + 4 * count;
    hide Sources;
    var profile, extensionPayload := None, [];
    assert packet[i..i] == [];
    if extension {
      if |packet| < i + 4 {
        return Err(TruncatedExtension);
      }
      profile := Some(FromBytes(packet[i..i + 2]));
      var length := FromBytes(packet[i + 2..i + 4]) * 4;
      i := i + 4;
      if |packet| < i + length {
        return Err(TruncatedExtension);
      }
      extensionPayload := packet[i..i + length];
      i := i + length;
    }
    var unpadded := Unpad(packet[i..], padding);
    if unpadded.Err? {
      return Err(unpadded.error);
    }
    var payload := unpadded.value;
    r := Ok(Message(padding, extension, marker, payloadType,
                    FromBytes(packet[2..4]), FromBytes(packet[4..8]), FromBytes(packet[8..12]),
                    csrc, profile, extensionPayload, payload));
  }
}
