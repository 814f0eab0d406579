/**
 SIP messages on a byte stream (TCP or TLS): a message is its header block, an empty line, and as many bytes of
 body as its Content-Length says (sections 7.5 and 18.3 of RFC 3261); CRLF pairs between messages are keepalives.
 */
module StreamFraming {
  import opened Bytes

  type Text = seq<byte>

  const CR: byte := 13
  const LF: byte := 10
  const SP: byte := 32
  const HT: byte := 9
  const COLON: byte := 58
  const CRLF: Text := [CR, LF]

  /** "content-length" */
  const LONG_NAME: Text := [99, 111, 110, 116, 101, 110, 116, 45, 108, 101, 110, 103, 116, 104]

  /** "l" */
  const SHORT_NAME: Text := [108]

  datatype FramingError = EmptyStartLine | StartsFolded | NoColon | EmptyName | InvalidLength | NoLength | ConflictingLengths

  datatype Outcome<+T> = Ok(value: T) | Err(error: FramingError)

  // ------------------------------------------------------------------ text

  predicate Blank(b: byte) {
    9 <= b <= 13 || 28 <= b <= 32
  }

  function LeftStrip(t: Text): Text {
    if t != [] && Blank(t[0]) then LeftStrip(t[1..]) else t
  }

  function RightStrip(t: Text): Text {
    if t != [] && Blank(t[|t| - 1]) then RightStrip(t[..|t| - 1]) else t
  }

  function Strip(t: Text): Text {
    RightStrip(LeftStrip(t))
  }

  function LowerByte(b: byte): byte {
    if 65 <= b <= 90 then b + 32 else b
  }

  function Lower(t: Text): (r: Text)
    ensures |r| == |t|
  {
    seq(|t|, i requires 0 <= i < |t| => LowerByte(t[i]))
  }

  predicate Digits(t: Text) {
    t != [] && forall i :: 0 <= i < |t| ==> 48 <= t[i] <= 57
  }

  function Number(t: Text): nat
    requires forall i :: 0 <= i < |t| ==> 48 <= t[i] <= 57
  {
    if t == [] then 0 else Number(t[..|t| - 1]) * 10 + (t[|t| - 1] - 48)
  }

  predicate At(t: Text, what: Text, i: nat) {
    i + |what| <= |t| && t[i..i + |what|] == what
  }

  /** The first place of `what` in `t`, from `i` on. */
  function FindFrom(t: Text, what: Text, i: nat): (r: Option<nat>)
    ensures r.Some? ==> i <= r.value && At(t, what, r.value)
    decreases |t| - i
  {
    if i + |what| > |t| then None
    else if At(t, what, i) then Some(i)
    else if i == |t| then None
    else FindFrom(t, what, i + 1)
  }

  function Find(t: Text, what: Text): (r: Option<nat>)
    ensures r.Some? ==> At(t, what, r.value)
  {
    FindFrom(t, what, 0)
  }

  /** str.split("\r\n") */
  function SplitLines(t: Text): (lines: seq<Text>)
    ensures lines != []
    decreases |t|
  {
    match Find(t, CRLF)
    case None => [t]
    case Some(i) => [t[..i]] + SplitLines(t[i + 2..])
  }

  // ------------------------------------------------------------------ one message

  predicate Continues(line: Text) {
    line != [] && (line[0] == SP || line[0] == HT)
  }

  /** A header line, or a continuation of the one before it; None when there is none. */
  function Joined(unfolded: seq<Text>, line: Text): (r: Option<seq<Text>>)
    ensures r.Some? ==> r.value != []
  {
    if !Continues(line) then Some(unfolded + [line])
    else if unfolded == [] then None
    else
      var n := |unfolded| - 1;
      Some(unfolded[n := unfolded[n] + [SP] + LeftStrip(line)])
  }

  /** Header lines with their continuations joined on; None when the first is a continuation. */
  function Unfold(lines: seq<Text>): (r: Option<seq<Text>>)
    ensures lines != [] && r.Some? ==> r.value != []
  {
    if lines == [] then Some([])
    else
      match Unfold(lines[..|lines| - 1])
      case None => None
      case Some(u) => Joined(u, lines[|lines| - 1])
  }

  /** What one header line says of the length: nothing, a number, or an error. */
  function LengthIn(line: Text): Outcome<Option<nat>> {
    if line == [] then Ok(None)
    else
      match Find(line, [COLON])
      case None => Err(NoColon)
      case Some(i) =>
        var name, value := Strip(line[..i]), Strip(line[i + 1..]);
        if name == [] then Err(EmptyName)
        else if Lower(name) != LONG_NAME && Lower(name) != SHORT_NAME then Ok(None)
        else if !Digits(value) then Err(InvalidLength)
        else Ok(Some(Number(value)))
  }

  /** All the lengths given, or the first error. */
  function LengthsIn(lines: seq<Text>): Outcome<seq<nat>> {
    if lines == [] then Ok([])
    else
      match LengthsIn(lines[..|lines| - 1])
      case Err(e) => Err(e)
      case Ok(before) =>
        match LengthIn(lines[|lines| - 1])
        case Err(e) => Err(e)
        case Ok(None) => Ok(before)
        case Ok(Some(n)) => Ok(before + [n])
  }

  function AgreedLength(lengths: seq<nat>): Outcome<nat> {
    if lengths == [] then Err(NoLength)
    else if exists i :: 0 <= i < |lengths| && lengths[i] != lengths[0] then Err(ConflictingLengths)
    else Ok(lengths[0])
  }

  /** The body length that a header block asks for. */
  function BodyLength(head: Text): Outcome<nat> {
    var lines := SplitLines(head);
    if Strip(lines[0]) == [] then Err(EmptyStartLine)
    else
      match Unfold(lines[1..])
      case None => Err(StartsFolded)
      case Some(unfolded) =>
        match LengthsIn(unfolded)
        case Err(e) => Err(e)
        case Ok(lengths) => AgreedLength(lengths)
  }

  /** `_stream_message_length`: how long the message at the start of the buffer is; None while its header is incomplete. */
  function MessageLength(buffer: Text): (r: Outcome<Option<nat>>)
    ensures r.Ok? && r.value.Some? ==> r.value.value >= 4
  {
    match Find(buffer, CRLF + CRLF)
    case None => Ok(None)
    case Some(end) =>
      match BodyLength(buffer[..end])
      case Err(e) => Err(e)
      case Ok(n) => Ok(Some(end + 4 + n))
  }

  // ------------------------------------------------------------------ the stream

  function WithoutKeepalives(b: Text): (r: Text)
    ensures |r| <= |b| && !At(r, CRLF, 0)
  {
    if At(b, CRLF, 0) then WithoutKeepalives(b[2..]) else b
  }

  /** What a stream begins with. */
  datatype Frame = More | Framed(message: Text, rest: Text) | Bad(error: FramingError)

  function Next(stream: Text): (f: Frame)
    ensures f.Framed? ==> |f.rest| < |stream|
  {
    var b := WithoutKeepalives(stream);
    match MessageLength(b)
    case Err(e) => Bad(e)
    case Ok(None) => More
    case Ok(Some(n)) => if |b| < n then More else Framed(b[..n], b[n..])
  }

  /** Everything a stream yields: its messages, and what follows the last one. */
  datatype Yield = Yield(messages: seq<Text>, rest: Text, error: Option<FramingError>)

  function Drain(stream: Text): Yield
    decreases |stream|
  {
    match Next(stream)
    case More => Yield([], WithoutKeepalives(stream), None)
    case Bad(e) => Yield([], WithoutKeepalives(stream), Some(e))
    case Framed(m, rest) => var y := Drain(rest); y.(messages := [m] + y.messages)
  }

  function Concat(chunks: seq<Text>): Text {
    if chunks == [] then [] else chunks[0] + Concat(chunks[1..])
  }

  // ------------------------------------------------------------------ the connection

  /** What a read of the connection comes to; chunks that have not been read yet are left over. */
  datatype Received = Message(message: Text) | Closed | Broken(error: FramingError)

  class Connection {
    var buffer: Text

    constructor ()
      ensures buffer == []
    {
      buffer := [];
    }

    method DiscardKeepalives()
      modifies this
      ensures buffer == WithoutKeepalives(old(buffer))
    {
      while At(buffer, CRLF, 0)
        invariant WithoutKeepalives(buffer) == WithoutKeepalives(old(buffer))
        decreases |buffer|
      {
        buffer := buffer[2..];
      }
    }

    /** One turn of the unfolding loop. */
    static method JoinLine(unfolded: seq<Text>, line: Text) returns (r: Option<seq<Text>>)
      ensures r == Joined(unfolded, line)
    {
      if Continues(line) {
        if unfolded == [] {
          return None;
        }
        var n := |unfolded| - 1;
        return Some(unfolded[n := unfolded[n] + [SP] + LeftStrip(line)]);
      }
      return Some(unfolded + [line]);
    }

    /** The unfolding loop. */
    static method UnfoldLines(lines: seq<Text>) returns (r: Option<seq<Text>>)
      ensures r == Unfold(lines)
    {
      var unfolded: seq<Text> := [];
      for i := 0 to |lines|
        invariant Unfold(lines[..i]) == Some(unfolded)
      {
        assert lines[..i + 1][..i] == lines[..i];
        var joined := JoinLine(unfolded, lines[i]);
        if joined.None? {
          UnfoldStaysFailed(lines, i + 1);
          return None;
        }
        unfolded := joined.value;
      }
      assert lines[..|lines|] == lines;
      return Some(unfolded);
    }

    /** The loop over the header lines. */
    static method CollectLengths(lines: seq<Text>) returns (r: Outcome<seq<nat>>)
      ensures r == LengthsIn(lines)
    {
      var lengths: seq<nat> := [];
      for i := 0 to |lines|
        invariant LengthsIn(lines[..i]) == Ok(lengths)
      {
        assert lines[..i + 1][..i] == lines[..i];
        var here := LengthIn(lines[i]);
        if here.Err? {
          LengthsStayFailed(lines, i + 1);
          return Err(here.error);
        }
        if here.value.Some? {
          lengths := lengths + [here.value.value];
        }
      }
      assert lines[..|lines|] == lines;
      return Ok(lengths);
    }

    method StreamMessageLength() returns (r: Outcome<Option<nat>>)
      ensures r == MessageLength(buffer)
    {
      hide Find, Unfold, LengthsIn, SplitLines, Strip;
      var end := Find(buffer, CRLF + CRLF);
      if end.None? {
        return Ok(None);
      }
      var lines := SplitLines(buffer[..end.value]);
      if Strip(lines[0]) == [] {
        return Err(EmptyStartLine);
      }
      var unfolded := UnfoldLines(lines[1..]);
      if unfolded.None? {
        return Err(StartsFolded);
      }
      var lengths := CollectLengths(unfolded.value);
      if lengths.Err? {
        return Err(lengths.error);
      }
      if lengths.value == [] {
        return Err(NoLength);
      }
      if exists i :: 0 <= i < |lengths.value| && lengths.value[i] != lengths.value[0] {
        return Err(ConflictingLengths);
      }
      return Ok(Some(end.value + 4 + lengths.value[0]));
    }

    /** Take one whole message off the front of the buffer. */
    method PopStreamMessage() returns (f: Frame)
      modifies this
      ensures f == Next(old(buffer))
      ensures buffer == if f.Framed? then f.rest else WithoutKeepalives(old(buffer))
    {
      hide MessageLength, WithoutKeepalives;
      DiscardKeepalives();
      var needed := StreamMessageLength();
      if needed.Err? {
        return Bad(needed.error);
      }
      if needed.value.None? || |buffer| < needed.value.value {
        return More;
      }
      f := Framed(buffer[..needed.value.value], buffer[needed.value.value..]);
      buffer := buffer[needed.value.value..];
    }

    /** Read chunks until a message is whole; an empty chunk, or no more chunks, is the end of the stream. */
    method RecvStreamMessage(chunks: seq<Text>) returns (r: Received, left: seq<Text>)
      requires forall c :: c in chunks ==> c != []
      modifies this
      ensures var stream := old(buffer) + Concat(chunks);
              match Next(stream)
              case More => r == Closed && left == [] && buffer == WithoutKeepalives(stream)
              case Bad(e) => r == Broken(e) && buffer + Concat(left) == WithoutKeepalives(stream)
              case Framed(m, rest) => r == Message(m) && buffer + Concat(left) == rest
      ensures |left| <= |chunks| && left == chunks[|chunks| - |left|..]
    {
      hide Next, WithoutKeepalives;
      ghost var stream := buffer + Concat(chunks);
      left := chunks;
      ghost var had := buffer;
      var f := PopStreamMessage();
      Reading(had, buffer, f, Concat(left));
      while f.More? && left != []
        invariant |left| <= |chunks| && left == chunks[|chunks| - |left|..]
        invariant IsRead(f, buffer, Concat(left), stream)
        decreases |left|
      {
        assert (buffer + left[0]) + Concat(left[1..]) == buffer + Concat(left);
        had := buffer + left[0];
        buffer := buffer + left[0];
        left := left[1..];
        f := PopStreamMessage();
        Reading(had, buffer, f, Concat(left));
        SameStream(f, buffer, Concat(left), had + Concat(left), stream);
      }
      ReadToTheEnd(f, buffer, Concat(left), stream);
      match f
      case More => r := Closed;
      case Bad(e) => r := Broken(e);
      case Framed(m, _) => r := Message(m);
    }
  }

  lemma {:induction false} UnfoldStaysFailed(lines: seq<Text>, i: nat)
    requires i <= |lines| && Unfold(lines[..i]) == None
    ensures Unfold(lines) == None
    decreases |lines|
  {
    if i < |lines| {
      assert lines[..|lines| - 1][..i] == lines[..i];
      UnfoldStaysFailed(lines[..|lines| - 1], i);
    } else {
      assert lines[..i] == lines;
    }
  }

  lemma {:induction false} LengthsStayFailed(lines: seq<Text>, i: nat)
    requires i <= |lines| && LengthsIn(lines[..i]).Err?
    ensures LengthsIn(lines) == LengthsIn(lines[..i])
    decreases |lines|
  {
    if i < |lines| {
      assert lines[..|lines| - 1][..i] == lines[..i];
      LengthsStayFailed(lines[..|lines| - 1], i);
    } else {
      assert lines[..i] == lines;
    }
  }

  // ------------------------------------------------------------------ more bytes never change what has been framed

  lemma {:induction false} FindGrows(t: Text, more: Text, what: Text, i: nat)
    requires FindFrom(t, what, i).Some?
    ensures FindFrom(t + more, what, i) == FindFrom(t, what, i)
    decreases |t| - i
  {
    assert (t + more)[i..i + |what|] == t[i..i + |what|];
    if !At(t, what, i) && i < |t| {
      FindGrows(t, more, what, i + 1);
    }
  }

  lemma {:induction false} KeepalivesGrow(b: Text, more: Text)
    ensures WithoutKeepalives(WithoutKeepalives(b) + more) == WithoutKeepalives(b + more)
    ensures |WithoutKeepalives(b)| >= 2 ==> WithoutKeepalives(b + more) == WithoutKeepalives(b) + more
  {
    if At(b, CRLF, 0) {
      assert (b + more)[0..2] == b[0..2] && (b + more)[2..] == b[2..] + more;
      KeepalivesGrow(b[2..], more);
    } else if |b| >= 2 {
      assert (b + more)[0..2] == b[0..2];
    }
  }

  lemma {:induction false} KeepalivesGone(b: Text)
    ensures WithoutKeepalives(WithoutKeepalives(b)) == WithoutKeepalives(b)
  {
    if At(b, CRLF, 0) {
      KeepalivesGone(b[2..]);
    }
  }

  lemma LengthGrows(b: Text, more: Text)
    requires MessageLength(b) != Ok(None)
    ensures MessageLength(b + more) == MessageLength(b) && |b| >= 4
  {
    hide BodyLength;
    FindGrows(b, more, CRLF + CRLF, 0);
    var end := Find(b, CRLF + CRLF).value;
    assert (b + more)[..end] == b[..end];
  }

  /** A stream that has a message, or an error, keeps it whatever follows; if it has neither, dropping its keepalives loses nothing. */
  lemma NextGrows(b: Text, more: Text)
    ensures Next(b).Framed? ==> Next(b + more) == Framed(Next(b).message, Next(b).rest + more)
    ensures Next(b).Bad? ==> Next(b + more) == Next(b) && WithoutKeepalives(b + more) == WithoutKeepalives(b) + more
    ensures Next(WithoutKeepalives(b) + more) == Next(b + more)
  {
    hide MessageLength, WithoutKeepalives;
    KeepalivesGrow(b, more);
    var w := WithoutKeepalives(b);
    if MessageLength(w) != Ok(None) {
      LengthGrows(w, more);
      if Next(b).Framed? {
        var n := MessageLength(w).value.value;
        assert (w + more)[..n] == w[..n] && (w + more)[n..] == w[n..] + more;
      }
    }
  }

  /** Where a read stands: what it has found is what the whole stream begins with. */
  ghost predicate IsRead(f: Frame, buffer: Text, unread: Text, stream: Text) {
    match f
    case More => Next(buffer) == More && Next(buffer + unread) == Next(stream)
                 && WithoutKeepalives(buffer) == buffer && WithoutKeepalives(buffer + unread) == WithoutKeepalives(stream)
    case Bad(e) => Next(stream) == Bad(e) && buffer + unread == WithoutKeepalives(stream)
    case Framed(m, _) => Next(stream) == Framed(m, buffer + unread)
  }

  lemma Reading(had: Text, buffer: Text, f: Frame, unread: Text)
    requires f == Next(had) && buffer == if f.Framed? then f.rest else WithoutKeepalives(had)
    ensures IsRead(f, buffer, unread, had + unread)
  {
    hide Next, WithoutKeepalives;
    NextGrows(had, unread);
    NextGrows(had, []);
    KeepalivesGrow(had, unread);
    KeepalivesGone(had);
    assert had + [] == had && buffer + [] == buffer;
  }

  lemma SameStream(f: Frame, buffer: Text, unread: Text, s: Text, stream: Text)
    requires IsRead(f, buffer, unread, s) && Next(s) == Next(stream) && WithoutKeepalives(s) == WithoutKeepalives(stream)
    ensures IsRead(f, buffer, unread, stream)
  {
    hide Next, WithoutKeepalives;
  }

  lemma ReadToTheEnd(f: Frame, buffer: Text, unread: Text, stream: Text)
    requires IsRead(f, buffer, unread, stream) && (f.More? ==> unread == [])
    ensures match Next(stream)
            case More => f.More? && buffer == WithoutKeepalives(stream)
            case Bad(e) => f == Bad(e) && buffer + unread == WithoutKeepalives(stream)
            case Framed(m, rest) => f.Framed? && f.message == m && buffer + unread == rest
  {
    hide Next, WithoutKeepalives;
    assert buffer + [] == buffer;
  }
}
