/** What the framer yields over a whole stream, however the network cuts it up. */
module FramingRuns {
  import opened Bytes
  import opened StreamFraming

  // ------------------------------------------------------------------ chunks do not matter

  /** More bytes arrive after `y`; a connection whose framing broke yields nothing more. */
  function Then(y: Yield, more: Text): Yield {
    if y.error.Some? then y.(rest := y.rest + more)
    else
      var z := Drain(y.rest + more);
      z.(messages := y.messages + z.messages)
  }

  /** Chunks are taken in one at a time, and every whole message is popped before the next is read. */
  function FeedOn(y: Yield, chunks: seq<Text>): Yield
    decreases |chunks|
  {
    if chunks == [] then y else FeedOn(Then(y, chunks[0]), chunks[1..])
  }

  function Feed(chunks: seq<Text>): Yield {
    FeedOn(Yield([], [], None), chunks)
  }

  lemma {:induction false} DrainSplits(b: Text, more: Text)
    ensures Drain(b + more) == Then(Drain(b), more)
    decreases |b|
  {
    hide Next, WithoutKeepalives;
    NextGrows(b, more);
    match Next(b)
    case Framed(m, rest) =>
      DrainSplits(rest, more);
      var y, z := Drain(rest), Drain(Drain(rest).rest + more);
      assert [m] + (y.messages + z.messages) == ([m] + y.messages) + z.messages;
    case Bad(e) =>
    case More =>
      KeepalivesGrow(b, more);
      SameNext(WithoutKeepalives(b) + more, b + more);
      assert Drain(b).messages == [];
      var z := Drain(WithoutKeepalives(b) + more);
      assert [] + z.messages == z.messages;
  }

  lemma SameNext(s: Text, t: Text)
    requires Next(s) == Next(t) && WithoutKeepalives(s) == WithoutKeepalives(t)
    ensures Drain(s) == Drain(t)
  {
  }

  lemma {:induction false} FeedsOn(b: Text, chunks: seq<Text>)
    ensures FeedOn(Drain(b), chunks) == Drain(b + Concat(chunks))
    decreases |chunks|
  {
    hide Drain, Then;
    if chunks == [] {
      assert b + [] == b;
    } else {
      DrainSplits(b, chunks[0]);
      FeedsOn(b + chunks[0], chunks[1..]);
      assert (b + chunks[0]) + Concat(chunks[1..]) == b + Concat(chunks);
    }
  }

  /** However a stream is cut into chunks, it yields the same messages, the same error and the same leftover. */
  lemma ChunkingDoesNotMatter(chunks: seq<Text>)
    ensures Feed(chunks) == Drain(Concat(chunks))
  {
    NothingToFind();
    FeedsOn([], chunks);
    assert [] + Concat(chunks) == Concat(chunks);
  }

  /** Receiving until the stream ends or its framing breaks, one message a call. */
  method ReceiveAll(connection: Connection, chunks: seq<Text>) returns (messages: seq<Text>, error: Option<FramingError>, left: seq<Text>)
    requires forall c :: c in chunks ==> c != []
    modifies connection
    ensures Yield(messages, connection.buffer + Concat(left), error) == Drain(old(connection.buffer) + Concat(chunks))
  {
    hide Next, WithoutKeepalives;
    messages, error, left := [], None, chunks;
    ghost var stream := connection.buffer + Concat(chunks);
    var r := Message([]);
    ghost var rest := stream;
    while r.Message?
      invariant forall c :: c in left ==> c != []
      invariant r.Message? ==> rest == connection.buffer + Concat(left) && error == None && Drain(stream) == Onto(messages, Drain(rest))
      invariant !r.Message? ==> Yield(messages, connection.buffer + Concat(left), error) == Drain(stream)
      decreases if r.Message? then 1 + |rest| else 0
    {
      ghost var was, unread := rest, left;
      r, left := connection.RecvStreamMessage(left);
      assert forall c :: c in left ==> c in unread;
      match r {
        case Message(m) =>
          rest := connection.buffer + Concat(left);
          OneMore(messages, m, was, rest);
          messages := messages + [m];
        case Broken(e) => error := Some(e);
        case Closed => assert connection.buffer + [] == connection.buffer;
      }
    }
  }

  function Onto(messages: seq<Text>, y: Yield): Yield {
    y.(messages := messages + y.messages)
  }

  lemma OneMore(messages: seq<Text>, m: Text, stream: Text, rest: Text)
    requires Next(stream) == Framed(m, rest)
    ensures Onto(messages, Drain(stream)) == Onto(messages + [m], Drain(rest))
  {
    hide Next;
    assert messages + ([m] + Drain(rest).messages) == (messages + [m]) + Drain(rest).messages;
  }

  // ------------------------------------------------------------------ every byte is accounted for

  /** Keepalives in front of each message. */
  function Weave(keepalives: seq<nat>, messages: seq<Text>): Text
    requires |keepalives| == |messages|
  {
    if messages == [] then [] else Pairs(keepalives[0]) + messages[0] + Weave(keepalives[1..], messages[1..])
  }

  function Pairs(n: nat): Text {
    if n == 0 then [] else [13, 10] + Pairs(n - 1)
  }

  /** The keepalives that are dropped from the front. */
  function Dropped(b: Text): nat {
    if At(b, CRLF, 0) then 1 + Dropped(b[2..]) else 0
  }

  lemma {:induction false} DroppedIsFront(b: Text)
    ensures b == Pairs(Dropped(b)) + WithoutKeepalives(b)
  {
    if At(b, CRLF, 0) {
      DroppedIsFront(b[2..]);
      assert b == CRLF + b[2..];
    }
  }

  lemma NextAccounts(stream: Text)
    ensures Next(stream).Framed? ==> stream == Pairs(Dropped(stream)) + Next(stream).message + Next(stream).rest
  {
    hide MessageLength, WithoutKeepalives;
    DroppedIsFront(stream);
    var b := WithoutKeepalives(stream);
    if Next(stream).Framed? {
      var n := MessageLength(b).value.value;
      assert b == b[..n] + b[n..];
    }
  }

  /** Every byte of a stream is in a yielded message, in a dropped keepalive, or still there. */
  lemma {:induction false} EveryByteIsAccountedFor(stream: Text) returns (keepalives: seq<nat>, last: nat)
    ensures |keepalives| == |Drain(stream).messages|
    ensures stream == Weave(keepalives, Drain(stream).messages) + Pairs(last) + Drain(stream).rest
    decreases |stream|
  {
    hide Next, WithoutKeepalives, Dropped;
    if Next(stream).Framed? {
      var m, rest := Next(stream).message, Next(stream).rest;
      var k, l := EveryByteIsAccountedFor(rest);
      NextAccounts(stream);
      keepalives, last := [Dropped(stream)] + k, l;
      assert keepalives[1..] == k && ([m] + Drain(rest).messages)[1..] == Drain(rest).messages;
    } else {
      DroppedIsFront(stream);
      return [], Dropped(stream);
    }
  }

  // ------------------------------------------------------------------ what is sent is what is yielded

  /** A message that does not start with a keepalive, and whose Content-Length fits it. */
  ghost predicate WellFormed(m: Text) {
    !At(m, CRLF, 0) && MessageLength(m) == Ok(Some(|m|))
  }

  lemma {:induction false} KeepalivesDrop(n: nat, t: Text)
    ensures WithoutKeepalives(Pairs(n) + t) == WithoutKeepalives(t)
  {
    if n > 0 {
      KeepalivesDrop(n - 1, t);
      var b := Pairs(n) + t;
      assert b[0..2] == CRLF && b[2..] == Pairs(n - 1) + t;
    } else {
      assert Pairs(0) + t == t;
    }
  }

  lemma NextIsFirst(n: nat, m: Text, rest: Text)
    requires WellFormed(m)
    ensures Next(Pairs(n) + m + rest) == Framed(m, rest)
  {
    hide MessageLength, Pairs;
    KeepalivesDrop(n, m + rest);
    assert Pairs(n) + m + rest == Pairs(n) + (m + rest);
    LengthGrows(m, rest);
    assert (m + rest)[0..2] == m[0..2];
    assert (m + rest)[..|m|] == m && (m + rest)[|m|..] == rest;
  }

  lemma {:induction false} WovenDrains(keepalives: seq<nat>, messages: seq<Text>, last: nat)
    requires |keepalives| == |messages| && forall m :: m in messages ==> WellFormed(m)
    ensures Drain(Weave(keepalives, messages) + Pairs(last)) == Yield(messages, [], None)
  {
    hide WellFormed, MessageLength;
    var stream := Weave(keepalives, messages) + Pairs(last);
    if messages == [] {
      KeepalivesDrop(last, []);
      assert stream == Pairs(last) + [];
      NothingToFind();
    } else {
      var rest := Weave(keepalives[1..], messages[1..]) + Pairs(last);
      assert stream == Pairs(keepalives[0]) + messages[0] + rest;
      NextIsFirst(keepalives[0], messages[0], rest);
      WovenDrains(keepalives[1..], messages[1..], last);
    }
  }

  lemma NothingToFind()
    ensures MessageLength([]) == Ok(None)
  {
  }

  /** Any well-formed messages, any keepalives between them, any chunks: exactly those messages come out. */
  lemma StreamRoundTrip(keepalives: seq<nat>, messages: seq<Text>, last: nat, chunks: seq<Text>)
    requires |keepalives| == |messages| && forall m :: m in messages ==> WellFormed(m)
    requires Concat(chunks) == Weave(keepalives, messages) + Pairs(last)
    ensures Feed(chunks) == Yield(messages, [], None)
  {
    hide WellFormed;
    WovenDrains(keepalives, messages, last);
    ChunkingDoesNotMatter(chunks);
  }
}
