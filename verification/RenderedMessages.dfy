/** Messages put together line by line: the framer agrees with their Content-Length, folded headers included. */
module RenderedMessages {
  import opened Bytes
  import opened StreamFraming
  import opened FramingRuns

  /** A header field; `more` are its continuation lines. */
  datatype Field = Field(name: Text, value: Text, more: seq<Text>)

  /** A line with something on it, and no line end in it. */
  predicate Clean(line: Text) {
    line != [] && forall i :: 0 <= i < |line| - 1 ==> !(line[i] == 13 && line[i + 1] == 10)
  }

  function FirstLine(f: Field): Text {
    f.name + [58] + f.value
  }

  ghost predicate GoodField(f: Field) {
    && 58 !in f.name && Strip(f.name) != [] && f.name != [] && f.name[0] != 32 && f.name[0] != 9
    && Clean(FirstLine(f))
    && forall i :: 0 <= i < |f.more| ==> Clean(f.more[i]) && f.more[i][0] in {32, 9}
  }

  /** A field's value with its continuations joined on. */
  function FullValue(value: Text, more: seq<Text>): Text {
    if more == [] then value else FullValue(value, more[..|more| - 1]) + [32] + LeftStrip(more[|more| - 1])
  }

  function Unfolded(f: Field): Text {
    f.name + [58] + FullValue(f.value, f.more)
  }

  function UnfoldedAll(fields: seq<Field>): seq<Text> {
    if fields == [] then [] else UnfoldedAll(fields[..|fields| - 1]) + [Unfolded(fields[|fields| - 1])]
  }

  function Lines(fields: seq<Field>): seq<Text> {
    if fields == [] then []
    else Lines(fields[..|fields| - 1]) + [FirstLine(fields[|fields| - 1])] + fields[|fields| - 1].more
  }

  function JoinLines(lines: seq<Text>): Text
    requires lines != []
  {
    if |lines| == 1 then lines[0] else lines[0] + [13, 10] + JoinLines(lines[1..])
  }

  function Render(start: Text, fields: seq<Field>, body: Text): Text {
    JoinLines([start] + Lines(fields)) + ([13, 10, 13, 10] + body)
  }

  /** The word, in small letters, read in any case. */
  predicate Spells(t: Text, word: string) {
    |t| == |word| && forall i :: 0 <= i < |t| ==> t[i] == word[i] as int || ('a' <= word[i] <= 'z' && t[i] == word[i] as int - 32)
  }

  predicate GivesLength(f: Field) {
    Spells(Strip(f.name), "content-length") || Spells(Strip(f.name), "l")
  }

  ghost predicate SaysLength(f: Field, n: nat) {
    var value := Strip(FullValue(f.value, f.more));
    Digits(value) && Number(value) == n
  }

  // ------------------------------------------------------------------ lines

  lemma {:induction false} FirstAt(t: Text, what: Text, i: nat, k: nat)
    requires i <= k && At(t, what, k) && forall j :: i <= j < k ==> !At(t, what, j)
    ensures FindFrom(t, what, i) == Some(k)
    decreases k - i
  {
    if i < k {
      FirstAt(t, what, i + 1, k);
    }
  }

  lemma {:induction false} NowhereFrom(t: Text, what: Text, i: nat)
    requires forall j :: i <= j ==> !At(t, what, j)
    ensures FindFrom(t, what, i) == None
    decreases |t| - i
  {
    if i < |t| {
      NowhereFrom(t, what, i + 1);
    }
  }

  /** A line end at place `i`. */
  predicate EndsAt(t: Text, i: nat) {
    i + 1 < |t| && t[i] == 13 && t[i + 1] == 10
  }

  lemma AtMeans(t: Text, i: nat)
    ensures At(t, CRLF, i) <==> EndsAt(t, i)
    ensures At(t, CRLF + CRLF, i) <==> EndsAt(t, i) && EndsAt(t, i + 2)
    ensures At(t, [COLON], i) <==> i < |t| && t[i] == COLON
  {
    if i + 2 <= |t| {
      assert t[i..i + 2] == [t[i], t[i + 1]];
    }
    if i + 4 <= |t| {
      assert t[i..i + 4] == [t[i], t[i + 1], t[i + 2], t[i + 3]];
      assert CRLF + CRLF == [CR, LF, CR, LF];
    }
  }

  /** A clean line that is followed by a line end has none before it. */
  lemma NoneInLine(line: Text, after: Text, i: nat)
    requires Clean(line) && (after != [] ==> after[0] == CR) && i < |line|
    ensures !EndsAt(line + after, i)
  {
    var t := line + after;
    assert t[i] == line[i];
    assert i + 1 < |line| ==> t[i + 1] == line[i + 1];
    assert i + 1 == |line| < |t| ==> t[i + 1] == after[0];
  }

  lemma LineEnds(line: Text, tail: Text)
    requires Clean(line)
    ensures Find(line + CRLF + tail, CRLF) == Some(|line|)
    ensures Find(line, CRLF) == None
  {
    var t := line + CRLF + tail;
    assert t == line + (CRLF + tail);
    forall j: nat | j < |line|
      ensures !At(t, CRLF, j)
    {
      AtMeans(t, j);
      NoneInLine(line, CRLF + tail, j);
    }
    AtMeans(t, |line|);
    FirstAt(t, CRLF, 0, |line|);
    forall j: nat
      ensures !At(line, CRLF, j)
    {
      AtMeans(line, j);
      if j < |line| {
        assert line + [] == line;
        NoneInLine(line, [], j);
      }
    }
    NowhereFrom(line, CRLF, 0);
  }

  lemma {:induction false} SplitOfJoin(lines: seq<Text>)
    requires lines != [] && forall i :: 0 <= i < |lines| ==> Clean(lines[i])
    ensures SplitLines(JoinLines(lines)) == lines
  {
    hide Clean, Find;
    if |lines| == 1 {
      LineEnds(lines[0], []);
    } else {
      var t := JoinLines(lines);
      LineEnds(lines[0], JoinLines(lines[1..]));
      assert t[..|lines[0]|] == lines[0] && t[|lines[0]| + 2..] == JoinLines(lines[1..]);
      SplitOfJoin(lines[1..]);
    }
  }

  /** Clean lines put no empty line before the one that ends the header block. */
  lemma {:induction false} NoEarlierEnd(lines: seq<Text>, tail: Text, i: nat)
    requires lines != [] && (forall k :: 0 <= k < |lines| ==> Clean(lines[k])) && tail != [] && tail[0] == CR
    requires i < |JoinLines(lines)|
    ensures !(EndsAt(JoinLines(lines) + tail, i) && EndsAt(JoinLines(lines) + tail, i + 2))
  {
    var t, line := JoinLines(lines) + tail, lines[0];
    if |lines| == 1 {
      NoneInLine(line, tail, i);
    } else {
      var rest := JoinLines(lines[1..]) + tail;
      assert t == line + (CRLF + rest) && t == (line + CRLF) + rest;
      if i < |line| {
        NoneInLine(line, CRLF + rest, i);
      } else if i == |line| {
        StartsWithLine(lines[1..], tail);
        assert forall k :: |line| + 2 <= k < |t| ==> t[k] == rest[k - |line| - 2];
      } else if i > |line| + 1 {
        NoEarlierEnd(lines[1..], tail, i - |line| - 2);
        assert forall k :: |line| + 2 <= k < |t| ==> t[k] == rest[k - |line| - 2];
      }
    }
  }

  lemma StartsWithLine(lines: seq<Text>, tail: Text)
    requires lines != [] && Clean(lines[0]) && tail != [] && tail[0] == CR
    ensures !EndsAt(JoinLines(lines) + tail, 0)
  {
    if |lines| == 1 {
      NoneInLine(lines[0], tail, 0);
    } else {
      assert JoinLines(lines) + tail == lines[0] + (CRLF + JoinLines(lines[1..]) + tail);
      NoneInLine(lines[0], CRLF + JoinLines(lines[1..]) + tail, 0);
    }
  }

  lemma HeaderEnds(lines: seq<Text>, body: Text)
    requires lines != [] && forall k :: 0 <= k < |lines| ==> Clean(lines[k])
    ensures Find(JoinLines(lines) + (CRLF + CRLF + body), CRLF + CRLF) == Some(|JoinLines(lines)|)
    ensures !At(JoinLines(lines) + (CRLF + CRLF + body), CRLF, 0)
  {
    hide Clean, At;
    var tail, n := CRLF + CRLF + body, |JoinLines(lines)|;
    var t := JoinLines(lines) + tail;
    forall i: nat | i < n
      ensures !At(t, CRLF + CRLF, i)
    {
      AtMeans(t, i);
      NoEarlierEnd(lines, tail, i);
    }
    assert tail == [CR, LF, CR, LF] + body;
    AtMeans(t, n);
    assert t[n] == tail[0] && t[n + 1] == tail[1] && t[n + 2] == tail[2] && t[n + 3] == tail[3];
    FirstAt(t, CRLF + CRLF, 0, n);
    StartsWithLine(lines, tail);
    AtMeans(t, 0);
  }

  // ------------------------------------------------------------------ fields

  lemma {:induction false} UnfoldsField(before: seq<Text>, texts: seq<Text>, f: Field, n: nat)
    requires GoodField(f) && Unfold(before) == Some(texts) && n <= |f.more|
    ensures Unfold(before + [FirstLine(f)] + f.more[..n]) == Some(texts + [f.name + [COLON] + FullValue(f.value, f.more[..n])])
  {
    if n == 0 {
      UnfoldsFirst(before, texts, f);
      assert before + [FirstLine(f)] + f.more[..0] == before + [FirstLine(f)];
    } else {
      UnfoldsField(before, texts, f, n - 1);
      UnfoldsMore(before, texts, f, n);
    }
  }

  lemma UnfoldsMore(before: seq<Text>, texts: seq<Text>, f: Field, n: nat)
    requires GoodField(f) && 0 < n <= |f.more|
    requires Unfold(before + [FirstLine(f)] + f.more[..n - 1]) == Some(texts + [f.name + [COLON] + FullValue(f.value, f.more[..n - 1])])
    ensures Unfold(before + [FirstLine(f)] + f.more[..n]) == Some(texts + [f.name + [COLON] + FullValue(f.value, f.more[..n])])
  {
    assert Continues(f.more[n - 1]);
    hide *;
    var shorter := before + [FirstLine(f)] + f.more[..n - 1];
    assert before + [FirstLine(f)] + f.more[..n] == shorter + [f.more[n - 1]];
    JoinsOn(shorter, texts, f.name + [COLON] + FullValue(f.value, f.more[..n - 1]), f.more[n - 1]);
    FullNext(f.name + [COLON], f.value, f.more, n);
  }

  lemma FullNext(before: Text, value: Text, more: seq<Text>, n: nat)
    requires 0 < n <= |more|
    ensures before + FullValue(value, more[..n]) == before + FullValue(value, more[..n - 1]) + [SP] + LeftStrip(more[n - 1])
  {
    hide LeftStrip;
    assert more[..n][..n - 1] == more[..n - 1];
  }

  lemma UnfoldsFirst(before: seq<Text>, texts: seq<Text>, f: Field)
    requires GoodField(f) && Unfold(before) == Some(texts)
    ensures Unfold(before + [FirstLine(f)]) == Some(texts + [f.name + [COLON] + FullValue(f.value, f.more[..0])])
  {
    hide Clean, Strip, LeftStrip;
    assert FirstLine(f)[0] == f.name[0];
    assert (before + [FirstLine(f)])[..|before|] == before;
  }

  lemma JoinsOn(lines: seq<Text>, texts: seq<Text>, last: Text, line: Text)
    requires Unfold(lines) == Some(texts + [last]) && Continues(line)
    ensures Unfold(lines + [line]) == Some(texts + [last + [SP] + LeftStrip(line)])
  {
    hide Continues;
    assert (lines + [line])[..|lines|] == lines;
    assert (texts + [last])[|texts| := last + [SP] + LeftStrip(line)] == texts + [last + [SP] + LeftStrip(line)];
  }

  lemma {:induction false} UnfoldsAll(fields: seq<Field>)
    requires forall k :: 0 <= k < |fields| ==> GoodField(fields[k])
    ensures Unfold(Lines(fields)) == Some(UnfoldedAll(fields))
  {
    hide GoodField;
    if fields != [] {
      var f := fields[|fields| - 1];
      UnfoldsAll(fields[..|fields| - 1]);
      UnfoldsField(Lines(fields[..|fields| - 1]), UnfoldedAll(fields[..|fields| - 1]), f, |f.more|);
      assert f.more[..|f.more|] == f.more;
    }
  }

  lemma {:induction false} LinesAreClean(fields: seq<Field>)
    requires forall k :: 0 <= k < |fields| ==> GoodField(fields[k])
    ensures forall i :: 0 <= i < |Lines(fields)| ==> Clean(Lines(fields)[i])
  {
    hide Clean, Strip;
    if fields != [] {
      LinesAreClean(fields[..|fields| - 1]);
    }
  }

  /** The names of the length field. */
  lemma NamesLength(name: Text)
    ensures Lower(name) == LONG_NAME <==> Spells(name, "content-length")
    ensures Lower(name) == SHORT_NAME <==> Spells(name, "l")
  {
    LowerIs(name, LONG_NAME, "content-length");
    LowerIs(name, SHORT_NAME, "l");
  }

  lemma LowerIs(name: Text, small: Text, word: string)
    requires |small| == |word| && forall i :: 0 <= i < |word| ==> small[i] == word[i] as int && (word[i] == '-' || 'a' <= word[i] <= 'z')
    ensures Lower(name) == small <==> Spells(name, word)
  {
    if |name| == |word| {
      forall i | 0 <= i < |word|
        ensures Lower(name)[i] == small[i] <==> name[i] == word[i] as int || ('a' <= word[i] <= 'z' && name[i] == word[i] as int - 32)
      {
      }
    }
  }

  /** A field's line says what the field says. */
  lemma LengthOfField(f: Field)
    requires GoodField(f)
    ensures !GivesLength(f) ==> LengthIn(Unfolded(f)) == Ok(None)
    ensures GivesLength(f) ==>
              LengthIn(Unfolded(f)) == (var value := Strip(FullValue(f.value, f.more));
                                        if Digits(value) then Ok(Some(Number(value))) else Err(InvalidLength))
  {
    NamesLength(Strip(f.name));
    hide Strip, Clean, Digits, Number, FullValue, Lower, Spells;
    var line, value := Unfolded(f), FullValue(f.value, f.more);
    forall j: nat | j < |f.name|
      ensures !At(line, [COLON], j)
    {
      AtMeans(line, j);
      assert line[j] == f.name[j];
    }
    AtMeans(line, |f.name|);
    FirstAt(line, [COLON], 0, |f.name|);
    assert line[..|f.name|] == f.name && line[|f.name| + 1..] == value;
  }

  ghost predicate Said(f: Field, lengths: seq<nat>) {
    exists n :: n in lengths && SaysLength(f, n)
  }

  ghost predicate Unsaid(f: Field) {
    GivesLength(f) && forall n :: !SaysLength(f, n)
  }

  ghost predicate SaidBy(fields: seq<Field>, n: nat) {
    exists k :: 0 <= k < |fields| && GivesLength(fields[k]) && SaysLength(fields[k], n)
  }

  /** The lengths collected are those that the fields give; collecting fails only on one that is not a number. */
  ghost predicate Collected(fields: seq<Field>, r: Outcome<seq<nat>>) {
    match r
    case Err(_) => exists k :: 0 <= k < |fields| && Unsaid(fields[k])
    case Ok(lengths) =>
      && (forall k :: 0 <= k < |fields| && GivesLength(fields[k]) ==> Said(fields[k], lengths))
      && (forall n :: n in lengths ==> SaidBy(fields, n))
  }

  lemma CollectsNext(fields: seq<Field>, f: Field, lengths: seq<nat>, r: Outcome<Option<nat>>)
    requires GoodField(f) && r == LengthIn(Unfolded(f)) && Collected(fields, Ok(lengths))
    ensures Collected(fields + [f], match r case Err(e) => Err(e) case Ok(None) => Ok(lengths) case Ok(Some(n)) => Ok(lengths + [n]))
  {
    LengthOfField(f);
    hide GoodField, GivesLength, Strip, Digits, Number, FullValue, Unfolded, LengthIn;
    var all := fields + [f];
    assert all[|fields|] == f;
    if r.Err? {
      assert Unsaid(all[|fields|]);
    } else {
      var next := if r.value.Some? then lengths + [r.value.value] else lengths;
      forall k | 0 <= k < |all| && GivesLength(all[k])
        ensures Said(all[k], next)
      {
        if k < |fields| {
          var n :| n in lengths && SaysLength(fields[k], n);
          assert n in next;
        } else {
          assert r.value.value in next && SaysLength(f, r.value.value);
        }
      }
      forall n | n in next
        ensures SaidBy(all, n)
      {
        if n in lengths {
          var k :| 0 <= k < |fields| && GivesLength(fields[k]) && SaysLength(fields[k], n);
          assert all[k] == fields[k];
        } else {
          assert SaysLength(all[|fields|], n);
        }
      }
    }
  }

  lemma {:induction false} LengthsOfFields(fields: seq<Field>)
    requires forall k :: 0 <= k < |fields| ==> GoodField(fields[k])
    ensures Collected(fields, LengthsIn(UnfoldedAll(fields)))
  {
    hide GoodField, LengthIn, Unfolded, Said, SaidBy, Unsaid;
    if fields != [] {
      var before, f := fields[..|fields| - 1], fields[|fields| - 1];
      LengthsOfFields(before);
      UnfoldedLength(before);
      assert UnfoldedAll(fields)[..|fields| - 1] == UnfoldedAll(before);
      assert before + [f] == fields;
      if LengthsIn(UnfoldedAll(before)).Ok? {
        CollectsNext(before, f, LengthsIn(UnfoldedAll(before)).value, LengthIn(Unfolded(f)));
      }
    }
  }

  lemma {:induction false} UnfoldedLength(fields: seq<Field>)
    ensures |UnfoldedAll(fields)| == |fields|
  {
    if fields != [] {
      UnfoldedLength(fields[..|fields| - 1]);
    }
  }

  /** The framer measures a rendered message by the lengths in its unfolded fields. */
  lemma RenderedLength(start: Text, fields: seq<Field>, body: Text)
    requires Clean(start) && Strip(start) != [] && forall k :: 0 <= k < |fields| ==> GoodField(fields[k])
    ensures var m, r := Render(start, fields, body), LengthsIn(UnfoldedAll(fields));
            && !At(m, CRLF, 0)
            && MessageLength(m) == if r.Err? then Err(r.error)
                                   else if AgreedLength(r.value).Err? then Err(AgreedLength(r.value).error)
                                   else Ok(Some(|m| - |body| + AgreedLength(r.value).value))
  {
    hide *;
    var lines := [start] + Lines(fields);
    var head := JoinLines(lines);
    LinesAreClean(fields);
    HeaderEnds(lines, body);
    SplitOfJoin(lines);
    UnfoldsAll(fields);
    HeadLength(head, start, Lines(fields), UnfoldedAll(fields));
    FrameLength(head, body);
    RenderIs(start, fields, body);
  }

  lemma RenderIs(start: Text, fields: seq<Field>, body: Text)
    ensures var head := JoinLines([start] + Lines(fields));
            Render(start, fields, body) == head + (CRLF + CRLF + body) && |Render(start, fields, body)| == |head| + 4 + |body|
  {
    hide JoinLines, Lines;
  }

  lemma HeadLength(head: Text, start: Text, lines: seq<Text>, texts: seq<Text>)
    requires SplitLines(head) == [start] + lines && Strip(start) != [] && Unfold(lines) == Some(texts)
    ensures BodyLength(head) == match LengthsIn(texts) case Err(e) => Err(e) case Ok(lengths) => AgreedLength(lengths)
  {
    hide Strip, Unfold, LengthsIn, AgreedLength, SplitLines;
    assert ([start] + lines)[1..] == lines;
  }

  lemma FrameLength(head: Text, body: Text)
    requires Find(head + (CRLF + CRLF + body), CRLF + CRLF) == Some(|head|)
    ensures MessageLength(head + (CRLF + CRLF + body)) == match BodyLength(head) case Err(e) => Err(e) case Ok(n) => Ok(Some(|head| + 4 + n))
  {
    hide BodyLength, Find;
    assert (head + (CRLF + CRLF + body))[..|head|] == head;
  }

  ghost predicate SaysLengths(fields: seq<Field>, n: nat) {
    && (exists k :: 0 <= k < |fields| && GivesLength(fields[k]))
    && forall k :: 0 <= k < |fields| && GivesLength(fields[k]) ==> SaysLength(fields[k], n)
  }

  lemma AgreedIff(fields: seq<Field>, lengths: seq<nat>, n: nat)
    requires Collected(fields, Ok(lengths))
    ensures AgreedLength(lengths) == Ok(n) <==> SaysLengths(fields, n)
  {
    hide GivesLength, Strip, Digits, Number, FullValue;
    if SaysLengths(fields, n) {
      var k :| 0 <= k < |fields| && GivesLength(fields[k]);
      assert Said(fields[k], lengths);
      forall i | 0 <= i < |lengths|
        ensures lengths[i] == n
      {
        assert SaidBy(fields, lengths[i]);
      }
    }
    if AgreedLength(lengths) == Ok(n) {
      assert SaidBy(fields, lengths[0]);
      forall k | 0 <= k < |fields| && GivesLength(fields[k])
        ensures SaysLength(fields[k], n)
      {
        assert Said(fields[k], lengths);
      }
    }
  }

  lemma UnsaidNeverAgrees(fields: seq<Field>, e: FramingError, n: nat)
    requires Collected(fields, Err(e))
    ensures !SaysLengths(fields, n)
  {
    hide GivesLength, SaysLength;
  }

  /**
   A rendered message is framed exactly when some field gives its length and every field that gives one gives
   the length of the body.
   */
  lemma RenderedIsWellFormedIff(start: Text, fields: seq<Field>, body: Text)
    requires Clean(start) && Strip(start) != [] && forall k :: 0 <= k < |fields| ==> GoodField(fields[k])
    ensures WellFormed(Render(start, fields, body)) <==> SaysLengths(fields, |body|)
  {
    hide *;
    RenderedLength(start, fields, body);
    LengthsOfFields(fields);
    WellFormedMeans(Render(start, fields, body));
    var r := LengthsIn(UnfoldedAll(fields));
    if r.Ok? {
      AgreedIff(fields, r.value, |body|);
    } else {
      UnsaidNeverAgrees(fields, r.error, |body|);
    }
  }

  lemma WellFormedMeans(m: Text)
    ensures WellFormed(m) <==> !At(m, CRLF, 0) && MessageLength(m) == Ok(Some(|m|))
  {
  }
}
