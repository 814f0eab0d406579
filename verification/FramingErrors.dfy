/**
 What the framer makes of any header block: which line says what of the length, which fault is reported, and how long
 the message is when there is none.
 */
module FramingErrors {
  import opened Bytes
  import opened StreamFraming
  import opened RenderedMessages
  import FramingRuns

  // ------------------------------------------------------------------ decimal numbers

  /** A number in decimal. */
  function Printed(n: nat): Text {
    if n < 10 then [48 + n] else Printed(n / 10) + [48 + n % 10]
  }

  function Zeros(n: nat): Text {
    if n == 0 then [] else Zeros(n - 1) + [48]
  }

  lemma {:induction false} PrintedIsDigits(n: nat)
    ensures Digits(Printed(n)) && Number(Printed(n)) == n
  {
    if n < 10 {
      assert Printed(n)[..0] == [];
    } else {
      PrintedIsDigits(n / 10);
      assert Printed(n)[..|Printed(n)| - 1] == Printed(n / 10);
    }
  }

  predicate NoneButDigits(t: Text) {
    forall i :: 0 <= i < |t| ==> 48 <= t[i] <= 57
  }

  lemma {:induction false} ZerosAreDigits(z: nat)
    ensures NoneButDigits(Zeros(z)) && Number(Zeros(z)) == 0
  {
    if z > 0 {
      ZerosAreDigits(z - 1);
      assert Zeros(z)[..|Zeros(z)| - 1] == Zeros(z - 1);
    }
  }

  lemma {:induction false} ZerosCountNothing(zeros: Text, t: Text)
    requires NoneButDigits(zeros) && NoneButDigits(t) && Number(zeros) == 0
    ensures NoneButDigits(zeros + t) && Number(zeros + t) == Number(t)
  {
    if t == [] {
      assert zeros + t == zeros;
    } else {
      var n := |t| - 1;
      ZerosCountNothing(zeros, t[..n]);
      assert (zeros + t)[..|zeros + t| - 1] == zeros + t[..n];
    }
  }

  /** The digits of a number, zeros before them or not, say that number. */
  lemma DecimalIsRead(z: nat, n: nat)
    ensures Digits(Zeros(z) + Printed(n)) && Number(Zeros(z) + Printed(n)) == n
  {
    PrintedIsDigits(n);
    ZerosAreDigits(z);
    ZerosCountNothing(Zeros(z), Printed(n));
    assert Zeros(z) + Printed(n) != [];
  }

  // ------------------------------------------------------------------ one header line

  predicate IsBlank(b: byte) {
    b in {9, 10, 11, 12, 13, 28, 29, 30, 31, 32}
  }

  /** `t[a..b]` is what is left of `t` without the white space around it. */
  predicate Bare(t: Text, a: nat, b: nat) {
    && a <= b <= |t|
    && (forall k :: 0 <= k < a ==> IsBlank(t[k])) && (forall k :: b <= k < |t| ==> IsBlank(t[k]))
    && (a < b ==> !IsBlank(t[a]) && !IsBlank(t[b - 1]))
  }

  lemma {:induction false} LeftStripIs(t: Text, a: nat)
    requires a <= |t| && (forall k :: 0 <= k < a ==> Blank(t[k])) && (a < |t| ==> !Blank(t[a]))
    ensures LeftStrip(t) == t[a..]
  {
    if a > 0 {
      LeftStripIs(t[1..], a - 1);
    }
  }

  lemma {:induction false} RightStripIs(t: Text, b: nat)
    requires b <= |t| && (forall k :: b <= k < |t| ==> Blank(t[k])) && (b > 0 ==> !Blank(t[b - 1]))
    ensures RightStrip(t) == t[..b]
  {
    if b < |t| {
      RightStripIs(t[..|t| - 1], b);
      assert t[..|t| - 1][..b] == t[..b];
    }
  }

  lemma StripIs(t: Text, a: nat, b: nat)
    requires Bare(t, a, b)
    ensures Strip(t) == t[a..b]
  {
    assert forall x: byte :: IsBlank(x) <==> Blank(x);
    hide IsBlank, Blank;
    if a == b {
      LeftStripIs(t, |t|);
    } else {
      LeftStripIs(t, a);
      RightStripIs(t[a..], b - a);
      assert t[a..][..b - a] == t[a..b];
    }
  }

  lemma SomeBare(t: Text) returns (a: nat, b: nat)
    ensures Bare(t, a, b)
  {
    a := 0;
    while a < |t| && IsBlank(t[a])
      invariant a <= |t| && forall k :: 0 <= k < a ==> IsBlank(t[k])
    {
      a := a + 1;
    }
    b := |t|;
    while b > a && IsBlank(t[b - 1])
      invariant a <= b <= |t| && forall k :: b <= k < |t| ==> IsBlank(t[k])
    {
      b := b - 1;
    }
  }

  /** A line up to its first colon, and after it. */
  predicate Divides(line: Text, c: nat) {
    c < |line| && line[c] == 58 && forall k :: 0 <= k < c ==> line[k] != 58
  }

  lemma {:induction false} ColonAt(line: Text, c: nat)
    requires Divides(line, c)
    ensures Find(line, [58]) == Some(c)
  {
    forall j: nat | j < c
      ensures !At(line, [58], j)
    {
      AtMeans(line, j);
    }
    AtMeans(line, c);
    FirstAt(line, [58], 0, c);
  }

  /** A line without a colon is faulty. */
  lemma NoColonIn(line: Text)
    requires line != [] && 58 !in line
    ensures LengthIn(line) == Err(NoColon)
  {
    forall j: nat
      ensures !At(line, [58], j)
    {
      AtMeans(line, j);
    }
    NowhereFrom(line, [58], 0);
  }

  /**
   A line with a colon is faulty when nothing stands before it, or when it names the length and what stands after it
   is not a number; it says nothing of the length when it names something else.
   */
  lemma LineSays(line: Text, c: nat, a: nat, b: nat, x: nat, y: nat)
    requires Divides(line, c) && Bare(line[..c], a, b) && Bare(line[c + 1..], x, y)
    ensures var name, value := line[..c][a..b], line[c + 1..][x..y];
            LengthIn(line)
            == if a == b then Err(EmptyName)
               else if !Spells(name, "content-length") && !Spells(name, "l") then Ok(None)
               else if value == [] || !NoneButDigits(value) then Err(InvalidLength)
               else Ok(Some(Number(value)))
  {
    ColonAt(line, c);
    StripIs(line[..c], a, b);
    StripIs(line[c + 1..], x, y);
    NamesLength(line[..c][a..b]);
    hide Find, Strip, Lower, Spells, Bare, Number;
  }

  // ------------------------------------------------------------------ all of a header block

  /** A header line with its continuations. */
  datatype Block = Block(first: Text, more: seq<Text>)

  ghost predicate GoodBlock(b: Block) {
    && Clean(b.first) && b.first[0] !in {32, 9}
    && forall i :: 0 <= i < |b.more| ==> Clean(b.more[i]) && b.more[i][0] in {32, 9}
  }

  /** The line with its continuations joined on, each after a space. */
  function Whole(b: Block): Text {
    FullValue(b.first, b.more)
  }

  function Wholes(blocks: seq<Block>): (lines: seq<Text>)
    ensures |lines| == |blocks| && forall i :: 0 <= i < |lines| ==> lines[i] == Whole(blocks[i])
  {
    seq(|blocks|, i requires 0 <= i < |blocks| => Whole(blocks[i]))
  }

  function BlockLines(blocks: seq<Block>): seq<Text> {
    if blocks == [] then []
    else BlockLines(blocks[..|blocks| - 1]) + [blocks[|blocks| - 1].first] + blocks[|blocks| - 1].more
  }

  lemma {:induction false} UnfoldsBlock(before: seq<Text>, texts: seq<Text>, b: Block, n: nat)
    requires GoodBlock(b) && Unfold(before) == Some(texts) && n <= |b.more|
    ensures Unfold(before + [b.first] + b.more[..n]) == Some(texts + [FullValue(b.first, b.more[..n])])
  {
    if n == 0 {
      assert before + [b.first] + b.more[..0] == before + [b.first];
      assert (before + [b.first])[..|before|] == before;
    } else {
      UnfoldsBlock(before, texts, b, n - 1);
      assert Continues(b.more[n - 1]);
      hide Unfold, FullValue, Clean, LeftStrip, Continues;
      var shorter := before + [b.first] + b.more[..n - 1];
      assert before + [b.first] + b.more[..n] == shorter + [b.more[n - 1]];
      JoinsOn(shorter, texts, FullValue(b.first, b.more[..n - 1]), b.more[n - 1]);
      WholeNext(b, n);
    }
  }

  lemma WholeNext(b: Block, n: nat)
    requires 0 < n <= |b.more|
    ensures FullValue(b.first, b.more[..n]) == FullValue(b.first, b.more[..n - 1]) + [SP] + LeftStrip(b.more[n - 1])
  {
    hide LeftStrip;
    assert b.more[..n][..n - 1] == b.more[..n - 1];
  }

  lemma {:induction false} UnfoldsBlocks(blocks: seq<Block>)
    requires forall k :: 0 <= k < |blocks| ==> GoodBlock(blocks[k])
    ensures Unfold(BlockLines(blocks)) == Some(Wholes(blocks))
    ensures forall i :: 0 <= i < |BlockLines(blocks)| ==> Clean(BlockLines(blocks)[i])
  {
    if blocks != [] {
      var before, b := blocks[..|blocks| - 1], blocks[|blocks| - 1];
      UnfoldsBlocks(before);
      UnfoldsBlock(BlockLines(before), Wholes(before), b, |b.more|);
      assert b.more[..|b.more|] == b.more;
      assert Wholes(blocks) == Wholes(before) + [Whole(b)];
      hide Unfold, Clean, FullValue;
    } else {
      assert Wholes(blocks) == [];
    }
  }

  /** A faulty line, when no line before it is. */
  ghost predicate FirstFault(lines: seq<Text>, k: int, e: FramingError) {
    0 <= k < |lines| && LengthIn(lines[k]) == Err(e) && forall j :: 0 <= j < k ==> LengthIn(lines[j]).Ok?
  }

  ghost predicate Gives(lines: seq<Text>, n: nat) {
    exists k :: 0 <= k < |lines| && LengthIn(lines[k]) == Ok(Some(n))
  }

  lemma {:induction false} FaultStops(lines: seq<Text>, k: int, e: FramingError)
    requires FirstFault(lines, k, e)
    ensures LengthsIn(lines) == Err(e)
  {
    hide LengthIn;
    var n := |lines| - 1;
    if k < n {
      FaultStops(lines[..n], k, e);
    } else {
      NoFault(lines[..n]);
    }
  }

  lemma {:induction false} NoFault(lines: seq<Text>)
    requires forall j :: 0 <= j < |lines| ==> LengthIn(lines[j]).Ok?
    ensures LengthsIn(lines).Ok? && forall n :: n in LengthsIn(lines).value <==> Gives(lines, n)
  {
    hide LengthIn;
    if lines != [] {
      var m := |lines| - 1;
      NoFault(lines[..m]);
      forall n: nat
        ensures Gives(lines, n) <==> Gives(lines[..m], n) || LengthIn(lines[m]) == Ok(Some(n))
      {
        if k :| 0 <= k < |lines| && LengthIn(lines[k]) == Ok(Some(n)) {
          assert k < m ==> lines[..m][k] == lines[k];
        }
        if k :| 0 <= k < m && LengthIn(lines[..m][k]) == Ok(Some(n)) {
          assert lines[k] == lines[..m][k];
        }
      }
    }
  }

  lemma AgreedIs(lengths: seq<nat>)
    ensures (forall n :: n !in lengths) ==> AgreedLength(lengths) == Err(NoLength)
    ensures forall n, m :: n in lengths && m in lengths && n != m ==> AgreedLength(lengths) == Err(ConflictingLengths)
    ensures forall n :: n in lengths && (forall m :: m in lengths ==> m == n) ==> AgreedLength(lengths) == Ok(n)
  {
    assert forall i :: 0 <= i < |lengths| ==> lengths[i] in lengths;
  }

  /** The header block's measure, when its lines are clean and its first one is not blank. */
  lemma BlocksMeasured(start: Text, blocks: seq<Block>, body: Text)
    requires Clean(start) && Strip(start) != [] && forall k :: 0 <= k < |blocks| ==> GoodBlock(blocks[k])
    ensures var m, r := JoinLines([start] + BlockLines(blocks)) + ([13, 10, 13, 10] + body), LengthsIn(Wholes(blocks));
            MessageLength(m) == if r.Err? then Err(r.error)
                                else if AgreedLength(r.value).Err? then Err(AgreedLength(r.value).error)
                                else Ok(Some(|m| - |body| + AgreedLength(r.value).value))
  {
    hide *;
    var lines := [start] + BlockLines(blocks);
    UnfoldsBlocks(blocks);
    HeaderEnds(lines, body);
    SplitOfJoin(lines);
    HeadLength(JoinLines(lines), start, BlockLines(blocks), Wholes(blocks));
    FrameLength(JoinLines(lines), body);
    EndIs(JoinLines(lines), body);
  }

  lemma EndIs(head: Text, body: Text)
    ensures head + ([13, 10, 13, 10] + body) == head + (CRLF + CRLF + body)
    ensures |head + ([13, 10, 13, 10] + body)| == |head| + 4 + |body|
  {
  }

  /**
   Any header block of clean lines, folded or not, under a start line that is not blank: the first faulty line decides
   the error; else the lengths given must be there and agree, and the message is the header block and that many bytes.
   */
  lemma MessageOutcome(start: Text, blocks: seq<Block>, body: Text)
    requires Clean(start) && (exists k :: 0 <= k < |start| && !IsBlank(start[k])) && forall k :: 0 <= k < |blocks| ==> GoodBlock(blocks[k])
    ensures var m, lines := JoinLines([start] + BlockLines(blocks)) + ([13, 10, 13, 10] + body), Wholes(blocks);
            && (forall k, e :: FirstFault(lines, k, e) ==> MessageLength(m) == Err(e))
            && ((forall j :: 0 <= j < |lines| ==> LengthIn(lines[j]).Ok?) ==>
                  && ((forall n :: !Gives(lines, n)) ==> MessageLength(m) == Err(NoLength))
                  && (forall n, o :: Gives(lines, n) && Gives(lines, o) && n != o ==> MessageLength(m) == Err(ConflictingLengths))
                  && (forall n :: Gives(lines, n) && (forall o :: Gives(lines, o) ==> o == n) ==> MessageLength(m) == Ok(Some(|m| - |body| + n))))
  {
    hide Clean, GoodBlock, LengthIn, LengthsIn, MessageLength, AgreedLength, JoinLines, BlockLines, Wholes, Gives;
    var lines := Wholes(blocks);
    StartIsNotBlank(start);
    BlocksMeasured(start, blocks, body);
    forall k, e | FirstFault(lines, k, e)
      ensures LengthsIn(lines) == Err(e)
    {
      FaultStops(lines, k, e);
    }
    if forall j :: 0 <= j < |lines| ==> LengthIn(lines[j]).Ok? {
      NoFault(lines);
      AgreedIs(LengthsIn(lines).value);
    }
  }

  lemma StartIsNotBlank(start: Text)
    requires exists k :: 0 <= k < |start| && !IsBlank(start[k])
    ensures Strip(start) != []
  {
    var a, b := SomeBare(start);
    StripIs(start, a, b);
    hide Strip;
  }

  /** A blank start line is reported first of all ... */
  lemma BlankStart(start: Text, lines: seq<Text>, body: Text)
    requires Clean(start) && (forall k :: 0 <= k < |lines| ==> Clean(lines[k])) && forall k :: 0 <= k < |start| ==> IsBlank(start[k])
    ensures MessageLength(JoinLines([start] + lines) + ([13, 10, 13, 10] + body)) == Err(EmptyStartLine)
  {
    StripIs(start, |start|, |start|);
    hide *;
    FramesLines(start, lines, body);
    StartsBlank(JoinLines([start] + lines), start, lines);
  }

  /** ... and then a first header line that continues nothing. */
  lemma FoldedStart(start: Text, lines: seq<Text>, body: Text)
    requires Clean(start) && (forall k :: 0 <= k < |lines| ==> Clean(lines[k])) && exists k :: 0 <= k < |start| && !IsBlank(start[k])
    requires lines != [] && lines[0] != [] && lines[0][0] in {32, 9}
    ensures MessageLength(JoinLines([start] + lines) + ([13, 10, 13, 10] + body)) == Err(StartsFolded)
  {
    hide *;
    FramesLines(start, lines, body);
    StartIsNotBlank(start);
    NeverUnfolds(lines);
    StartsInFold(JoinLines([start] + lines), start, lines);
  }

  lemma FramesLines(start: Text, lines: seq<Text>, body: Text)
    requires Clean(start) && forall k :: 0 <= k < |lines| ==> Clean(lines[k])
    ensures SplitLines(JoinLines([start] + lines)) == [start] + lines
    ensures MessageLength(JoinLines([start] + lines) + ([13, 10, 13, 10] + body))
            == match BodyLength(JoinLines([start] + lines)) case Err(e) => Err(e) case Ok(n) => Ok(Some(|JoinLines([start] + lines)| + 4 + n))
  {
    hide *;
    var all := [start] + lines;
    HeaderEnds(all, body);
    SplitOfJoin(all);
    FrameLength(JoinLines(all), body);
    EndIs(JoinLines(all), body);
  }

  lemma StartsBlank(head: Text, start: Text, lines: seq<Text>)
    requires SplitLines(head) == [start] + lines && Strip(start) == []
    ensures BodyLength(head) == Err(EmptyStartLine)
  {
    hide SplitLines, Strip, Unfold, LengthsIn;
  }

  lemma StartsInFold(head: Text, start: Text, lines: seq<Text>)
    requires SplitLines(head) == [start] + lines && Strip(start) != [] && Unfold(lines) == None
    ensures BodyLength(head) == Err(StartsFolded)
  {
    hide SplitLines, Strip, Unfold, LengthsIn;
    assert ([start] + lines)[1..] == lines;
  }

  lemma {:induction false} NeverUnfolds(lines: seq<Text>)
    requires lines != [] && lines[0] != [] && lines[0][0] in {32, 9}
    ensures Unfold(lines) == None
  {
    if |lines| > 1 {
      NeverUnfolds(lines[..|lines| - 1]);
    } else {
      assert lines[..0] == [];
    }
  }

  /** A header that gives the length of the body in decimal, and nothing else of the length, frames its message. */
  lemma PrintedLengthFrames(start: Text, before: seq<Field>, after: seq<Field>, body: Text, name: Text)
    requires Clean(start) && Strip(start) != []
    requires forall f :: f in before || f in after ==> GoodField(f) && !GivesLength(f)
    requires Spells(name, "content-length") || Spells(name, "l")
    ensures FramingRuns.WellFormed(Render(start, before + [Field(name, [32] + Printed(|body|), [])] + after, body))
  {
    hide *;
    var f := Field(name, [32] + Printed(|body|), []);
    PrintedField(name, |body|);
    OnlyOneGives(before, f, after, |body|);
    RenderedIsWellFormedIff(start, before + [f] + after, body);
  }

  lemma OnlyOneGives(before: seq<Field>, f: Field, after: seq<Field>, n: nat)
    requires forall g :: g in before || g in after ==> GoodField(g) && !GivesLength(g)
    requires GoodField(f) && GivesLength(f) && SaysLength(f, n)
    ensures SaysLengths(before + [f] + after, n) && forall k :: 0 <= k < |before + [f] + after| ==> GoodField((before + [f] + after)[k])
  {
    hide GoodField, GivesLength, SaysLength;
    var fields := before + [f] + after;
    forall k | 0 <= k < |fields|
      ensures GoodField(fields[k]) && (GivesLength(fields[k]) ==> fields[k] == f)
    {
      if k < |before| {
        assert fields[k] == before[k];
      } else if k > |before| {
        assert fields[k] == after[k - |before| - 1];
      }
    }
    assert fields[|before|] == f;
  }

  lemma PrintedField(name: Text, n: nat)
    requires Spells(name, "content-length") || Spells(name, "l")
    ensures var f := Field(name, [32] + Printed(n), []);
            GoodField(f) && GivesLength(f) && SaysLength(f, n)
  {
    hide *;
    NameIsPlain(name);
    PrintedIsDigits(n);
    PrintedStrips(n);
    PlainStrips(name);
    PlainFieldIsGood(Field(name, [32] + Printed(n), []), n);
  }

  lemma PrintedStrips(n: nat)
    requires Digits(Printed(n))
    ensures Strip([32] + Printed(n)) == Printed(n)
  {
    hide Printed;
    var value := [32] + Printed(n);
    assert Bare(value, 1, |value|);
    StripIs(value, 1, |value|);
    assert value[1..|value|] == Printed(n);
  }

  predicate NameByte(b: byte) {
    b == 45 || 65 <= b <= 90 || 97 <= b <= 122
  }

  lemma PlainStrips(name: Text)
    requires name != [] && forall i :: 0 <= i < |name| ==> NameByte(name[i])
    ensures Strip(name) == name
  {
    assert NameByte(name[0]) && NameByte(name[|name| - 1]);
    StripIs(name, 0, |name|);
    assert name[0..|name|] == name;
  }

  lemma PlainFieldIsGood(f: Field, n: nat)
    requires f.name != [] && (forall i :: 0 <= i < |f.name| ==> NameByte(f.name[i])) && Strip(f.name) == f.name
    requires Spells(f.name, "content-length") || Spells(f.name, "l")
    requires Digits(Printed(n)) && Number(Printed(n)) == n && f.value == [32] + Printed(n) && Strip(f.value) == Printed(n) && f.more == []
    ensures GoodField(f) && GivesLength(f) && SaysLength(f, n)
  {
    hide Strip, Spells, Printed, Number;
    var line := FirstLine(f);
    forall i | 0 <= i < |line|
      ensures line[i] != 13
    {
      if i < |f.name| {
        assert line[i] == f.name[i] && NameByte(f.name[i]);
      } else if i > |f.name| + 1 {
        assert line[i] == Printed(n)[i - |f.name| - 2];
      }
    }
    assert 58 !in f.name by {
      assert forall i :: 0 <= i < |f.name| ==> NameByte(f.name[i]) && f.name[i] != 58;
    }
    assert NameByte(f.name[0]);
  }

  lemma NameIsPlain(name: Text)
    requires Spells(name, "content-length") || Spells(name, "l")
    ensures name != [] && forall i :: 0 <= i < |name| ==> NameByte(name[i])
  {
    var word := if Spells(name, "content-length") then "content-length" else "l";
    forall i | 0 <= i < |name|
      ensures NameByte(name[i])
    {
      assert word[i] == '-' || 'a' <= word[i] <= 'z';
    }
  }
}
