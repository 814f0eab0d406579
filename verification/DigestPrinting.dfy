/** Printed parameters parse back to the values that were printed, whatever quotes, backslashes or commas they hold. */
module DigestPrinting {
  import opened Bytes
  import opened DigestParams

  datatype Field = Quoted(key: string, value: string) | Token(key: string, value: string)

  function PrintField(f: Field): string {
    f.key + "=" + match f case Quoted(_, v) => "\"" + Quote(v) + "\"" case Token(_, v) => v
  }

  /** ",".join(...) */
  function PrintFields(fields: seq<Field>): string {
    if fields == [] then "" else PrintField(fields[0]) + PrintMore(fields[1..])
  }

  function PrintMore(fields: seq<Field>): string {
    if fields == [] then "" else "," + PrintField(fields[0]) + PrintMore(fields[1..])
  }

  predicate Plain(s: string, kind: Class) {
    forall i :: 0 <= i < |s| ==> Has(kind, s[i]) && !IsSpace(s[i])
  }

  /** Keys are lower-case tokens; a value that is not quoted is a token too. */
  predicate Good(f: Field) {
    && f.key != "" && Plain(f.key, InKey) && Lower(f.key) == f.key
    && (f.Token? ==> Plain(f.value, InValue) && (f.value != "" ==> f.value[0] != '"'))
  }

  function Assigned(params: Params, fields: seq<Field>): Params
    decreases |fields|
  {
    if fields == [] then params else Assigned(params[fields[0].key := fields[0].value], fields[1..])
  }

  // ------------------------------------------------------------------ quoting

  function QuoteChar(c: char): string {
    if c == '\\' then "\\\\" else if c == '"' then "\\\"" else [c]
  }

  lemma {:induction false} QuoteOne(s: string)
    requires s != ""
    ensures Quote(s) == QuoteChar(s[0]) + Quote(s[1..])
  {
    var inner := Replace(s[1..], '\\', "\\\\");
    if s[0] == '\\' {
      var t := Replace(s, '\\', "\\\\");
      assert t == ['\\', '\\'] + inner;
      assert t[1..] == ['\\'] + inner && t[1..][1..] == inner;
      assert Replace(t, '"', "\\\"") == "\\" + Replace(t[1..], '"', "\\\"");
    } else {
      var t := Replace(s, '\\', "\\\\");
      assert t == [s[0]] + inner && t[1..] == inner;
    }
  }

  lemma UnquoteOne(c: char, rest: string)
    ensures Unquote(QuoteChar(c) + rest) == ([c] + Unquote(rest).0, Unquote(rest).1)
  {
    var s := QuoteChar(c) + rest;
    assert s[|QuoteChar(c)|..] == rest;
  }

  lemma UnquoteEnd(tail: string)
    ensures Unquote("\"" + tail) == ("", tail)
  {
    assert ("\"" + tail)[1..] == tail;
  }

  lemma Regrouped(a: string, b: string, c: string, d: string)
    ensures a + b + c + d == a + (b + c + d)
  {
  }

  lemma QuoteNone()
    ensures Quote("") == ""
  {
  }

  /** The parser reads back any quoted value, up to its closing quote. */
  lemma {:induction false} QuoteRoundTrip(v: string, tail: string)
    ensures Unquote(Quote(v) + "\"" + tail) == (v, tail)
  {
    hide *;
    if v == "" {
      QuoteNone();
      UnquoteEnd(tail);
      assert Quote(v) + "\"" == "\"";
    } else {
      QuoteOne(v);
      QuoteRoundTrip(v[1..], tail);
      UnquoteOne(v[0], Quote(v[1..]) + "\"" + tail);
      Regrouped(QuoteChar(v[0]), Quote(v[1..]), "\"", tail);
      assert v == [v[0]] + v[1..];
    }
  }

  // ------------------------------------------------------------------ scanning

  lemma {:induction false} Passes(a: string, b: string, kind: Class)
    requires (forall i :: 0 <= i < |a| ==> Has(kind, a[i])) && (b == "" || !Has(kind, b[0]))
    ensures TakeWhile(a + b, kind) == a && DropWhile(a + b, kind) == b
  {
    hide Has;
    if a == "" {
      assert a + b == b;
    } else {
      assert (a + b)[1..] == a[1..] + b;
      Passes(a[1..], b, kind);
    }
  }

  lemma PlainStrips(s: string, kind: Class)
    requires Plain(s, kind)
    ensures Strip(s) == s && DropWhile(s, Space) == s
  {
    assert LeftStrip(s) == s;
  }

  lemma ReadsKey(key: string, rest: string)
    requires key != "" && Plain(key, InKey)
    ensures var s := key + "=" + rest;
            && DropWhile(s, Separator) == s && Strip(TakeWhile(s, InKey)) == key
            && DropWhile(DropWhile(s, InKey), Space) == "=" + rest
  {
    var s := key + "=" + rest;
    assert s == key + ("=" + rest);
    Passes(key, "=" + rest, InKey);
    PlainStrips(key, InKey);
    assert Has(InKey, key[0]) && s[0] == key[0];
  }

  lemma ReadsValue(f: Field, tail: string)
    requires Good(f) && (tail == "" || tail[0] == ',')
    ensures var printed := match f case Quoted(_, v) => "\"" + Quote(v) + "\"" case Token(_, v) => v;
            Value(printed + tail) == (f.value, tail)
  {
    match f
    case Quoted(_, v) =>
      QuoteRoundTrip(v, tail);
      var s := "\"" + Quote(v) + "\"" + tail;
      assert s[1..] == Quote(v) + "\"" + tail;
      assert DropWhile(s, Space) == s;
    case Token(_, v) =>
      Passes(v, tail, InValue);
      PlainStrips(v, InValue);
      hide Strip, TakeWhile;
      var s := v + tail;
      assert s != "" ==> s[0] == if v == "" then tail[0] else v[0];
      assert DropWhile(s, Space) == s;
  }

  lemma {:induction false} FieldsParse(fields: seq<Field>, params: Params)
    requires fields != [] && (forall i :: 0 <= i < |fields| ==> Good(fields[i]))
    ensures ParseRest(PrintFields(fields), params) == Assigned(params, fields)
  {
    hide Good, Strip, TakeWhile, DropWhile, Value, Has, IsSpace, Quote, ParseRest;
    var f, more := fields[0], PrintMore(fields[1..]);
    var printed := match f case Quoted(_, v) => "\"" + Quote(v) + "\"" case Token(_, v) => v;
    assert PrintFields(fields) == f.key + "=" + (printed + more);
    FieldParses(f, printed, more, params);
    if |fields| == 1 {
      NothingLeft(params[f.key := f.value]);
    } else {
      assert more[1..] == PrintFields(fields[1..]);
      FieldsParse(fields[1..], params[f.key := f.value]);
    }
  }

  lemma FieldParses(f: Field, printed: string, more: string, params: Params)
    requires Good(f) && (more == "" || more[0] == ',')
    requires printed == match f case Quoted(_, v) => "\"" + Quote(v) + "\"" case Token(_, v) => v
    ensures ParseRest(f.key + "=" + (printed + more), params)
            == ParseRest(if more == "" then "" else more[1..], params[f.key := f.value])
  {
    var s := f.key + "=" + (printed + more);
    ReadsKey(f.key, printed + more);
    ReadsValue(f, more);
    hide Strip, TakeWhile, Value, Quote, ParseRest, IsSpace;
    assert ("=" + (printed + more))[1..] == printed + more;
    TurnWith(s, params);
    assert more != "" ==> DropWhile(more, InValue) == more;
    assert DropWhile("", InValue) == "";
  }

  lemma {:induction false} EndsPlain(fields: seq<Field>)
    requires fields != [] && forall i :: 0 <= i < |fields| ==> Good(fields[i])
    ensures var s := PrintFields(fields); s != "" && !IsSpace(s[|s| - 1])
    decreases |fields|
  {
    hide Has, Lower, Quote;
    var f, more := fields[0], PrintMore(fields[1..]);
    if |fields| > 1 {
      EndsPlain(fields[1..]);
      assert more == "," + PrintFields(fields[1..]);
    }
  }

  /** With the scheme in front, a list of printed fields parses to what was printed, the last of each key. */
  lemma FieldsRoundTrip(fields: seq<Field>)
    requires fields != [] && forall i :: 0 <= i < |fields| ==> Good(fields[i])
    ensures ParseParams("Digest " + PrintFields(fields)) == Assigned(map[], fields)
  {
    var printed := PrintFields(fields);
    FieldsParse(fields, map[]);
    EndsPlain(fields);
    assert printed[0] == fields[0].key[0];
    assert Has(InKey, printed[0]) && !IsSpace(printed[0]);
    hide *;
    SchemeDrops(printed);
    ParseIs("Digest " + printed, printed);
  }

  lemma ParseIs(value: string, data: string)
    requires WithoutScheme(value) == data
    ensures ParseParams(value) == ParseRest(data, map[])
  {
    hide WithoutScheme, ParseRest;
  }

  lemma StripsNothing(s: string)
    requires s != "" && !IsSpace(s[0]) && !IsSpace(s[|s| - 1])
    ensures Strip(s) == s
  {
    hide IsSpace;
  }

  lemma StripsOne(s: string)
    requires s != "" && !IsSpace(s[0])
    ensures LeftStrip(" " + s) == s
  {
    assert (" " + s)[1..] == s;
    assert LeftStrip(s) == s;
  }

  lemma SchemeDrops(printed: string)
    requires printed != "" && !IsSpace(printed[0]) && !IsSpace(printed[|printed| - 1])
    ensures WithoutScheme("Digest " + printed) == printed
  {
    var s := "Digest " + printed;
    DigestInLower();
    assert s[|s| - 1] == printed[|printed| - 1] && s[0] == 'D';
    hide Strip, LeftStrip, Lower;
    StripsNothing(s);
    StripsOne(printed);
    assert s[..6] == "Digest" && s[6..] == " " + printed;
  }

  lemma LowerOne(s: string, c: char, rest: string)
    requires s == [c] + rest
    ensures Lower(s) == Lower([c]) + Lower(rest)
  {
    assert s[1..] == rest && [c][1..] == "";
  }

  lemma LowerChars()
    ensures Lower("") == "" && Lower("D") == "d" && Lower("i") == "i" && Lower("g") == "g"
    ensures Lower("e") == "e" && Lower("s") == "s" && Lower("t") == "t"
  {
  }

  lemma DigestInLower()
    ensures Lower("Digest") == "digest"
  {
    LowerChars();
    hide Lower;
    LowerOne("st", 's', "t");
    LowerOne("est", 'e', "st");
    LowerOne("gest", 'g', "est");
    LowerOne("igest", 'i', "gest");
    LowerOne("Digest", 'D', "igest");
  }
}
