/** The parameters of a Digest header field, printed and parsed (section 3.4 of RFC 7616). */
module DigestParams {
  import opened Bytes

  type Params = map<string, string>

  datatype Class = Separator | Space | InKey | InValue

  /** str.isspace() for ASCII. */
  predicate IsSpace(c: char) {
    (9 as char <= c <= 13 as char) || (28 as char <= c <= 32 as char)
  }

  /** The characters each of the parser's scanning loops passes over. */
  predicate Has(kind: Class, c: char) {
    match kind
    case Separator => c in " \t\r\n,"
    case Space => IsSpace(c)
    case InKey => c !in "=, \t\r\n"
    case InValue => c != ','
  }

  function TakeWhile(s: string, kind: Class): (r: string)
    ensures |r| <= |s|
  {
    if s != "" && Has(kind, s[0]) then [s[0]] + TakeWhile(s[1..], kind) else ""
  }

  function DropWhile(s: string, kind: Class): (r: string)
    ensures |r| <= |s|
    ensures r != "" ==> !Has(kind, r[0])
  {
    if s != "" && Has(kind, s[0]) then DropWhile(s[1..], kind) else s
  }

  function LeftStrip(s: string): (r: string)
    ensures |r| <= |s|
  {
    if s != "" && IsSpace(s[0]) then LeftStrip(s[1..]) else s
  }

  function RightStrip(s: string): (r: string)
    ensures |r| <= |s|
  {
    if s != "" && IsSpace(s[|s| - 1]) then RightStrip(s[..|s| - 1]) else s
  }

  function Strip(s: string): (r: string)
    ensures |r| <= |s|
  {
    RightStrip(LeftStrip(s))
  }

  function LowerChar(c: char): char {
    if 'A' <= c <= 'Z' then c - 'A' + 'a' else c
  }

  function Lower(s: string): (r: string)
    ensures |r| == |s|
  {
    if s == "" then "" else [LowerChar(s[0])] + Lower(s[1..])
  }

  // ------------------------------------------------------------------ quoting

  /** str.replace for a single character. */
  function Replace(s: string, c: char, with: string): string {
    if s == "" then "" else (if s[0] == c then with else [s[0]]) + Replace(s[1..], c, with)
  }

  /** `_quote` */
  function Quote(s: string): string {
    Replace(Replace(s, '\\', "\\\\"), '"', "\\\"")
  }

  /** What the parser reads of a quoted value, and what follows it. */
  function Unquote(s: string): (r: (string, string))
    ensures |r.1| <= |s|
  {
    if s == "" then ("", "")
    else if s[0] == '\\' && |s| > 1 then var r := Unquote(s[2..]); ([s[1]] + r.0, r.1)
    else if s[0] == '"' then ("", s[1..])
    else var r := Unquote(s[1..]); ([s[0]] + r.0, r.1)
  }

  // ------------------------------------------------------------------ parsing

  /** After the key and its equals sign: the value, and what follows it. */
  function Value(s: string): (r: (string, string))
    ensures |r.1| <= |s|
  {
    var t := DropWhile(s, Space);
    if t != "" && t[0] == '"' then Unquote(t[1..]) else (Strip(TakeWhile(t, InValue)), DropWhile(t, InValue))
  }

  /** The next comma and what follows it are for the next turn. */
  function PastComma(s: string): (r: string)
    ensures |r| <= |s|
  {
    var t := DropWhile(s, InValue);
    if t == "" then "" else t[1..]
  }

  function Put(params: Params, key: string, value: string): Params {
    if key == "" then params else params[Lower(key) := value]
  }

  /** The parser's main loop, on what is left of the text. */
  function ParseRest(s: string, params: Params): Params
    decreases |s|
  {
    var t := DropWhile(s, Separator);
    if t == "" then params
    else
      var key, u := Strip(TakeWhile(t, InKey)), DropWhile(DropWhile(t, InKey), Space);
      if u == "" || u[0] != '=' then
        Advances(t);
        ParseRest(DropWhile(u, InValue), params)
      else
        var v := Value(u[1..]);
        ParseRest(PastComma(v.1), Put(params, key, v.0))
  }

  /** A turn that finds no parameter still passes over something. */
  lemma Advances(t: string)
    requires t != "" && !Has(Separator, t[0])
    ensures var u := DropWhile(DropWhile(t, InKey), Space);
            (u == "" || u[0] != '=') ==> |u| < |t|
  {
    if t[0] == '=' {
      assert DropWhile(t, InKey) == t;
    }
  }

  function WithoutScheme(value: string): string {
    var data := Strip(value);
    if |data| >= 6 && Lower(data[..6]) == "digest" then LeftStrip(data[6..]) else data
  }

  /** `parse_digest_params` */
  function ParseParams(value: string): Params {
    ParseRest(WithoutScheme(value), map[])
  }

  /** A scanning loop: the index of the first character from `from` on that is not of the class. */
  method Scan(data: string, from: nat, kind: Class) returns (index: nat)
    requires from <= |data|
    ensures from <= index <= |data|
    ensures data[from..index] == TakeWhile(data[from..], kind) && data[index..] == DropWhile(data[from..], kind)
  {
    hide Has, TakeWhile, DropWhile;
    index := from;
    assert data[from..from] == "";
    while index < |data| && Has(kind, data[index])
      invariant from <= index <= |data|
      invariant data[from..index] + TakeWhile(data[index..], kind) == TakeWhile(data[from..], kind)
      invariant DropWhile(data[index..], kind) == DropWhile(data[from..], kind)
    {
      assert data[index..][1..] == data[index + 1..];
      TakesOne(data[index..], kind);
      assert data[from..index] + ([data[index]] + TakeWhile(data[index + 1..], kind))
          == data[from..index + 1] + TakeWhile(data[index + 1..], kind);
      index := index + 1;
    }
    StopsHere(data[index..], kind);
    assert data[from..index] + "" == data[from..index];
  }

  lemma TakesOne(s: string, kind: Class)
    requires s != "" && Has(kind, s[0])
    ensures TakeWhile(s, kind) == [s[0]] + TakeWhile(s[1..], kind) && DropWhile(s, kind) == DropWhile(s[1..], kind)
  {
  }

  lemma StopsHere(s: string, kind: Class)
    requires s != "" ==> !Has(kind, s[0])
    ensures TakeWhile(s, kind) == "" && DropWhile(s, kind) == s
  {
  }

  /** The loop over a quoted value. */
  method ScanQuoted(data: string, from: nat) returns (value: string, index: nat)
    requires from <= |data|
    ensures from <= index <= |data| && Unquote(data[from..]) == (value, data[index..])
  {
    value, index := "", from;
    ghost var all := Unquote(data[from..]);
    assert "" + all.0 == all.0;
    while index < |data|
      invariant from <= index <= |data|
      invariant all == (value + Unquote(data[index..]).0, Unquote(data[index..]).1)
      decreases |data| - index
    {
      ghost var rest := data[index..];
      assert rest[1..] == data[index + 1..];
      if data[index] == '\\' && index + 1 < |data| {
        assert rest[2..] == data[index + 2..];
        assert value + ([data[index + 1]] + Unquote(rest[2..]).0) == (value + [data[index + 1]]) + Unquote(rest[2..]).0;
        value := value + [data[index + 1]];
        index := index + 2;
      } else if data[index] == '"' {
        index := index + 1;
        assert value + "" == value;
        return;
      } else {
        assert value + ([data[index]] + Unquote(rest[1..]).0) == (value + [data[index]]) + Unquote(rest[1..]).0;
        value := value + [data[index]];
        index := index + 1;
      }
    }
    assert value + "" == value;
  }

  /** The parser as the program runs it: an index that moves through the text. */
  method ParseDigestParams(value: string) returns (params: Params)
    ensures params == ParseParams(value)
  {
    hide Strip, LeftStrip, Lower, TakeWhile, DropWhile, Unquote;
    var data := WithoutScheme(value);
    params := map[];
    var index := 0;
    assert data[0..] == data;
    while index < |data|
      invariant index <= |data|
      invariant ParseRest(data[index..], params) == ParseParams(value)
      decreases |data| - index
    {
      var keyStart := Scan(data, index, Separator);
      NothingLeft(params);
      if keyStart >= |data| {
        break;
      }
      index, params := ParseOne(data, index, keyStart, params);
    }
    NothingLeft(params);
    assert data[|data|..] == "";
  }

  lemma NothingLeft(params: Params)
    ensures ParseRest("", params) == params
  {
  }

  /** One turn of the main loop. */
  method ParseOne(data: string, from: nat, keyStart: nat, params: Params) returns (index: nat, params': Params)
    requires from <= keyStart < |data| && data[keyStart..] == DropWhile(data[from..], Separator)
    ensures from < index <= |data| && ParseRest(data[index..], params') == ParseRest(data[from..], params)
  {
    hide Strip, TakeWhile, DropWhile, Put, Value, PastComma, ParseRest;
    var keyEnd := Scan(data, keyStart, InKey);
    var key := Strip(data[keyStart..keyEnd]);
    index := Scan(data, keyEnd, Space);
    ghost var s := data[from..];
    if index >= |data| || data[index] != '=' {
      TurnWithout(s, params);
      index := Scan(data, index, InValue);
      return index, params;
    }
    TurnWith(s, params);
    assert data[index..][1..] == data[index + 1..];
    var parsed;
    parsed, index := ParseValue(data, index + 1);
    params' := Put(params, key, parsed);
    var comma := Scan(data, index, InValue);
    assert comma < |data| ==> data[comma..][1..] == data[comma + 1..];
    index := if comma < |data| then comma + 1 else comma;
    assert PastComma(Value(DropWhile(DropWhile(DropWhile(s, Separator), InKey), Space)[1..]).1) == data[index..] by {
      PastCommaIs(data, index, comma, Value(DropWhile(DropWhile(DropWhile(s, Separator), InKey), Space)[1..]).1);
    }
  }

  lemma PastCommaIs(data: string, index: nat, comma: nat, s: string)
    requires comma <= |data| && DropWhile(s, InValue) == data[comma..] && index == if comma < |data| then comma + 1 else comma
    ensures PastComma(s) == data[index..]
  {
    hide DropWhile;
    assert comma < |data| ==> data[comma..][1..] == data[comma + 1..];
  }

  lemma TurnWithout(s: string, params: Params)
    requires DropWhile(s, Separator) != ""
    requires var u := DropWhile(DropWhile(DropWhile(s, Separator), InKey), Space); u == "" || u[0] != '='
    ensures var u := DropWhile(DropWhile(DropWhile(s, Separator), InKey), Space);
            ParseRest(s, params) == ParseRest(DropWhile(u, InValue), params) && |DropWhile(u, InValue)| < |s|
  {
    hide TakeWhile, DropWhile;
    Advances(DropWhile(s, Separator));
  }

  lemma TurnWith(s: string, params: Params)
    requires DropWhile(s, Separator) != ""
    requires var u := DropWhile(DropWhile(DropWhile(s, Separator), InKey), Space); u != "" && u[0] == '='
    ensures var t := DropWhile(s, Separator);
            var u := DropWhile(DropWhile(t, InKey), Space);
            var v := Value(u[1..]);
            ParseRest(s, params) == ParseRest(PastComma(v.1), Put(params, Strip(TakeWhile(t, InKey)), v.0))
  {
    hide Strip, TakeWhile, DropWhile, Put, Value, PastComma;
  }

  method ParseValue(data: string, from: nat) returns (value: string, index: nat)
    requires from <= |data|
    ensures from <= index <= |data| && Value(data[from..]) == (value, data[index..])
  {
    hide Strip, TakeWhile, DropWhile, Unquote;
    index := Scan(data, from, Space);
    if index < |data| && data[index] == '"' {
      assert data[index..][1..] == data[index + 1..];
      value, index := ScanQuoted(data, index + 1);
    } else {
      var valueStart := index;
      index := Scan(data, index, InValue);
      value := Strip(data[valueStart..index]);
    }
  }
}
