/** Digest parameters however they are spaced, quoted, capitalised and interspersed: what the parser makes of them. */
module DigestLayout {
  import opened Bytes
  import opened DigestParams
  import opened DigestPrinting
  import opened DigestOffers

  /** A value as it is written. */
  datatype Written = InQuotes(text: string) | Plainly(text: string)

  /** An item of the list: a parameter, or something without an equals sign. */
  datatype Item =
    | Param(lead: string, key: string, before: string, after: string, value: Written, trail: string)
    | Loose(lead: string, word: string, rest: string)

  predicate All(s: string, chars: string) {
    forall i :: 0 <= i < |s| ==> s[i] in chars
  }

  predicate NoComma(s: string) {
    forall i :: 0 <= i < |s| ==> s[i] != ','
  }

  /** Nothing that ends a key, and no white space at its ends. */
  predicate IsKey(s: string) {
    && s != "" && (forall i :: 0 <= i < |s| ==> s[i] !in "=, \t\r\n")
    && !IsSpace(s[0]) && !IsSpace(s[|s| - 1])
  }

  predicate GoodValue(v: Written, trail: string) {
    match v
    case InQuotes(_) => NoComma(trail)
    case Plainly(text) =>
      && NoComma(text) && Spaces(trail, 0, |trail|)
      && (text != "" ==> !IsSpace(text[0]) && !IsSpace(text[|text| - 1]) && text[0] != '"')
  }

  predicate GoodItem(i: Item) {
    match i
    case Param(lead, key, before, after, value, trail) =>
      && All(lead, " \t\r\n,") && IsKey(key) && All(before, " \t\r\n") && Spaces(after, 0, |after|) && GoodValue(value, trail)
    case Loose(lead, word, rest) =>
      && All(lead, " \t\r\n,") && word != "" && (forall k :: 0 <= k < |word| ==> word[k] !in "=, \t\r\n")
      && NoComma(rest) && (rest != "" ==> rest[0] in " \t\r\n") && (forall k :: 0 <= k < |rest| && Spaces(rest, 0, k) ==> rest[k] != '=')
  }

  function ValueText(v: Written): string {
    match v case InQuotes(text) => "\"" + Quote(text) + "\"" case Plainly(text) => text
  }

  function ItemText(i: Item): string {
    match i
    case Param(lead, key, before, after, value, trail) => lead + key + before + "=" + after + ValueText(value) + trail
    case Loose(lead, word, rest) => lead + word + rest
  }

  /** Items with commas between them. */
  function Laid(items: seq<Item>): string {
    if items == [] then "" else ItemText(items[0]) + if |items| == 1 then "" else "," + Laid(items[1..])
  }

  /** The parameters assigned one after another, keys in small letters. */
  function Assigning(params: Params, items: seq<Item>): Params
    decreases |items|
  {
    if items == [] then params
    else Assigning(if items[0].Param? then params[Lower(items[0].key) := items[0].value.text] else params, items[1..])
  }

  // ------------------------------------------------------------------ scanning

  lemma SeparatorsPass(lead: string, rest: string)
    requires All(lead, " \t\r\n,") && rest != "" && rest[0] !in " \t\r\n,"
    ensures DropWhile(lead + rest, Separator) == rest
  {
    Passes(lead, rest, Separator);
  }

  lemma SpacesPass(s: string, rest: string)
    requires Spaces(s, 0, |s|) && (rest == "" || !IsSpace(rest[0]))
    ensures DropWhile(s + rest, Space) == rest
  {
    Passes(s, rest, Space);
  }

  lemma KeyPasses(word: string, rest: string)
    requires (forall i :: 0 <= i < |word| ==> word[i] !in "=, \t\r\n") && (rest == "" || rest[0] in "=, \t\r\n")
    ensures TakeWhile(word + rest, InKey) == word && DropWhile(word + rest, InKey) == rest
  {
    Passes(word, rest, InKey);
  }

  lemma CommaStops(s: string, rest: string)
    requires NoComma(s) && (rest == "" || rest[0] == ',')
    ensures TakeWhile(s + rest, InValue) == s && DropWhile(s + rest, InValue) == rest
  {
    Passes(s, rest, InValue);
  }

  lemma AreSpaces(s: string)
    requires All(s, " \t\r\n")
    ensures Spaces(s, 0, |s|)
  {
  }

  /** The value after the equals sign. */
  lemma ReadsWritten(after: string, v: Written, trail: string, more: string)
    requires Spaces(after, 0, |after|) && GoodValue(v, trail) && (more == "" || more[0] == ',')
    ensures var r := Value(after + (ValueText(v) + trail + more));
            r.0 == v.text && PastComma(r.1) == if more == "" then "" else more[1..]
  {
    match v
    case InQuotes(text) =>
      ReadsQuoted(after, text, trail, more);
    case Plainly(text) =>
      ReadsPlain(after, text, trail, more);
  }

  lemma ReadsQuoted(after: string, text: string, trail: string, more: string)
    requires Spaces(after, 0, |after|) && NoComma(trail) && (more == "" || more[0] == ',')
    ensures var r := Value(after + ("\"" + Quote(text) + "\"" + trail + more));
            r.0 == text && PastComma(r.1) == if more == "" then "" else more[1..]
  {
    hide Spaces, Quote, Unquote, NoComma, TakeWhile, DropWhile, Strip;
    var rest := trail + more;
    var s := "\"" + (Quote(text) + "\"" + rest);
    assert "\"" + Quote(text) + "\"" + trail + more == s;
    SpacesPass(after, s);
    assert s[1..] == Quote(text) + "\"" + rest;
    QuoteRoundTrip(text, rest);
    CommaStops(trail, more);
  }

  lemma ReadsPlain(after: string, text: string, trail: string, more: string)
    requires Spaces(after, 0, |after|) && GoodValue(Plainly(text), trail) && (more == "" || more[0] == ',')
    ensures var r := Value(after + (text + trail + more));
            r.0 == text && PastComma(r.1) == if more == "" then "" else more[1..]
  {
    var gap := if text == "" then after + trail else after;
    var val := if text == "" then "" else text + trail;
    assert after + (text + trail + more) == gap + (val + more);
    assert Spaces(gap, 0, |gap|);
    assert NoComma(val) by { SpacesHaveNoComma(trail); }
    var s := val + more;
    assert s != "" ==> s[0] == if val == "" then more[0] else text[0];
    TrailStrips(text, trail);
    hide Spaces, NoComma, TakeWhile, DropWhile, Strip;
    SpacesPass(gap, s);
    CommaStops(val, more);
    CommaStops("", more);
    assert "" + more == more;
    StripsEmpty();
  }

  lemma StripsEmpty()
    ensures Strip("") == "" && NoComma("")
  {
  }

  lemma SpacesHaveNoComma(s: string)
    requires Spaces(s, 0, |s|)
    ensures NoComma(s)
  {
  }

  lemma TrailStrips(text: string, trail: string)
    requires Spaces(trail, 0, |trail|) && (text != "" ==> !IsSpace(text[0]) && !IsSpace(text[|text| - 1]))
    ensures text != "" ==> Strip(text + trail) == text
  {
    if text != "" {
      var s := text + trail;
      assert Bare(s, 0, |text|);
      StripIs(s, 0, |text|);
      assert s[0..|text|] == text;
    }
  }

  // ------------------------------------------------------------------ parsing

  lemma ParamParses(i: Item, more: string, params: Params)
    requires i.Param? && GoodItem(i) && (more == "" || more[0] == ',')
    ensures ParseRest(ItemText(i) + more, params)
            == ParseRest(if more == "" then "" else more[1..], params[Lower(i.key) := i.value.text])
  {
    hide Quote, ValueText, Spaces, All, GoodValue, Strip, TakeWhile, DropWhile, Value, PastComma, ParseRest, Lower, Put;
    var Param(lead, key, before, after, value, trail) := i;
    var tail := after + (ValueText(value) + trail + more);
    var u := "=" + tail;
    var t := key + (before + u);
    var s := lead + t;
    Regroups(lead, key, before, after, ValueText(value), trail, more);
    assert ItemText(i) + more == s;
    SeparatorsPass(lead, t);
    BeginsGap(before, u);
    KeyPasses(key, before + u);
    AreSpaces(before);
    SpacesPass(before, u);
    StripsNothing(key);
    TurnWith(s, params);
    assert u[1..] == tail;
    ReadsWritten(after, value, trail, more);
    PutIs(params, key, value.text);
  }

  lemma PutIs(params: Params, key: string, value: string)
    requires key != ""
    ensures Put(params, key, value) == params[Lower(key) := value]
  {
  }

  lemma Regroups(lead: string, key: string, before: string, after: string, value: string, trail: string, more: string)
    ensures lead + key + before + "=" + after + value + trail + more == lead + (key + (before + ("=" + (after + (value + trail + more)))))
  {
  }

  lemma BeginsGap(before: string, u: string)
    requires All(before, " \t\r\n") && u != "" && u[0] == '='
    ensures before + u != "" && (before + u)[0] in "=, \t\r\n"
  {
    if before != "" {
      assert before[0] in " \t\r\n";
    }
  }

  lemma LooseParses(i: Item, more: string, params: Params)
    requires i.Loose? && GoodItem(i) && (more == "" || more[0] == ',')
    ensures ParseRest(ItemText(i) + more, params) == ParseRest(if more == "" then "" else more[1..], params)
  {
    var Loose(lead, word, rest) := i;
    var t, after := word + (rest + more), rest + more;
    var s := lead + t;
    assert ItemText(i) + more == s;
    assert after == "" || after[0] in "=, \t\r\n";
    var c := PastSpaces(rest, more);
    var u := rest[c..] + more;
    assert NoComma(rest[c..]);
    hide Spaces, All, Strip, TakeWhile, DropWhile, Value, PastComma, ParseRest, NoComma;
    SeparatorsPass(lead, t);
    KeyPasses(word, after);
    TurnWithout(s, params);
    CommaStops(rest[c..], more);
    CommaDrops(more, params);
  }

  /** After the word: what the white space leads to is no equals sign. */
  lemma PastSpaces(rest: string, more: string) returns (c: nat)
    requires (forall k :: 0 <= k < |rest| && Spaces(rest, 0, k) ==> rest[k] != '=') && (more == "" || more[0] == ',')
    ensures c <= |rest| && DropWhile(rest + more, Space) == rest[c..] + more
    ensures var u := rest[c..] + more; u == "" || u[0] != '='
  {
    c := SomeLeft(rest);
    assert rest + more == rest[..c] + (rest[c..] + more);
    var u := rest[c..] + more;
    assert u != "" ==> u[0] == if c < |rest| then rest[c] else more[0];
    assert Spaces(rest[..c], 0, c);
    hide Spaces;
    SpacesPass(rest[..c], u);
  }

  lemma CommaDrops(more: string, params: Params)
    requires more == "" || more[0] == ','
    ensures ParseRest(more, params) == ParseRest(if more == "" then "" else more[1..], params)
  {
    if more != "" {
      DropsOne(more);
      SameRest(more, more[1..], params);
    }
  }

  lemma DropsOne(more: string)
    requires more != "" && more[0] == ','
    ensures DropWhile(more, Separator) == DropWhile(more[1..], Separator)
  {
  }

  lemma SameRest(s: string, t: string, params: Params)
    requires DropWhile(s, Separator) == DropWhile(t, Separator)
    ensures ParseRest(s, params) == ParseRest(t, params)
  {
    hide Strip, TakeWhile, Value, Put, PastComma;
  }

  /**
   Parameters separated by commas, with any white space and further commas around them, in quotes or not, their keys in
   any case, and things without an equals sign in between: each parameter is assigned its value under its key in
   small letters, later ones over earlier ones, and nothing else is.
   */
  lemma {:induction false} LaidOutParses(items: seq<Item>, params: Params)
    requires forall i :: i in items ==> GoodItem(i)
    ensures ParseRest(Laid(items), params) == Assigning(params, items)
  {
    hide GoodItem, ParseRest, ItemText, Lower;
    if items == [] {
      NothingLeft(params);
    } else {
      var i, rest := items[0], items[1..];
      var more := if |items| == 1 then "" else "," + Laid(rest);
      assert i in items && forall j :: j in rest ==> j in items;
      assert more != "" ==> more[1..] == Laid(rest);
      assert |items| == 1 ==> rest == [] && Laid(rest) == "";
      var next := if i.Param? then params[Lower(i.key) := i.value.text] else params;
      if i.Param? {
        ParamParses(i, more, params);
      } else {
        LooseParses(i, more, params);
      }
      LaidOutParses(rest, next);
    }
  }

  /** The scheme before the parameters, in any case, and the white space around it. */
  lemma SchemeIsDropped(before: string, scheme: string, gap: string, data: string, after: string)
    requires Spaces(before, 0, |before|) && Spaces(gap, 0, |gap|) && Spaces(after, 0, |after|)
    requires data != "" && !IsSpace(data[0]) && !IsSpace(data[|data| - 1])
    requires |scheme| == 6 && forall k :: 0 <= k < 6 ==> SameLetter(scheme[k], "digest"[k])
    ensures ParseParams(before + scheme + gap + data + after) == ParseRest(data, map[])
  {
    hide *;
    var inner, value := scheme + gap + data, before + scheme + gap + data + after;
    assert value == before + inner + after;
    SchemeLeads(scheme, gap, data);
    StripsAround(before, inner, after);
    WithoutSchemeIs(value, inner, data);
    ParseIs(value, data);
  }

  lemma SchemeLeads(scheme: string, gap: string, data: string)
    requires |scheme| == 6 && (forall k :: 0 <= k < 6 ==> SameLetter(scheme[k], "digest"[k])) && Spaces(gap, 0, |gap|)
    requires data != "" && !IsSpace(data[0]) && !IsSpace(data[|data| - 1])
    ensures var inner := scheme + gap + data;
            && |inner| > 6 && Lower(inner[..6]) == "digest" && LeftStrip(inner[6..]) == data
            && !IsSpace(inner[0]) && !IsSpace(inner[|inner| - 1])
  {
    var inner := scheme + gap + data;
    assert SameLetter(scheme[0], "digest"[0]) && inner[0] == scheme[0] && inner[|inner| - 1] == data[|data| - 1];
    assert inner[..6] == scheme && inner[6..] == gap + data;
    hide Lower, LeftStrip;
    LowersTo(scheme, "digest");
    LeftStripIs(gap + data, |gap|);
    assert (gap + data)[|gap|..] == data;
  }

  lemma StripsAround(before: string, inner: string, after: string)
    requires Spaces(before, 0, |before|) && Spaces(after, 0, |after|)
    requires inner != "" && !IsSpace(inner[0]) && !IsSpace(inner[|inner| - 1])
    ensures Strip(before + inner + after) == inner
  {
    var all := before + inner + after;
    assert Bare(all, |before|, |before| + |inner|);
    assert all[|before|..|before| + |inner|] == inner;
    hide Strip;
    StripIs(all, |before|, |before| + |inner|);
  }

  lemma WithoutSchemeIs(value: string, inner: string, data: string)
    requires Strip(value) == inner && |inner| > 6 && Lower(inner[..6]) == "digest" && LeftStrip(inner[6..]) == data
    ensures WithoutScheme(value) == data
  {
    hide Strip, Lower, LeftStrip;
  }

  lemma LowersTo(s: string, word: string)
    requires |s| == |word| && forall k :: 0 <= k < |s| ==> SameLetter(s[k], word[k]) && !('A' <= word[k] <= 'Z')
    ensures Lower(s) == word
  {
    forall k | 0 <= k < |s|
      ensures Lower(s)[k] == word[k]
    {
      LowerAt(s, k);
      LowerSame(s[k], word[k]);
    }
  }
}
