/** What a challenge's text offers: the words of its qop list and the name of its algorithm, in any case, spacing and quotes. */
module DigestOffers {
  import opened Bytes
  import opened DigestParams
  import opened Digest

  // ------------------------------------------------------------------ white space and quotes

  predicate Spaces(s: string, from: nat, to: nat)
    requires from <= to <= |s|
  {
    forall k :: from <= k < to ==> IsSpace(s[k])
  }

  predicate Quotes(s: string, from: nat, to: nat)
    requires from <= to <= |s|
  {
    forall k :: from <= k < to ==> s[k] == '"'
  }

  /** `s[a..b]` is what is left of `s` without the white space around it. */
  predicate Bare(s: string, a: nat, b: nat) {
    && a <= b <= |s| && Spaces(s, 0, a) && Spaces(s, b, |s|)
    && (a < b ==> !IsSpace(s[a]) && !IsSpace(s[b - 1]))
  }

  /** `s[i..j]` is what is left of `s` without the white space around it and then without the quotes around that. */
  ghost predicate Inner(s: string, i: nat, j: nat) {
    i <= j <= |s| && exists a: nat, b: nat :: Within(s, a, i, j, b)
  }

  predicate Within(s: string, a: nat, i: nat, j: nat, b: nat) {
    && Bare(s, a, b) && a <= i <= j <= b && Quotes(s, a, i) && Quotes(s, j, b)
    && (i < j ==> s[i] != '"' && s[j - 1] != '"')
  }

  lemma {:induction false} LeftStripIs(s: string, a: nat)
    requires a <= |s| && Spaces(s, 0, a) && (a < |s| ==> !IsSpace(s[a]))
    ensures LeftStrip(s) == s[a..]
  {
    if a > 0 {
      LeftStripIs(s[1..], a - 1);
    }
  }

  lemma {:induction false} RightStripIs(s: string, b: nat)
    requires b <= |s| && Spaces(s, b, |s|) && (b > 0 ==> !IsSpace(s[b - 1]))
    ensures RightStrip(s) == s[..b]
  {
    if b < |s| {
      RightStripIs(s[..|s| - 1], b);
      assert s[..|s| - 1][..b] == s[..b];
    }
  }

  lemma StripIs(s: string, a: nat, b: nat)
    requires Bare(s, a, b)
    ensures Strip(s) == s[a..b]
  {
    if a == b {
      assert Spaces(s, 0, |s|);
      LeftStripIs(s, |s|);
    } else {
      LeftStripIs(s, a);
      RightStripIs(s[a..], b - a);
      assert s[a..][..b - a] == s[a..b];
    }
  }

  lemma {:induction false} SomeLeft(s: string) returns (a: nat)
    ensures a <= |s| && Spaces(s, 0, a) && (a < |s| ==> !IsSpace(s[a]))
  {
    a := 0;
    while a < |s| && IsSpace(s[a])
      invariant a <= |s| && Spaces(s, 0, a)
    {
      a := a + 1;
    }
  }

  lemma SomeBare(s: string) returns (a: nat, b: nat)
    ensures Bare(s, a, b)
  {
    a := SomeLeft(s);
    b := |s|;
    while b > a && IsSpace(s[b - 1])
      invariant a <= b <= |s| && Spaces(s, b, |s|)
    {
      b := b - 1;
    }
  }

  lemma SomeInner(s: string) returns (i: nat, j: nat)
    ensures Inner(s, i, j) && i <= j <= |s|
  {
    var a, b := SomeBare(s);
    i := a;
    while i < b && s[i] == '"'
      invariant a <= i <= b && Quotes(s, a, i)
    {
      i := i + 1;
    }
    j := b;
    while i < j && s[j - 1] == '"'
      invariant i <= j <= b && Quotes(s, j, b)
    {
      j := j - 1;
    }
    assert Within(s, a, i, j, b);
  }

  lemma {:induction false} StripQuotesIs(s: string, i: nat, j: nat)
    requires i <= j <= |s| && Quotes(s, 0, i) && Quotes(s, j, |s|) && (i < j ==> s[i] != '"' && s[j - 1] != '"')
    ensures StripQuotes(s) == s[i..j]
    decreases |s|
  {
    if s != "" && s[0] == '"' {
      if i > 0 {
        StripQuotesIs(s[1..], i - 1, j - 1);
        assert s[1..][i - 1..j - 1] == s[i..j];
      } else {
        assert j == 0;
        StripQuotesIs(s[1..], 0, 0);
      }
    } else if s != "" && s[|s| - 1] == '"' {
      assert i == 0;
      if j < |s| {
        StripQuotesIs(s[..|s| - 1], i, j);
        assert s[..|s| - 1][i..j] == s[i..j];
      }
    }
  }

  lemma InnerIs(s: string, i: nat, j: nat)
    requires Inner(s, i, j)
    ensures i <= j <= |s| && StripQuotes(Strip(s)) == s[i..j]
  {
    var a: nat, b: nat :| Within(s, a, i, j, b);
    StripIs(s, a, b);
    var t := s[a..b];
    hide Strip, StripQuotes, IsSpace;
    StripQuotesIs(t, i - a, j - a);
    Narrowed(s, a, i, j, b);
  }

  lemma Narrowed(s: string, a: nat, i: nat, j: nat, b: nat)
    requires a <= i <= j <= b <= |s|
    ensures s[a..b][i - a..j - a] == s[i..j]
  {
    var t := s[a..b];
    forall k | 0 <= k < j - i
      ensures t[i - a..j - a][k] == s[i..j][k]
    {
      assert t[i - a..j - a][k] == t[i - a + k];
    }
  }

  // ------------------------------------------------------------------ words of a list

  /** One letter for another in upper or lower case. */
  predicate SameLetter(c: char, d: char) {
    c == d || ('A' <= c <= 'Z' && d as int == c as int + 32)
  }

  /** A word that a list item can consist of, in lower case. */
  predicate IsWord(word: string) {
    word != "" && forall k :: 0 <= k < |word| ==> !IsSpace(word[k]) && word[k] != ',' && !('A' <= word[k] <= 'Z')
  }

  /** `s[i..j]` is the word, in any case, with white space around it. */
  predicate Item(s: string, i: nat, a: nat, j: nat, word: string) {
    && i <= a && a + |word| <= j <= |s| && Spaces(s, i, a) && Spaces(s, a + |word|, j)
    && forall k :: 0 <= k < |word| ==> SameLetter(s[a + k], word[k])
  }

  /** Between two commas, or a comma and an end of the list. */
  predicate Between(s: string, i: nat, j: nat) {
    i <= j <= |s| && (i > 0 ==> s[i - 1] == ',') && (j < |s| ==> s[j] == ',')
  }

  /** The word is an item of the list. */
  ghost predicate Lists(s: string, word: string) {
    exists i: nat, a: nat, j: nat :: Between(s, i, j) && Item(s, i, a, j, word)
  }

  /** There is nothing in the list. */
  predicate Empty(s: string) {
    forall k :: 0 <= k < |s| ==> s[k] == ',' || IsSpace(s[k])
  }

  lemma LowerSame(c: char, d: char)
    requires !('A' <= d <= 'Z')
    ensures LowerChar(c) == d <==> SameLetter(c, d)
  {
  }

  lemma {:induction false} LowerAt(s: string, k: nat)
    requires k < |s|
    ensures Lower(s)[k] == LowerChar(s[k])
  {
    if k > 0 {
      LowerAt(s[1..], k - 1);
    }
  }

  /** An item of the list, its case and the white space around it taken away. */
  lemma ItemIff(s: string, word: string)
    requires IsWord(word)
    ensures Lower(Strip(s)) == word <==> exists a: nat :: Item(s, 0, a, |s|, word)
  {
    hide Lower, Strip;
    var a, b := SomeBare(s);
    StripIs(s, a, b);
    var t := s[a..b];
    if Lower(t) == word {
      forall k | 0 <= k < |word|
        ensures SameLetter(s[a + k], word[k])
      {
        LowerAt(t, k);
        LowerSame(t[k], word[k]);
      }
      assert Item(s, 0, a, |s|, word);
    }
    if x: nat :| Item(s, 0, x, |s|, word) {
      WordIsBare(s, x, word);
      SameBare(s, a, b, x, x + |word|);
      forall k | 0 <= k < |word|
        ensures Lower(t)[k] == word[k]
      {
        LowerAt(t, k);
        LowerSame(t[k], word[k]);
      }
      assert Lower(t) == word;
    }
  }

  lemma WordIsBare(s: string, x: nat, word: string)
    requires IsWord(word) && Item(s, 0, x, |s|, word)
    ensures Bare(s, x, x + |word|)
  {
    var n := |word| - 1;
    assert SameLetter(s[x + 0], word[0]) && SameLetter(s[x + n], word[n]);
  }

  lemma SameBare(s: string, a: nat, b: nat, x: nat, y: nat)
    requires Bare(s, a, b) && Bare(s, x, y) && x < y
    ensures a == x && b == y
  {
    assert !IsSpace(s[x]) && !IsSpace(s[y - 1]);
    assert a <= x && y <= b;
    assert !IsSpace(s[a]) && !IsSpace(s[b - 1]);
  }

  /** Where the first item ends. */
  lemma {:induction false} FirstItem(s: string) returns (c: nat)
    ensures c <= |s| && TakeWhile(s, InValue) == s[..c] && DropWhile(s, InValue) == s[c..]
    ensures (forall k :: 0 <= k < c ==> s[k] != ',') && (c < |s| ==> s[c] == ',')
  {
    if s == "" || s[0] == ',' {
      c := 0;
    } else {
      var d := FirstItem(s[1..]);
      c := d + 1;
      assert s[..c] == [s[0]] + s[1..][..d] && s[c..] == s[1..][d..];
    }
  }

  lemma ItemHasNoComma(s: string, i: nat, a: nat, j: nat, word: string, k: nat)
    requires IsWord(word) && Item(s, i, a, j, word) && i <= k < j
    ensures s[k] != ','
  {
    if a <= k < a + |word| {
      assert SameLetter(s[a + (k - a)], word[k - a]);
    }
  }

  /** `c` is where the first item ends. */
  predicate EndsFirst(s: string, c: nat) {
    c <= |s| && (forall k :: 0 <= k < c ==> s[k] != ',') && (c < |s| ==> s[c] == ',')
  }

  lemma ListedFirstOrLater(s: string, c: nat, word: string, i: nat, a: nat, j: nat)
    requires IsWord(word) && EndsFirst(s, c) && Between(s, i, j) && Item(s, i, a, j, word)
    ensures if i == 0 then Item(s[..c], 0, a, c, word)
            else c < i <= a && i <= j && Item(s[c + 1..], i - c - 1, a - c - 1, j - c - 1, word) && Between(s[c + 1..], i - c - 1, j - c - 1)
  {
    if i == 0 {
      if c < j {
        ItemHasNoComma(s, i, a, j, word, c);
      }
      ItemMoves(s, i, a, j, s[..c], 0, word);
    } else {
      ItemMoves(s, i, a, j, s[c + 1..], c + 1, word);
    }
  }

  lemma FirstIsListed(s: string, c: nat, word: string, a: nat)
    requires EndsFirst(s, c) && Item(s[..c], 0, a, c, word)
    ensures Lists(s, word)
  {
    ItemStands(s[..c], 0, a, c, s, 0, word);
    assert Between(s, 0, c);
  }

  lemma LaterIsListed(s: string, c: nat, word: string)
    requires c < |s| && s[c] == ',' && Lists(s[c + 1..], word)
    ensures Lists(s, word)
  {
    var t := s[c + 1..];
    var i: nat, a: nat, j: nat :| Between(t, i, j) && Item(t, i, a, j, word);
    ItemStands(t, i, a, j, s, c + 1, word);
    assert Between(s, i + (c + 1), j + (c + 1));
  }

  /** A word is listed as the first item or after it. */
  lemma ListsIff(s: string, c: nat, word: string)
    requires IsWord(word) && EndsFirst(s, c)
    ensures Lists(s, word) <==> (exists a: nat :: Item(s[..c], 0, a, c, word)) || (c < |s| && Lists(s[c + 1..], word))
  {
    if Lists(s, word) {
      var i: nat, a: nat, j: nat :| Between(s, i, j) && Item(s, i, a, j, word);
      ListedFirstOrLater(s, c, word, i, a, j);
      if i > 0 {
        assert Lists(s[c + 1..], word);
      }
    }
    hide Item, Between, Lists;
    if a: nat :| Item(s[..c], 0, a, c, word) {
      FirstIsListed(s, c, word, a);
    }
    if c < |s| && Lists(s[c + 1..], word) {
      LaterIsListed(s, c, word);
    }
  }

  /** `t` is a part of `s`, from `d` on. */
  predicate PartOf(t: string, s: string, d: nat) {
    d + |t| <= |s| && t == s[d..d + |t|]
  }

  lemma ItemMoves(s: string, i: nat, a: nat, j: nat, t: string, d: nat, word: string)
    requires Item(s, i, a, j, word) && d <= i && j <= d + |t| <= |s| && PartOf(t, s, d)
    ensures Item(t, i - d, a - d, j - d, word)
  {
    forall k | i - d <= k < j - d
      ensures t[k] == s[k + d]
    {
    }
    forall k | 0 <= k < |word|
      ensures SameLetter(t[a - d + k], word[k])
    {
      assert t[a - d + k] == s[a + k];
    }
  }

  lemma ItemStands(t: string, i: nat, a: nat, j: nat, s: string, d: nat, word: string)
    requires Item(t, i, a, j, word) && PartOf(t, s, d)
    ensures Item(s, i + d, a + d, j + d, word)
  {
    forall k | i + d <= k < j + d
      ensures s[k] == t[k - d]
    {
    }
    forall k | 0 <= k < |word|
      ensures SameLetter(s[a + d + k], word[k])
    {
      assert s[a + d + k] == t[a + k];
    }
  }

  lemma {:induction false} TokensList(s: string, word: string)
    requires IsWord(word)
    ensures word in Tokens(s) <==> Lists(s, word)
    decreases |s|
  {
    assert word != "";
    hide Strip, Lower, Lists, IsWord;
    var c := FirstItem(s);
    ItemIff(s[..c], word);
    ListsIff(s, c, word);
    if c < |s| {
      assert s[c..][1..] == s[c + 1..];
      TokensList(s[c + 1..], word);
    }
    TokensStep(s, c, word);
  }

  /** The first item, if there is anything in it, and then the items after the comma. */
  lemma TokensAre(s: string, c: nat)
    requires c <= |s| && TakeWhile(s, InValue) == s[..c] && DropWhile(s, InValue) == s[c..]
    ensures var first := Lower(Strip(s[..c]));
            Tokens(s) == (if first == "" then [] else [first]) + (if c == |s| then [] else Tokens(s[c + 1..]))
  {
    hide Strip, Lower, TakeWhile, DropWhile;
    if c < |s| {
      assert s[c..][1..] == s[c + 1..];
    }
  }

  lemma TokensStep(s: string, c: nat, word: string)
    requires word != "" && c <= |s| && TakeWhile(s, InValue) == s[..c] && DropWhile(s, InValue) == s[c..]
    ensures word in Tokens(s) <==> Lower(Strip(s[..c])) == word || (c < |s| && word in Tokens(s[c + 1..]))
  {
    TokensAre(s, c);
    hide *;
  }

  lemma EmptyStep(s: string, c: nat)
    requires EndsFirst(s, c)
    ensures Empty(s) <==> (forall k :: 0 <= k < c ==> IsSpace(s[..c][k])) && (c == |s| || Empty(s[c + 1..]))
  {
    hide IsSpace;
    assert forall k :: 0 <= k < c ==> s[..c][k] == s[k];
    if c < |s| {
      var rest := s[c + 1..];
      assert forall k :: 0 <= k < |rest| ==> rest[k] == s[k + c + 1];
      assert forall k :: c < k < |s| ==> s[k] == rest[k - c - 1];
    }
  }

  lemma {:induction false} NoTokensIff(s: string)
    ensures Tokens(s) == [] <==> Empty(s)
    decreases |s|
  {
    var c := FirstItem(s);
    TokensAre(s, c);
    BlankIff(s[..c]);
    EmptyStep(s, c);
    hide Strip, Lower, IsSpace, Tokens, Empty, TakeWhile, DropWhile;
    if c < |s| {
      NoTokensIff(s[c + 1..]);
    }
  }

  lemma BlankIff(s: string)
    ensures Lower(Strip(s)) == "" <==> forall k :: 0 <= k < |s| ==> IsSpace(s[k])
  {
    hide Lower, Strip;
    var a, b := SomeBare(s);
    StripIs(s, a, b);
  }
}
