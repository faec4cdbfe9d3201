/** The regular expression matcher of user/grep.c against a meaning by decomposition of the text. */
module Grep {
  /** A C string without its terminating NUL. */
  type CString = s: seq<char> | '\0' !in s

  /** s[i] of the C string, whose last character is the NUL. */
  function At(s: CString, i: nat): (c: char)
    requires i <= |s|
  {
    if i < |s| then s[i] else '\0'
  }

  function Drop(s: CString, n: nat): (r: CString)
    requires n <= |s|
    ensures |r| == |s| - n
  {
    s[n..]
  }

  // ---- the meaning of an expression

  /** One character, or any number of characters, of a kind. */
  datatype Item = One(c: char) | Star(c: char)

  /** '.' stands for every character. */
  predicate Fits(c: char, x: char) { c == '.' || c == x }

  /** The words an item stands for. */
  predicate ItemLang(it: Item, w: seq<char>) {
    match it
    case One(c) => |w| == 1 && Fits(c, w[0])
    case Star(c) => forall i :: 0 <= i < |w| ==> Fits(c, w[i])
  }

  /** The items of an expression: "X*" binds first, then a "$" at the very end is an anchor, and every
      other character, a leading '*' or an inner '^' or '$' included, stands for itself. */
  function Items(re: CString): (items: seq<Item>) {
    if re == [] then []
    else if At(re, 1) == '*' then [Star(re[0])] + Items(Drop(re, 2))
    else if re == ['$'] then []
    else [One(re[0])] + Items(Drop(re, 1))
  }

  /** The expression ends with an anchor. */
  predicate Anchored(re: CString) {
    if re == [] then false
    else if At(re, 1) == '*' then Anchored(Drop(re, 2))
    else if re == ['$'] then true
    else Anchored(Drop(re, 1))
  }

  function Concat(parts: seq<seq<char>>): (w: seq<char>) {
    if parts == [] then [] else parts[0] + Concat(parts[1..])
  }

  /** w falls into parts, one for each item. */
  ghost predicate Splits(items: seq<Item>, parts: seq<seq<char>>, w: seq<char>) {
    |parts| == |items| && Concat(parts) == w && forall i :: 0 <= i < |items| ==> ItemLang(items[i], parts[i])
  }

  /** The words of a sequence of items. */
  ghost predicate InLang(items: seq<Item>, w: seq<char>) { exists parts :: Splits(items, parts, w) }

  /** text[i..n] is a word of the expression, and reaches the end of the text if the expression is
      anchored there. */
  ghost predicate MatchesAt(re: CString, text: seq<char>, i: int, n: int) {
    0 <= i <= n <= |text| && InLang(Items(re), text[i..n]) && (Anchored(re) ==> n == |text|)
  }

  /** The expression matches at the beginning of the text. */
  ghost predicate Here(re: CString, text: seq<char>) { exists n :: MatchesAt(re, text, 0, n) }

  /** The expression matches somewhere: at the beginning if it starts with '^'. */
  ghost predicate Matches(re: CString, text: seq<char>) {
    if re != [] && re[0] == '^' then Here(Drop(re, 1), text) else exists i, n :: MatchesAt(re, text, i, n)
  }

  // ---- how the meaning unfolds

  lemma LangNil(w: seq<char>)
    ensures InLang([], w) <==> w == []
  {
    if w == [] { assert Splits([], [], w); }
  }

  lemma LangCons(it: Item, items: seq<Item>, w: seq<char>, k: nat)
    requires k <= |w| && ItemLang(it, w[..k]) && InLang(items, w[k..])
    ensures InLang([it] + items, w)
  {
    var parts :| Splits(items, parts, w[k..]);
    var all := [w[..k]] + parts;
    assert all[1..] == parts;
    assert Splits([it] + items, all, w);
  }

  lemma LangUncons(it: Item, items: seq<Item>, w: seq<char>) returns (k: nat)
    requires InLang([it] + items, w)
    ensures k <= |w| && ItemLang(it, w[..k]) && InLang(items, w[k..])
  {
    var all: seq<Item> := [it] + items;
    var parts :| Splits(all, parts, w);
    k := |parts[0]|;
    assert w == parts[0] + Concat(parts[1..]);
    assert w[..k] == parts[0] && w[k..] == Concat(parts[1..]);
    assert ItemLang(all[0], parts[0]);
    forall i | 0 <= i < |items| ensures ItemLang(items[i], parts[1..][i]) {
      assert all[i + 1] == items[i];
    }
    assert Splits(items, parts[1..], w[k..]);
  }

  lemma HereNil(re: CString, text: seq<char>)
    requires re == []
    ensures Here(re, text)
  {
    LangNil([]);
    assert text[0..0] == [];
    assert MatchesAt(re, text, 0, 0);
  }

  lemma HereEnd(re: CString, text: seq<char>)
    requires re == ['$']
    ensures Here(re, text) <==> text == []
  {
    assert At(re, 1) == '\0';
    LangNil(text);
    if text == [] {
      assert text[0..0] == [];
      assert MatchesAt(re, text, 0, 0);
    }
    if Here(re, text) {
      var n :| MatchesAt(re, text, 0, n);
      assert text[0..n] == text;
    }
  }

  lemma HereFirst(re: CString, it: Item, rest: CString, text: seq<char>) returns (k: nat)
    requires Items(re) == [it] + Items(rest) && Anchored(re) == Anchored(rest) && Here(re, text)
    ensures k <= |text| && ItemLang(it, text[..k]) && Here(rest, text[k..])
  {
    hide InLang, ItemLang, Items, Anchored;
    var n :| MatchesAt(re, text, 0, n);
    assert text[0..n] == text[..n];
    k := LangUncons(it, Items(rest), text[..n]);
    assert text[..n][..k] == text[..k] && text[..n][k..] == text[k..][0..n - k];
    assert MatchesAt(rest, text[k..], 0, n - k);
  }

  lemma HereThen(re: CString, it: Item, rest: CString, text: seq<char>, k: nat)
    requires Items(re) == [it] + Items(rest) && Anchored(re) == Anchored(rest)
    requires k <= |text| && ItemLang(it, text[..k]) && Here(rest, text[k..])
    ensures Here(re, text)
  {
    hide InLang, ItemLang, Items, Anchored;
    var n :| MatchesAt(rest, text[k..], 0, n);
    var w := text[..k + n];
    assert w[..k] == text[..k] && w[k..] == text[k..][0..n];
    LangCons(it, Items(rest), w, k);
    assert text[0..k + n] == w;
    assert MatchesAt(re, text, 0, k + n);
  }

  /** An item, then the rest of the expression. */
  lemma HereItem(re: CString, it: Item, rest: CString, text: seq<char>)
    requires Items(re) == [it] + Items(rest) && Anchored(re) == Anchored(rest)
    ensures Here(re, text) <==> exists k :: 0 <= k <= |text| && ItemLang(it, text[..k]) && Here(rest, text[k..])
  {
    hide ItemLang, Items, Anchored;
    if Here(re, text) {
      var k := HereFirst(re, it, rest, text);
    }
    if k :| 0 <= k <= |text| && ItemLang(it, text[..k]) && Here(rest, text[k..]) {
      HereThen(re, it, rest, text, k);
    }
  }

  lemma HereOne(re: CString, text: seq<char>)
    requires re != [] && At(re, 1) != '*' && re != ['$']
    ensures Here(re, text) <==> text != [] && Fits(re[0], text[0]) && Here(Drop(re, 1), text[1..])
  {
    HereItem(re, One(re[0]), Drop(re, 1), text);
    if text != [] && Fits(re[0], text[0]) && Here(Drop(re, 1), text[1..]) {
      assert ItemLang(One(re[0]), text[..1]);
    }
  }

  // ---- the code

  lemma HereIsThere(re: CString, text: seq<char>, t: nat)
    requires t <= |text|
    ensures Here(re, text[t..]) <==> exists n :: MatchesAt(re, text, t, n)
  {
    if Here(re, text[t..]) {
      var n :| MatchesAt(re, text[t..], 0, n);
      assert text[t..][0..n] == text[t..t + n];
      assert MatchesAt(re, text, t, t + n);
    }
    if n :| MatchesAt(re, text, t, n) {
      assert text[t..][0..n - t] == text[t..n];
      assert MatchesAt(re, text[t..], 0, n - t);
    }
  }

  /** matchhere: search for re at the beginning of text. */
  method MatchHere(re: CString, text: CString) returns (r: bool)
    ensures r <==> Here(re, text)
    decreases |re|, 1
  {
    if At(re, 0) == '\0' {
      HereNil(re, text);
      return true;
    }
    if At(re, 1) == '*' {
      r := MatchStar(At(re, 0), Drop(re, 2), text);
      HereItem(re, Star(re[0]), Drop(re, 2), text);
      return;
    }
    if At(re, 0) == '$' && At(re, 1) == '\0' {
      assert re == ['$'];
      HereEnd(re, text);
      return At(text, 0) == '\0';
    }
    HereOne(re, text);
    if At(text, 0) != '\0' && (At(re, 0) == '.' || At(re, 0) == At(text, 0)) {
      r := MatchHere(Drop(re, 1), Drop(text, 1));
      return;
    }
    r := false;
  }

  /** matchstar: search for c*re at the beginning of text. */
  method MatchStar(c: char, re: CString, text: CString) returns (r: bool)
    requires c != '\0'
    ensures r <==> exists k :: 0 <= k <= |text| && ItemLang(Star(c), text[..k]) && Here(re, text[k..])
    decreases |re|, 2
  {
    var t := 0;
    while true
      invariant 0 <= t <= |text| && ItemLang(Star(c), text[..t])
      invariant forall k :: 0 <= k < t ==> !Here(re, text[k..])
      decreases |text| - t
    {
      var here := MatchHere(re, Drop(text, t));
      if here { return true; }
      if !(At(text, t) != '\0' && (At(text, t) == c || c == '.')) { break; }
      t := t + 1;
    }
    forall k | t < k <= |text| ensures !ItemLang(Star(c), text[..k]) {
      assert text[..k][t] == text[t];
    }
    r := false;
  }

  /** match: search for re anywhere in text. */
  method Match(re: CString, text: CString) returns (r: bool)
    ensures r <==> Matches(re, text)
  {
    if At(re, 0) == '^' {
      r := MatchHere(Drop(re, 1), text);
      return;
    }
    var t := 0;
    while true
      invariant 0 <= t <= |text|
      invariant forall i, n :: 0 <= i < t ==> !MatchesAt(re, text, i, n)
      decreases |text| - t
    {
      var here := MatchHere(re, Drop(text, t));
      HereIsThere(re, text, t);
      if here { return true; }
      if At(text, t) == '\0' { break; }
      t := t + 1;
    }
    r := false;
  }
}
