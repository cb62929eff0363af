/** The push relay's tag lookup: escaping a tag for SQL LIKE. */
module SqlLike {

  const ESCAPE: char := '\\'

  // ------------------------------------------------------------------ LIKE itself

  function Lower(c: char): char {
    if 'A' <= c <= 'Z' then (c as int + 32) as char else c
  }

  predicate SameChar(a: char, b: char) {
    Lower(a) == Lower(b)
  }

  /** SQLite's LIKE with an escape character: `%` any run, `_` any one character, the escape
      makes the next character literal; a pattern ending in the escape matches nothing. */
  predicate Like(pattern: string, text: string)
    decreases |pattern|, |text|
  {
    if pattern == "" then text == ""
    else if pattern[0] == ESCAPE then
      |pattern| >= 2 && text != "" && SameChar(pattern[1], text[0]) && Like(pattern[2..], text[1..])
    else if pattern[0] == '%' then
      Like(pattern[1..], text) || (text != "" && Like(pattern, text[1..]))
    else if pattern[0] == '_' then text != "" && Like(pattern[1..], text[1..])
    else text != "" && SameChar(pattern[0], text[0]) && Like(pattern[1..], text[1..])
  }

  // ------------------------------------------------------------------- the lookup

  /** `str::replace` of one character by a string. */
  function ReplaceChar(s: string, c: char, sub: string): string {
    if s == "" then "" else (if s[0] == c then sub else [s[0]]) + ReplaceChar(s[1..], c, sub)
  }

  function Escaped(tag: string): string {
    ReplaceChar(ReplaceChar(ReplaceChar(ReplaceChar(tag, '\\', "\\\\"), '%', "\\%"), '_', "\\_"), '"', "")
  }

  function TagPattern(tag: string): string {
    "%\"" + Escaped(tag) + "\"%"
  }

  datatype Subscription = Subscription(subscriptionId: string, filterJson: string, platform: string, createdAt: int)

  class Database {
    var subscriptions: seq<Subscription>

    constructor ()
      ensures subscriptions == []
    {
      subscriptions := [];
    }

    /** Rows in table order; the source asks for no order. */
    method GetSubscriptionsForTag(tag: string) returns (subs: seq<Subscription>)
      ensures subs == Selected(subscriptions, tag)
    {
      var pattern := TagPattern(tag);
      subs := [];
      for i := 0 to |subscriptions|
        invariant subs == Selected(subscriptions[..i], tag)
      {
        assert subscriptions[..i + 1][..i] == subscriptions[..i];
        if Like(pattern, subscriptions[i].filterJson) {
          subs := subs + [subscriptions[i]];
        }
      }
      assert subscriptions[..|subscriptions|] == subscriptions;
    }
  }

  function Selected(rows: seq<Subscription>, tag: string): seq<Subscription> {
    if rows == [] then []
    else
      var before := Selected(rows[..|rows| - 1], tag);
      if Like(TagPattern(tag), rows[|rows| - 1].filterJson) then before + [rows[|rows| - 1]] else before
  }

  // ------------------------------------------------------------------ its meaning

  /** Equal characters, or the two cases of one ASCII letter. */
  predicate SameLetter(a: char, b: char) {
    a == b
    || ('A' <= a <= 'Z' && b as int == a as int + ('a' as int - 'A' as int))
    || ('a' <= a <= 'z' && a as int == b as int + ('a' as int - 'A' as int))
  }

  predicate SameText(a: string, b: string) {
    |a| == |b| && forall i :: 0 <= i < |a| ==> SameLetter(a[i], b[i])
  }

  /** Some stretch of `text` equals `word` up to ASCII case. */
  ghost predicate ContainsText(text: string, word: string) {
    exists k: nat :: OccursAt(text, word, k)
  }

  ghost predicate OccursAt(text: string, word: string, k: nat) {
    k + |word| <= |text| && SameText(text[k..k + |word|], word)
  }

  /** The characters of a tag that are not double quotes, in order. */
  function WithoutQuotes(tag: string): string {
    if tag == "" then ""
    else if tag[0] == '"' then WithoutQuotes(tag[1..])
    else [tag[0]] + WithoutQuotes(tag[1..])
  }

  function EscapeOne(c: char): string {
    if c == '\\' then "\\\\" else if c == '%' then "\\%" else if c == '_' then "\\_" else [c]
  }

  /** Every special character preceded by the escape, the rest as it is. */
  function Literal(word: string): string {
    if word == "" then "" else EscapeOne(word[0]) + Literal(word[1..])
  }

  lemma {:induction false} ReplaceConcat(a: string, b: string, c: char, sub: string)
    ensures ReplaceChar(a + b, c, sub) == ReplaceChar(a, c, sub) + ReplaceChar(b, c, sub)
  {
    if a == "" {
      assert a + b == b;
    } else {
      assert (a + b)[1..] == a[1..] + b && (a + b)[0] == a[0];
      ReplaceConcat(a[1..], b, c, sub);
      assert ReplaceChar(a, c, sub) == (if a[0] == c then sub else [a[0]]) + ReplaceChar(a[1..], c, sub);
    }
  }

  lemma ReplaceTwo(a: char, b: char, c: char, sub: string)
    ensures ReplaceChar([a, b], c, sub) == ReplaceChar([a], c, sub) + ReplaceChar([b], c, sub)
    ensures ReplaceChar([a], c, sub) == if a == c then sub else [a]
  {
    assert [a, b] == [a] + [b];
    ReplaceConcat([a], [b], c, sub);
    assert [a][1..] == "";
  }

  function ThreeReplaces(s: string): string {
    ReplaceChar(ReplaceChar(ReplaceChar(s, '\\', "\\\\"), '%', "\\%"), '_', "\\_")
  }

  lemma ThreeOnChar(c: char)
    ensures ThreeReplaces([c]) == EscapeOne(c)
  {
    ReplaceTwo(c, c, '\\', "\\\\");
    ReplaceTwo(c, c, '%', "\\%");
    ReplaceTwo(c, c, '_', "\\_");
    ReplaceTwo('\\', '\\', '%', "\\%");
    ReplaceTwo('\\', '\\', '_', "\\_");
    ReplaceTwo('\\', '%', '_', "\\_");
    ReplaceTwo('%', '%', '_', "\\_");
  }

  /** The three wildcard replacements, in their order, escape each character once. */
  lemma {:induction false} ThreeReplacesEscape(s: string)
    ensures ThreeReplaces(s) == Literal(s)
  {
    if s != "" {
      var head, tail := [s[0]], s[1..];
      assert s == head + tail;
      ReplaceConcat(head, tail, '\\', "\\\\");
      var h1, t1 := ReplaceChar(head, '\\', "\\\\"), ReplaceChar(tail, '\\', "\\\\");
      ReplaceConcat(h1, t1, '%', "\\%");
      var h2, t2 := ReplaceChar(h1, '%', "\\%"), ReplaceChar(t1, '%', "\\%");
      ReplaceConcat(h2, t2, '_', "\\_");
      ThreeOnChar(s[0]);
      ThreeReplacesEscape(tail);
    }
  }

  lemma NoQuoteInEscape(c: char)
    requires c != '"'
    ensures ReplaceChar(EscapeOne(c), '"', "") == EscapeOne(c)
  {
    ReplaceTwo('\\', c, '"', "");
    ReplaceTwo(c, c, '"', "");
    ReplaceTwo('\\', '\\', '"', "");
  }

  /** Stripping quotes after escaping is escaping what is left after stripping. */
  lemma {:induction false} StripCommutes(s: string)
    ensures ReplaceChar(Literal(s), '"', "") == Literal(WithoutQuotes(s))
  {
    if s != "" {
      StripCommutes(s[1..]);
      ReplaceConcat(EscapeOne(s[0]), Literal(s[1..]), '"', "");
      if s[0] == '"' {
        ReplaceTwo('"', '"', '"', "");
        assert ReplaceChar(EscapeOne(s[0]), '"', "") == "";
        assert WithoutQuotes(s) == WithoutQuotes(s[1..]);
      } else {
        NoQuoteInEscape(s[0]);
        var rest := WithoutQuotes(s[1..]);
        assert WithoutQuotes(s) == [s[0]] + rest;
        assert ([s[0]] + rest)[1..] == rest;
      }
    }
  }

  lemma EscapedIsLiteral(tag: string)
    ensures Escaped(tag) == Literal(WithoutQuotes(tag))
  {
    ThreeReplacesEscape(tag);
    StripCommutes(tag);
  }

  lemma {:induction false} PercentMatchesAll(text: string)
    ensures Like("%", text)
  {
    assert "%"[1..] == "";
    if text != "" {
      PercentMatchesAll(text[1..]);
    }
  }

  /** One literal character at the front of a pattern. */
  lemma LiteralStep(c: char, rest: string, text: string)
    ensures Like(EscapeOne(c) + rest, text) <==> text != "" && SameLetter(c, text[0]) && Like(rest, text[1..])
  {
    var pattern := EscapeOne(c) + rest;
    if |EscapeOne(c)| == 2 {
      assert pattern[2..] == rest;
    } else {
      assert pattern[1..] == rest;
    }
  }

  /** A literal prefix followed by `%` matches exactly the texts that start with it. */
  lemma {:induction false} LiteralPrefix(word: string, text: string)
    ensures Like(Literal(word) + "%", text) <==> OccursAt(text, word, 0)
  {
    if word == "" {
      assert Literal(word) + "%" == "%";
      PercentMatchesAll(text);
    } else {
      var rest := word[1..];
      assert Literal(word) + "%" == EscapeOne(word[0]) + (Literal(rest) + "%");
      LiteralStep(word[0], Literal(rest) + "%", text);
      if text != "" {
        LiteralPrefix(rest, text[1..]);
        if |word| <= |text| {
          assert text[1..][0..|rest|] == text[0..|word|][1..];
          assert forall i :: 0 <= i < |rest| ==> rest[i] == word[i + 1];
          assert forall i :: 1 <= i < |word| ==> word[i] == rest[i - 1];
        }
      }
    }
  }

  /** A leading `%` lets the rest match at any place. */
  lemma {:induction false} PercentAnywhere(pattern: string, text: string)
    ensures Like("%" + pattern, text) <==> exists k: nat :: k <= |text| && Like(pattern, text[k..])
  {
    assert ("%" + pattern)[1..] == pattern;
    assert text[0..] == text;
    if text != "" {
      PercentAnywhere(pattern, text[1..]);
      if exists k: nat :: k <= |text| && Like(pattern, text[k..]) {
        var k: nat :| k <= |text| && Like(pattern, text[k..]);
        if k > 0 {
          assert text[1..][k - 1..] == text[k..];
        }
      }
      if exists k: nat :: k <= |text[1..]| && Like(pattern, text[1..][k..]) {
        var k: nat :| k <= |text[1..]| && Like(pattern, text[1..][k..]);
        assert text[1..][k..] == text[k + 1..];
      }
    }
  }

  /** What the escaping is for: an underscore left as it is matches any character, and `n`
      of them exactly the texts of that length. */
  lemma {:induction false} UnderscoresMean(n: nat, text: string)
    ensures Like(seq(n, _ => '_'), text) <==> |text| == n
  {
    if n > 0 && text != "" {
      assert seq(n, _ => '_')[1..] == seq(n - 1, _ => '_');
      UnderscoresMean(n - 1, text[1..]);
    }
  }

  /** Escaping preserves meaning: for every tag and every stored text, the lookup matches
      exactly when the text contains, up to ASCII case, the tag without its double quotes
      enclosed in double quotes. */
  lemma TagLookupMeans(tag: string, text: string)
    ensures Like(TagPattern(tag), text) <==> ContainsText(text, ['"'] + WithoutQuotes(tag) + ['"'])
  {
    var word := Quoted(WithoutQuotes(tag));
    assert word == ['"'] + WithoutQuotes(tag) + ['"'];
    PatternIs(tag);
    PercentAnywhere(Literal(word) + "%", text);
    forall k: nat | k <= |text| ensures Like(Literal(word) + "%", text[k..]) <==> OccursAt(text, word, k) {
      LiteralPrefix(word, text[k..]);
      OccursShift(text, word, k);
    }
  }

  function Quoted(word: string): string {
    "\"" + word + "\""
  }

  lemma PatternIs(tag: string)
    ensures TagPattern(tag) == "%" + (Literal(Quoted(WithoutQuotes(tag))) + "%")
  {
    EscapedIsLiteral(tag);
    QuotedLiteral(WithoutQuotes(tag));
  }

  lemma OccursShift(text: string, word: string, k: nat)
    requires k <= |text|
    ensures OccursAt(text[k..], word, 0) <==> OccursAt(text, word, k)
  {
    if k + |word| <= |text| {
      assert text[k..][0..|word|] == text[k..k + |word|];
    }
  }

  lemma ConcatAssoc(a: string, b: string, c: string)
    ensures (a + b) + c == a + (b + c)
  {
  }

  lemma {:induction false} LiteralConcat(a: string, b: string)
    ensures Literal(a + b) == Literal(a) + Literal(b)
  {
    if a == "" {
      assert a + b == b;
    } else {
      LiteralConcat(a[1..], b);
      assert (a + b)[1..] == a[1..] + b;
      ConcatAssoc(EscapeOne(a[0]), Literal(a[1..]), Literal(b));
    }
  }

  lemma QuotedLiteral(word: string)
    ensures Literal(Quoted(word)) == Quoted(Literal(word))
  {
    LiteralConcat("\"" + word, "\"");
    LiteralConcat("\"", word);
    assert "\""[1..] == "";
  }

  /** The lookup returns each subscription whose filter contains the quoted tag, as often as
      the table holds it, and no other. */
  lemma {:induction false} SelectedMeans(rows: seq<Subscription>, tag: string, s: Subscription)
    ensures multiset(Selected(rows, tag))[s] ==
      if ContainsText(s.filterJson, ['"'] + WithoutQuotes(tag) + ['"']) then multiset(rows)[s] else 0
  {
    if rows != [] {
      var last := |rows| - 1;
      SelectedMeans(rows[..last], tag, s);
      TagLookupMeans(tag, rows[last].filterJson);
      assert rows == rows[..last] + [rows[last]];
    }
  }
}
