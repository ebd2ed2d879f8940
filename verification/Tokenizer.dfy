/** `SearchIndex.tokenize` of `docs-mcp/src/search.ts`. */
module Tokenizer {
  import opened Text

  /** The characters that may stand in a token: `[a-z0-9_\-./#]`. */
  predicate IsTokenChar(c: char) {
    'a' <= c <= 'z' || '0' <= c <= '9' || c == '_' || c == '-' || c == '.' || c == '/' || c == '#'
  }

  /**
   `toLowerCase` of one character, as far as the next replacement can tell: besides `A` to `Z`,
   only the dotted capital I and the Kelvin sign have an ASCII letter in their lower case.
   */
  function Lower(c: char): string {
    if 'A' <= c <= 'Z' then [c - 'A' + 'a']
    else if c == '\U{0130}' then ['i', '\U{0307}']
    else if c == '\U{212A}' then ['k']
    else [c]
  }

  function Blank(s: string): (r: string)
    ensures |r| == |s| && forall i :: 0 <= i < |s| ==> r[i] == if IsTokenChar(s[i]) then s[i] else ' '
  {
    seq(|s|, i requires 0 <= i < |s| => if IsTokenChar(s[i]) then s[i] else ' ')
  }

  /** `text.toLowerCase().replace(/[^a-z0-9_\-./# ]/g, ' ')`. */
  function Clean(text: string): string {
    if text == "" then "" else Blank(Lower(text[0])) + Clean(text[1..])
  }

  /** The index of the first blank, or the length. */
  function WordEnd(s: string): (n: nat)
    ensures n <= |s| && (n < |s| ==> s[n] == ' ')
    ensures forall i :: 0 <= i < n ==> s[i] != ' '
  {
    if s == "" || s[0] == ' ' then 0 else 1 + WordEnd(s[1..])
  }

  function SkipBlanks(s: string): (r: string)
    ensures |r| <= |s|
  {
    if s != "" && s[0] == ' ' then SkipBlanks(s[1..]) else s
  }

  /** `s.split(/\s+/)`, where a blank is the only white space left. */
  function SplitBlanks(s: string): seq<string>
    decreases |s|
  {
    var n := WordEnd(s);
    if n == |s| then [s] else [s[..n]] + SplitBlanks(SkipBlanks(s[n + 1..]))
  }

  /** `filter((t) => t.length >= 2)`. */
  function LongEnough(words: seq<string>): seq<string> {
    if words == [] then []
    else (if |words[0]| >= 2 then [words[0]] else []) + LongEnough(words[1..])
  }

  function Words(s: string): seq<string> {
    LongEnough(SplitBlanks(s))
  }

  function Tokenize(text: string): seq<string> {
    Words(Clean(text))
  }

  // ---------------------------------------------------------------- concatenation

  lemma {:induction false} CleanConcat(a: string, b: string)
    ensures Clean(a + b) == Clean(a) + Clean(b)
  {
    hide Blank, Lower;
    if a == "" {
      assert a + b == b;
    } else {
      CleanConcat(a[1..], b);
      assert (a + b)[1..] == a[1..] + b && (a + b)[0] == a[0];
    }
  }

  lemma LongEnoughStep(word: string, words: seq<string>)
    ensures LongEnough([word] + words) == (if |word| >= 2 then [word] else []) + LongEnough(words)
  {
    assert ([word] + words)[1..] == words;
  }

  lemma {:induction false} WordsStep(s: string)
    requires WordEnd(s) < |s|
    ensures var n := WordEnd(s);
            Words(s) == (if n >= 2 then [s[..n]] else []) + Words(s[n + 1..])
  {}

  lemma {:induction false} WordsLast(s: string)
    requires WordEnd(s) == |s|
    ensures Words(s) == if |s| >= 2 then [s] else []
  {
    LongEnoughStep(s, []);
    assert [s] + [] == [s];
  }

  lemma {:induction false} WordEndIs(s: string, n: nat)
    requires n <= |s| && (n < |s| ==> s[n] == ' ') && forall i :: 0 <= i < n ==> s[i] != ' '
    ensures WordEnd(s) == n
  {}

  /** The first word, and the words behind the blank that ends it. */
  lemma {:induction false} WordsAt(s: string, n: nat)
    requires n < |s| && s[n] == ' ' && forall i :: 0 <= i < n ==> s[i] != ' '
    ensures Words(s) == (if n >= 2 then [s[..n]] else []) + Words(s[n + 1..])
  {}

  lemma {:induction false} WordsBefore(a: string, b: string)
    requires forall i :: 0 <= i < |a| ==> a[i] != ' '
    ensures Words(a + " " + b) == Words(a) + Words(b)
  {
    var s := a + " " + b;
    WordsAt(s, |a|);
    assert s[..|a|] == a && s[|a| + 1..] == b;
    WordEndIs(a, |a|);
    WordsLast(a);
  }

  /** A blank separates words: the words on either side do not touch. */
  lemma {:induction false} WordsConcat(a: string, b: string)
    ensures Words(a + " " + b) == Words(a) + Words(b)
    decreases |a|
  {
    hide Words, WordEnd;
    var n := WordEnd(a);
    if n == |a| {
      WordsBefore(a, b);
    } else {
      var s := a + " " + b;
      assert s[..n] == a[..n] && s[n + 1..] == a[n + 1..] + " " + b;
      WordsConcat(a[n + 1..], b);
      WordsAt(s, n);
      WordsStep(a);
      var first := if n >= 2 then [a[..n]] else [];
      assert first + Words(a[n + 1..]) + Words(b) == first + (Words(a[n + 1..]) + Words(b));
    }
  }

  /** A character whose cleaned form is one blank separates tokens. */
  lemma TokenizeConcat(a: string, sep: char, b: string)
    requires !IsTokenChar(sep) && Lower(sep) == [sep]
    ensures Tokenize(a + [sep] + b) == Tokenize(a) + Tokenize(b)
  {
    CleanConcat(a + [sep], b);
    CleanConcat(a, [sep]);
    assert Clean([sep]) == " " by {
      assert [sep][1..] == "" && Blank(Lower(sep)) == " ";
    }
    WordsConcat(Clean(a), Clean(b));
  }

  /** `tokenize(a + ' ' + b)` is `tokenize(a)` followed by `tokenize(b)`. */
  lemma TokenizeSpace(a: string, b: string)
    ensures Tokenize(a + " " + b) == Tokenize(a) + Tokenize(b)
  {
    TokenizeConcat(a, ' ', b);
  }

  function TokenizeAll(texts: seq<string>): seq<string> {
    if texts == [] then [] else Tokenize(texts[0]) + TokenizeAll(texts[1..])
  }

  lemma {:induction false} TokenizeAllConcat(a: seq<string>, b: seq<string>)
    ensures TokenizeAll(a + b) == TokenizeAll(a) + TokenizeAll(b)
  {
    hide Tokenize;
    if a == [] {
      assert a + b == b;
    } else {
      TokenizeAllConcat(a[1..], b);
      assert (a + b)[1..] == a[1..] + b && (a + b)[0] == a[0];
    }
  }

  /** The tokens of a text are the tokens of its lines, one line after the other. */
  lemma {:induction false} TokenizeJoin(lines: seq<string>)
    ensures Tokenize(Join(lines)) == TokenizeAll(lines)
  {
    if |lines| > 1 {
      TokenizeConcat(lines[0], '\n', Join(lines[1..]));
      TokenizeJoin(lines[1..]);
    } else if |lines| == 1 {
      assert TokenizeAll(lines) == Tokenize(lines[0]) + [];
    } else {
      WordsLast("");
    }
  }

  /** The same character, up to the case of an ASCII letter. */
  predicate SameLetter(c: char, d: char) {
    || c == d
    || ('A' <= c <= 'Z' && d == c - 'A' + 'a')
    || ('A' <= d <= 'Z' && c == d - 'A' + 'a')
  }

  /** The case of letters does not matter. */
  lemma {:induction false} TokenizeIgnoresCase(a: string, b: string)
    requires |a| == |b| && forall i :: 0 <= i < |a| ==> SameLetter(a[i], b[i])
    ensures Clean(a) == Clean(b) && Tokenize(a) == Tokenize(b)
  {
    hide Words;
    if a != "" {
      TokenizeIgnoresCase(a[1..], b[1..]);
      assert SameLetter(a[0], b[0]);
      assert Blank(Lower(a[0])) == Blank(Lower(b[0]));
    }
  }

  // ---------------------------------------------------------------- tokens are fixed points

  predicate IsToken(t: string) {
    |t| >= 2 && forall c :: c in t ==> IsTokenChar(c)
  }

  /** `tokens.join(' ')`. */
  function JoinSpaces(tokens: seq<string>): string {
    if tokens == [] then "" else if |tokens| == 1 then tokens[0]
    else tokens[0] + " " + JoinSpaces(tokens[1..])
  }

  lemma {:induction false} CleanToken(t: string)
    requires forall c :: c in t ==> IsTokenChar(c)
    ensures Clean(t) == t
  {
    if t != "" {
      assert t[0] in t;
      CleanToken(t[1..]);
      assert Blank(Lower(t[0])) == [t[0]];
    }
  }

  lemma TokenizeToken(t: string)
    requires IsToken(t)
    ensures Tokenize(t) == [t]
  {
    CleanToken(t);
    assert ' ' !in t;
    WordEndIs(t, |t|);
    WordsLast(t);
  }

  /** Tokenizing the space-join of tokens returns those tokens. */
  lemma {:induction false} TokenizeJoinSpaces(tokens: seq<string>)
    requires forall t :: t in tokens ==> IsToken(t)
    ensures Tokenize(JoinSpaces(tokens)) == tokens
  {
    if tokens != [] {
      assert tokens[0] in tokens;
      TokenizeToken(tokens[0]);
      if |tokens| > 1 {
        TokenizeSpace(tokens[0], JoinSpaces(tokens[1..]));
        TokenizeJoinSpaces(tokens[1..]);
      }
    } else {
      WordsLast("");
    }
  }

  lemma {:induction false} CleanIsClean(text: string)
    ensures forall c :: c in Clean(text) ==> IsTokenChar(c) || c == ' '
  {
    if text != "" {
      CleanIsClean(text[1..]);
    }
  }

  lemma {:induction false} WordsAreTokens(s: string)
    requires forall c :: c in s ==> IsTokenChar(c) || c == ' '
    ensures forall t :: t in Words(s) ==> IsToken(t)
    decreases |s|
  {
    var n := WordEnd(s);
    var first := s[..n];
    assert forall c :: c in first ==> c in s && IsTokenChar(c);
    if n < |s| {
      WordsStep(s);
      assert forall c :: c in s[n + 1..] ==> c in s;
      WordsAreTokens(s[n + 1..]);
    } else {
      assert first == s;
      WordsLast(s);
    }
  }

  /** The token lists are exactly the lists of strings of two or more token characters. */
  lemma TokensExactly(tokens: seq<string>)
    ensures (exists text :: Tokenize(text) == tokens) <==> forall t :: t in tokens ==> IsToken(t)
  {
    forall text ensures forall t :: t in Tokenize(text) ==> IsToken(t) {
      CleanIsClean(text);
      WordsAreTokens(Clean(text));
    }
    if forall t :: t in tokens ==> IsToken(t) {
      TokenizeJoinSpaces(tokens);
    }
  }

  // ---------------------------------------------------------------- the alphabet

  /** `[a-z0-9_\-./#]`, character by character. */
  predicate IsListed(c: char) {
    || c in {'a', 'b', 'c', 'd', 'e', 'f', 'g', 'h', 'i', 'j', 'k', 'l', 'm'}
    || c in {'n', 'o', 'p', 'q', 'r', 's', 't', 'u', 'v', 'w', 'x', 'y', 'z'}
    || c in {'0', '1', '2', '3', '4', '5', '6', '7', '8', '9'}
    || c in {'_', '-', '.', '/', '#'}
  }

  lemma AlphabetIs(c: char)
    ensures IsTokenChar(c) <==> IsListed(c)
  {}

  /** A character written twice is a token if and only if it is listed; written once it never is. */
  lemma AlphabetTokens(c: char)
    ensures Tokenize([c, c]) == [[c, c]] <==> IsListed(c)
    ensures IsListed(c) ==> Tokenize([c]) == []
  {
    hide Tokenize, IsTokenChar, IsListed;
    AlphabetIs(c);
    TokensExactly([[c, c]]);
    if IsListed(c) {
      TokenizeToken([c, c]);
      OneCharacter(c);
    } else {
      assert [c, c][0] in [c, c] && [c, c] in [[c, c]];
    }
  }

  lemma OneCharacter(c: char)
    requires IsTokenChar(c)
    ensures Tokenize([c]) == []
  {
    CleanToken([c]);
    WordEndIs([c], 1);
    WordsLast([c]);
  }

  /** The two letters outside ASCII with an ASCII letter in their lower case: the Kelvin sign, and the dotted capital I. */
  lemma SpecialLetters()
    ensures Tokenize("\U{212A}\U{212A}") == ["kk"] && Clean("\U{0130}") == "i "
  {
    hide Words;
    var kelvin := "\U{212A}";
    assert Blank(Lower('\U{212A}')) == "k" && kelvin[1..] == "" && Clean(kelvin) == "k";
    CleanConcat(kelvin, kelvin);
    assert kelvin + kelvin == "\U{212A}\U{212A}" && "k" + "k" == "kk";
    WordEndIs("kk", 2);
    WordsLast("kk");
    assert Blank(Lower('\U{0130}')) == "i " && "\U{0130}"[1..] == "";
  }
}
