/** `SearchIndex.extractSnippet` of `docs-mcp/src/search.ts`. */
module Snippets {
  import opened Text
  import opened Tokenizer

  /** The number of positions of `tokens` that hold a query token. */
  function Overlap(tokens: seq<string>, query: seq<string>): nat {
    if tokens == [] then 0
    else Overlap(tokens[..|tokens| - 1], query) + if tokens[|tokens| - 1] in query then 1 else 0
  }

  function LineScore(line: string, query: seq<string>): nat {
    Overlap(Tokenize(line), query)
  }

  function LineScores(lines: seq<string>, query: seq<string>): (scores: seq<nat>)
    ensures |scores| == |lines| && forall i :: 0 <= i < |lines| ==> scores[i] == LineScore(lines[i], query)
  {
    seq(|lines|, i requires 0 <= i < |lines| => LineScore(lines[i], query))
  }

  /** `best` is the earliest position of the greatest score. */
  predicate IsEarliestBest(scores: seq<nat>, best: nat) {
    && best < |scores|
    && (forall j :: 0 <= j < |scores| ==> scores[j] <= scores[best])
    && (forall j :: 0 <= j < best ==> scores[j] < scores[best])
  }

  lemma EarliestBestIsUnique(scores: seq<nat>, a: nat, b: nat)
    requires IsEarliestBest(scores, a) && IsEarliestBest(scores, b)
    ensures a == b
  {
    assert scores[a] == scores[b];
  }

  function EarliestBest(scores: seq<nat>): (best: nat)
    requires scores != []
    ensures IsEarliestBest(scores, best)
  {
    if |scores| == 1 then 0
    else
      var last := |scores| - 1;
      var best := EarliestBest(scores[..last]);
      if scores[last] > scores[best] then last else best
  }

  function WindowStart(best: nat): nat {
    if best == 0 then 0 else best - 1
  }

  function WindowEnd(lines: seq<string>, best: nat): nat {
    if best + 2 <= |lines| then best + 2 else |lines|
  }

  /** Up to three lines around line `best`, trimmed. */
  function Window(lines: seq<string>, best: nat): string
    requires best < |lines|
  {
    Trim(Join(lines[WindowStart(best)..WindowEnd(lines, best)]))
  }

  function Truncate(s: string): string {
    if |s| > 300 then s[..297] + "..." else s
  }

  function BestLine(content: string, query: seq<string>): (best: nat)
    ensures IsEarliestBest(LineScores(Split(content), query), best)
  {
    EarliestBest(LineScores(Split(content), query))
  }

  function SnippetOf(content: string, query: seq<string>): string {
    Truncate(Window(Split(content), BestLine(content, query)))
  }

  /** The inner loop of `extractSnippet`. */
  method CountMatches(lineTokens: seq<string>, queryTokens: seq<string>) returns (lineScore: nat)
    ensures lineScore == Overlap(lineTokens, queryTokens)
  {
    lineScore := 0;
    for k := 0 to |lineTokens|
      invariant lineScore == Overlap(lineTokens[..k], queryTokens)
    {
      assert lineTokens[..k + 1][..k] == lineTokens[..k];
      if lineTokens[k] in queryTokens { lineScore := lineScore + 1; }
    }
    assert lineTokens[..|lineTokens|] == lineTokens;
  }

  /** The outer loop of `extractSnippet`. */
  method FindBestLine(lines: seq<string>, queryTokens: seq<string>) returns (bestLine: nat)
    requires lines != []
    ensures IsEarliestBest(LineScores(lines, queryTokens), bestLine)
  {
    ghost var scores := LineScores(lines, queryTokens);
    bestLine := 0;
    var bestScore := 0;
    for i := 0 to |lines|
      invariant bestLine < |lines| && (i == 0 ==> bestLine == bestScore == 0)
      invariant i > 0 ==> bestScore == scores[bestLine]
      invariant forall j :: 0 <= j < i ==> scores[j] <= bestScore
      invariant forall j :: 0 <= j < bestLine ==> scores[j] < bestScore
    {
      var lineScore := CountMatches(Tokenize(lines[i]), queryTokens);
      assert lineScore == scores[i];
      if lineScore > bestScore {
        bestScore, bestLine := lineScore, i;
      }
    }
  }

  /** `extractSnippet`. */
  method ExtractSnippet(content: string, queryTokens: seq<string>) returns (snippet: string)
    ensures snippet == SnippetOf(content, queryTokens)
  {
    hide Split, Trim, LineScores, IsEarliestBest;
    var lines := Split(content);
    var bestLine := FindBestLine(lines, queryTokens);
    EarliestBestIsUnique(LineScores(lines, queryTokens), bestLine, BestLine(content, queryTokens));
    var start := if bestLine == 0 then 0 else bestLine - 1;
    var end := if |lines| < bestLine + 2 then |lines| else bestLine + 2;
    snippet := Trim(Join(lines[start..end]));
    if |snippet| > 300 {
      snippet := snippet[..297] + "...";
    }
  }

  // ---------------------------------------------------------------- the snippet agrees with the match

  ghost predicate Shows(tokens: seq<string>, query: seq<string>) {
    exists t :: t in tokens && t in query
  }

  lemma {:induction false} OverlapPositive(tokens: seq<string>, query: seq<string>)
    ensures Overlap(tokens, query) > 0 <==> Shows(tokens, query)
  {
    if tokens != [] {
      var front, last := tokens[..|tokens| - 1], tokens[|tokens| - 1];
      OverlapPositive(front, query);
      assert tokens == front + [last];
    }
  }

  lemma {:induction false} TokenInSomeText(texts: seq<string>, token: string)
    ensures token in TokenizeAll(texts) <==> exists i :: 0 <= i < |texts| && token in Tokenize(texts[i])
  {
    hide Tokenize;
    if texts != [] {
      TokenInSomeText(texts[1..], token);
      if token in TokenizeAll(texts[1..]) {
        var i :| 0 <= i < |texts[1..]| && token in Tokenize(texts[1..][i]);
        assert token in Tokenize(texts[i + 1]);
      }
      if i :| 0 < i < |texts| && token in Tokenize(texts[i]) {
        assert token in Tokenize(texts[1..][i - 1]);
      }
    }
  }

  /** The chosen line shows a query token exactly when the content has one. */
  lemma BestLineShowsMatch(content: string, query: seq<string>)
    ensures LineScore(Split(content)[BestLine(content, query)], query) > 0
            <==> Shows(Tokenize(content), query)
  {
    var lines, best := Split(content), BestLine(content, query);
    TokenizeJoin(lines);
    OverlapPositive(Tokenize(lines[best]), query);
    if t :| t in Tokenize(content) && t in query {
      TokenInSomeText(lines, t);
      var i :| 0 <= i < |lines| && t in Tokenize(lines[i]);
      OverlapPositive(Tokenize(lines[i]), query);
      assert LineScores(lines, query)[i] > 0;
    }
    if t :| t in Tokenize(lines[best]) && t in query {
      TokenInSomeText(lines, t);
    }
  }

  lemma SpaceSeparates(c: char)
    requires IsSpace(c)
    ensures !IsTokenChar(c) && Lower(c) == [c]
  {}

  lemma {:induction false} TokenizeTrimStart(s: string)
    ensures Tokenize(TrimStart(s)) == Tokenize(s)
  {
    hide Tokenize;
    if s != "" && IsSpace(s[0]) {
      TokenizeTrimStart(s[1..]);
      SpaceSeparates(s[0]);
      TokenizeConcat("", s[0], s[1..]);
      TokenizeJoin([]);
      assert "" + [s[0]] + s[1..] == s;
    }
  }

  lemma {:induction false} TokenizeTrimEnd(s: string)
    ensures Tokenize(TrimEnd(s)) == Tokenize(s)
  {
    hide Tokenize;
    if s != "" && IsSpace(s[|s| - 1]) {
      var front, last := s[..|s| - 1], s[|s| - 1];
      TokenizeTrimEnd(front);
      SpaceSeparates(last);
      TokenizeConcat(front, last, "");
      TokenizeJoin([]);
      assert front + [last] + "" == s;
    }
  }

  /** The tokens of the content are those of the lines before the window, of the window and of the lines behind it. */
  lemma WindowTokens(content: string, best: nat)
    requires best < |Split(content)|
    ensures var lines := Split(content);
            Tokenize(content)
            == TokenizeAll(lines[..WindowStart(best)]) + Tokenize(Window(lines, best)) + TokenizeAll(lines[WindowEnd(lines, best)..])
  {
    hide Tokenize, TokenizeAll, Trim, TrimStart, TrimEnd;
    var lines := Split(content);
    var start, end := WindowStart(best), WindowEnd(lines, best);
    TokenizeJoin(lines);
    assert lines == lines[..start] + lines[start..end] + lines[end..];
    TokenizeAllConcat(lines[..start] + lines[start..end], lines[end..]);
    TokenizeAllConcat(lines[..start], lines[start..end]);
    TokenizeJoin(lines[start..end]);
    TokenizeTrim(Join(lines[start..end]));
  }

  lemma TokenizeTrim(s: string)
    ensures Tokenize(Trim(s)) == Tokenize(s)
  {
    TokenizeTrimStart(s);
    TokenizeTrimEnd(TrimStart(s));
  }

  lemma WindowShowsLine(lines: seq<string>, best: nat, token: string)
    requires best < |lines| && token in Tokenize(lines[best])
    ensures token in Tokenize(Window(lines, best))
  {
    hide Tokenize, Trim;
    var window := lines[WindowStart(best)..WindowEnd(lines, best)];
    assert window[best - WindowStart(best)] == lines[best];
    TokenInSomeText(window, token);
    TokenizeJoin(window);
    TokenizeTrim(Join(window));
  }

  // ---------------------------------------------------------------- snippets that are cut

  /** Where the last word of a cleaned text starts; its length if the text ends in a blank. */
  function LastWordStart(s: string): (b: nat)
    ensures b <= |s| && (b > 0 ==> s[b - 1] == ' ') && forall i :: b <= i < |s| ==> s[i] != ' '
  {
    if s == "" || s[|s| - 1] == ' ' then |s| else LastWordStart(s[..|s| - 1])
  }

  /** The tokens that a cut leaves whole. */
  function WholeTokens(s: string): seq<string> {
    var c := Clean(s);
    Words(c[..LastWordStart(c)])
  }

  /** The word that is cut, with the dots. */
  function CutWord(s: string): string {
    var c := Clean(s);
    c[LastWordStart(c)..] + "..."
  }

  lemma WordsWithDots(c: string)
    ensures Words(c + "...") == Words(c[..LastWordStart(c)]) + [c[LastWordStart(c)..] + "..."]
  {
    hide Words, LastWordStart;
    var b := LastWordStart(c);
    var word := c[b..] + "...";
    WordEndIs(word, |word|);
    WordsLast(word);
    WordEndIs("", 0);
    WordsLast("");
    if b == 0 {
      assert c + "..." == word && c[..0] == "";
    } else {
      assert c + "..." == c[..b - 1] + " " + word;
      WordsConcat(c[..b - 1], word);
      assert c[..b] == c[..b - 1] + " " + "";
      WordsConcat(c[..b - 1], "");
    }
  }

  lemma TokenizeCut(s: string)
    ensures Tokenize(s + "...") == WholeTokens(s) + [CutWord(s)]
  {
    hide Words, LastWordStart;
    CleanConcat(s, "...");
    CleanToken("...");
    WordsWithDots(Clean(s));
  }

  lemma WordsToLastBlank(c: string, more: string)
    ensures Words(c[..LastWordStart(c)]) <= Words(c + more)
  {
    hide Words, LastWordStart;
    var b := LastWordStart(c);
    WordEndIs("", 0);
    WordsLast("");
    if b == 0 {
      assert c[..b] == "";
    } else {
      assert c + more == c[..b - 1] + " " + (c[b..] + more);
      WordsConcat(c[..b - 1], c[b..] + more);
      assert c[..b] == c[..b - 1] + " " + "";
      WordsConcat(c[..b - 1], "");
    }
  }

  /** What a cut leaves whole are the first tokens of the whole text. */
  lemma WholeTokensComeFirst(s: string, n: nat)
    requires n <= |s|
    ensures WholeTokens(s[..n]) <= Tokenize(s)
  {
    hide Words, LastWordStart;
    assert s == s[..n] + s[n..];
    CleanConcat(s[..n], s[n..]);
    WordsToLastBlank(Clean(s[..n]), Clean(s[n..]));
  }

  /** The position in the content's tokens where those of the window start. */
  function TokensBefore(lines: seq<string>, best: nat): nat
    requires best < |lines|
  {
    |TokenizeAll(lines[..WindowStart(best)])|
  }

  /** An uncut snippet shows a query token exactly when the content does. */
  lemma UncutShowsMatch(content: string, query: seq<string>)
    requires |Window(Split(content), BestLine(content, query))| <= 300
    ensures Shows(Tokenize(SnippetOf(content, query)), query) <==> Shows(Tokenize(content), query)
  {
    hide Tokenize, Window, BestLine;
    var lines, best := Split(content), BestLine(content, query);
    WindowTokens(content, best);
    if Shows(Tokenize(content), query) {
      BestLineShowsMatch(content, query);
      OverlapPositive(Tokenize(lines[best]), query);
      var t :| t in Tokenize(lines[best]) && t in query;
      WindowShowsLine(lines, best, t);
    }
  }

  lemma SliceOfMiddle(before: seq<string>, whole: seq<string>, middle: seq<string>, behind: seq<string>)
    requires whole <= middle
    ensures |before| + |whole| <= |before + middle + behind|
    ensures (before + middle + behind)[|before|..|before| + |whole|] == whole
  {}

  lemma ShowsAppend(tokens: seq<string>, token: string, query: seq<string>)
    ensures Shows(tokens + [token], query) <==> Shows(tokens, query) || token in query
  {
    if t :| t in tokens && t in query { assert t in tokens + [token]; }
    if token in query { assert token in tokens + [token]; }
  }

  /** The tokens of a cut window: some of the content, from where the window starts, and the word that is cut. */
  lemma CutWindowTokens(content: string, best: nat, n: nat)
    requires best < |Split(content)| && n <= |Window(Split(content), best)|
    ensures var cut := Window(Split(content), best)[..n];
            var from, whole := TokensBefore(Split(content), best), |WholeTokens(cut)|;
            && from + whole <= |Tokenize(content)|
            && Tokenize(cut + "...") == Tokenize(content)[from..from + whole] + [CutWord(cut)]
  {
    hide Split, Tokenize, TokenizeAll, Window, WholeTokens, CutWord;
    var lines := Split(content);
    var window := Window(lines, best);
    TokenizeCut(window[..n]);
    WholeTokensComeFirst(window, n);
    WindowTokens(content, best);
    SliceOfMiddle(
      TokenizeAll(lines[..WindowStart(best)]), WholeTokens(window[..n]), Tokenize(window),
      TokenizeAll(lines[WindowEnd(lines, best)..]));
  }

  /**
   A snippet that needs no cut shows a query token exactly when the content does. One that is cut shows one exactly
   when one stands among the content's tokens that the cut leaves whole, or is the word that is cut, with the dots.
   */
  lemma SnippetShowsMatch(content: string, query: seq<string>)
    ensures var lines, best := Split(content), BestLine(content, query);
            var window, tokens, shown := Window(lines, best), Tokenize(content), Tokenize(SnippetOf(content, query));
            if |window| <= 300 then Shows(shown, query) <==> Shows(tokens, query)
            else
              var from, whole := TokensBefore(lines, best), |WholeTokens(window[..297])|;
              && from + whole <= |tokens|
              && (Shows(shown, query) <==> Shows(tokens[from..from + whole], query) || CutWord(window[..297]) in query)
  {
    hide Shows, Split, Tokenize, TokensBefore, Window, BestLine, WholeTokens, CutWord;
    var lines, best := Split(content), BestLine(content, query);
    var window := Window(lines, best);
    if |window| <= 300 {
      UncutShowsMatch(content, query);
    } else {
      CutWindowTokens(content, best, 297);
      var from, whole := TokensBefore(lines, best), |WholeTokens(window[..297])|;
      ShowsAppend(Tokenize(content)[from..from + whole], CutWord(window[..297]), query);
    }
  }

  function Letters(n: nat): (s: string)
    ensures |s| == n && forall c :: c in s ==> c == 'a'
  {
    seq(n, _ => 'a')
  }

  /** A cut can hide the only match: a long word before it fills the snippet. */
  lemma CutMayHideMatch()
    ensures var content, query := Letters(400) + " zz", ["zz"];
            Shows(Tokenize(content), query) && !Shows(Tokenize(SnippetOf(content, query)), query)
  {
    hide Tokenize, Window, LineScore;
    var content, query := Letters(400) + " zz", ["zz"];
    TokenizeSpace(Letters(400), "zz");
    TokenizeToken("zz");
    assert Letters(400) + " " + "zz" == content && "zz" in Tokenize(content);
    SplitJoin([content]);
    assert Split(content) == [content] && BestLine(content, query) == 0;
    OneLineWindow(content);
    var snippet := SnippetOf(content, query);
    assert content[..297] == Letters(297) && snippet == Letters(297) + "...";
    TokenizeToken(snippet);
    assert snippet[0] == 'a';
  }

  lemma OneLineWindow(line: string)
    requires line != "" && !IsSpace(line[0]) && !IsSpace(line[|line| - 1])
    ensures Window([line], 0) == line
  {
    assert [line][0..1] == [line];
    TrimFixed(line);
  }

  /** A cut can also show a match that the content does not have: the cut word with the dots. */
  lemma CutMayInventMatch()
    ensures var content, query := Letters(400), [Letters(297) + "..."];
            !Shows(Tokenize(content), query) && Shows(Tokenize(SnippetOf(content, query)), query)
  {
    hide Tokenize, Split, BestLine, SnippetOf, IsToken;
    var content, word := Letters(400), Letters(297) + "...";
    assert IsToken(content) && IsToken(word) by { LettersAreTokens(); }
    TokenizeToken(content);
    assert |content| != |word|;
    LongLine(content, [word]);
    assert content[..297] == Letters(297);
    TokenizeToken(word);
    assert word in [word];
  }

  lemma LettersAreTokens()
    ensures IsToken(Letters(400)) && IsToken(Letters(297) + "...")
  {}

  lemma LongLine(content: string, query: seq<string>)
    requires |content| > 300 && forall c :: c in content ==> !IsSpace(c)
    ensures SnippetOf(content, query) == content[..297] + "..."
  {
    hide LineScore, Window;
    SplitJoin([content]);
    assert Split(content) == [content] && BestLine(content, query) == 0;
    OneLineWindow(content);
  }

  // ---------------------------------------------------------------- what the snippet shows

  /** The window is the best line and its neighbours, where they exist. */
  lemma WindowIsNeighbours(lines: seq<string>, best: nat, i: nat)
    requires best < |lines| && i < |lines|
    ensures WindowStart(best) <= WindowEnd(lines, best) <= |lines|
    ensures WindowStart(best) <= i < WindowEnd(lines, best) <==> i == best || i + 1 == best || i == best + 1
  {}

  /** All tokens of the best line and its neighbours stand in the window. */
  lemma WindowShowsNeighbours(lines: seq<string>, best: nat, i: nat, token: string)
    requires best < |lines| && i < |lines| && token in Tokenize(lines[i])
    requires i == best || i + 1 == best || i == best + 1
    ensures token in Tokenize(Window(lines, best))
  {
    hide Tokenize, Trim;
    var start, end := WindowStart(best), WindowEnd(lines, best);
    WindowIsNeighbours(lines, best, i);
    assert lines[start..end][i - start] == lines[i];
    TokenInSomeText(lines[start..end], token);
    TokenizeJoin(lines[start..end]);
    TokenizeTrim(Join(lines[start..end]));
  }

  /** The snippet is the trimmed window if that has at most 300 characters, and else its first 297 and three dots. */
  lemma SnippetLength(content: string, query: seq<string>)
    ensures var window, snippet := Window(Split(content), BestLine(content, query)), SnippetOf(content, query);
            && Trim(window) == window && |snippet| <= 300
            && (|window| <= 300 ==> snippet == window)
            && (|window| > 300 ==> |snippet| == 300 && snippet[..297] == window[..297] && snippet[297..] == "...")
  {
    hide Split, BestLine;
    var lines, best := Split(content), BestLine(content, query);
    TrimTwice(Join(lines[WindowStart(best)..WindowEnd(lines, best)]));
  }
}
