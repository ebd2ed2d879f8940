/** What `search` guarantees, stated against a brute-force scan of the documents. */
module SearchTheorems {
  import opened Outcomes
  import opened InsertionOrder
  import opened Tokenizer
  import opened Snippets
  import opened SearchRanking
  import opened SearchIndexes

  /** The document contains some query token in its title or content. */
  ghost predicate Matches(doc: Doc, query: seq<string>) {
    Shows(Tokens(doc), query)
  }

  /** The result a scan of this one document gives. */
  function Scanned(doc: Doc, query: seq<string>): SearchResult
    requires query != []
  {
    ResultOf(doc, MatchCount(Tokens(doc), query), query)
  }

  /** `r` is what scanning some matching document gives. */
  ghost predicate ScannedIn(r: SearchResult, docs: seq<Doc>, query: seq<string>)
    requires query != []
  {
    exists i :: 0 <= i < |docs| && Matches(docs[i], query) && r == Scanned(docs[i], query)
  }

  /** Title and content are tokenized separately, so a match is a match in either. */
  lemma TokensOfTitleAndContent(doc: Doc)
    ensures Tokens(doc) == Tokenize(doc.title) + Tokenize(doc.content)
  {
    TokenizeSpace(doc.title, doc.content);
  }

  // ---------------------------------------------------------------- index equals brute force

  lemma FindAt(docs: seq<Doc>, i: nat)
    requires IsDocMap(docs) && i < |docs|
    ensures Find(docs, docs[i].path) == Some(docs[i])
  {}

  lemma {:induction false} CollectAt(docs: seq<Doc>, paths: seq<string>, hits: multiset<string>, query: seq<string>, k: nat)
    requires query != [] && k < |paths| && forall p :: p in paths ==> Find(docs, p).Some?
    ensures var rs := Collect(docs, paths, hits, query);
            |rs| == |paths| && rs[k] == ResultOf(Find(docs, paths[k]).value, hits[paths[k]], query)
  {
    hide Find, ResultOf;
    var n := |paths| - 1;
    assert paths[n] in paths;
    var last := ResultOf(Find(docs, paths[n]).value, hits[paths[n]], query);
    assert Collect(docs, paths, hits, query) == Collect(docs, paths[..n], hits, query) + [last];
    if n > 0 {
      assert forall p :: p in paths[..n] ==> p in paths;
      CollectAt(docs, paths[..n], hits, query, if k < n then k else 0);
    } else {
      assert Collect(docs, paths[..0], hits, query) == [];
    }
  }

  /** The k-th result is that of the document hit k-th, with its number of hits. */
  lemma FoundAt(docs: seq<Doc>, query: seq<string>, k: nat)
    requires IsDocMap(docs) && query != [] && k < |FirstSeen(Hits(PostAll(docs), query))|
    ensures var hits := Hits(PostAll(docs), query);
            var path := FirstSeen(hits)[k];
            && |Found(docs, query)| == |FirstSeen(hits)| && Find(docs, path).Some?
            && Found(docs, query)[k] == ResultOf(Find(docs, path).value, multiset(hits)[path], query)
  {
    var hits := Hits(PostAll(docs), query);
    forall p | p in FirstSeen(hits) ensures Find(docs, p).Some? {
      HitsArePaths(PostAll(docs), query, p);
    }
    CollectAt(docs, FirstSeen(hits), multiset(hits), query, k);
    assert FirstSeen(hits)[k] in FirstSeen(hits);
  }

  lemma FoundLength(docs: seq<Doc>, query: seq<string>)
    requires IsDocMap(docs) && query != []
    ensures |Found(docs, query)| == |FirstSeen(Hits(PostAll(docs), query))|
  {
    if FirstSeen(Hits(PostAll(docs), query)) != [] { FoundAt(docs, query, 0); }
  }

  lemma DocOfPath(docs: seq<Doc>, path: string) returns (i: nat)
    requires Find(docs, path).Some?
    ensures i < |docs| && docs[i] == Find(docs, path).value && docs[i].path == path
  {
    i :| 0 <= i < |docs| && docs[i] == Find(docs, path).value;
  }

  lemma FoundIsScanned(docs: seq<Doc>, query: seq<string>, k: nat) returns (i: nat)
    requires IsDocMap(docs) && query != [] && k < |FirstSeen(Hits(PostAll(docs), query))|
    ensures k < |Found(docs, query)|
    ensures i < |docs| && Matches(docs[i], query) && Found(docs, query)[k] == Scanned(docs[i], query)
  {
    FoundAt(docs, query, k);
    var posted := PostAll(docs);
    var path := FirstSeen(Hits(posted, query))[k];
    i := DocOfPath(docs, path);
    assert path in FirstSeen(Hits(posted, query));
    HitsCount(posted, query, i);
    HitsExactly(posted, query, i);
  }

  lemma ScannedIsFound(docs: seq<Doc>, query: seq<string>, i: nat) returns (k: nat)
    requires IsDocMap(docs) && query != [] && i < |docs| && Matches(docs[i], query)
    ensures k < |Found(docs, query)| && Found(docs, query)[k] == Scanned(docs[i], query)
  {
    var posted := PostAll(docs);
    HitsExactly(posted, query, i);
    HitsCount(posted, query, i);
    var paths := FirstSeen(Hits(posted, query));
    k :| 0 <= k < |paths| && paths[k] == docs[i].path;
    FoundAt(docs, query, k);
    FindAt(docs, i);
  }

  lemma FoundDistinct(docs: seq<Doc>, query: seq<string>)
    requires IsDocMap(docs) && query != []
    ensures DistinctResults(Found(docs, query))
  {
    FoundLength(docs, query);
    forall i, j | 0 <= i < j < |Found(docs, query)|
      ensures Found(docs, query)[i].path != Found(docs, query)[j].path
    {
      FoundAt(docs, query, i);
      FoundAt(docs, query, j);
    }
  }

  /** The index finds exactly what scanning every document finds, each document once. */
  lemma IndexEqualsScan(docs: seq<Doc>, query: seq<string>, r: SearchResult)
    requires IsDocMap(docs) && query != []
    ensures r in Found(docs, query) <==> ScannedIn(r, docs, query)
    ensures multiset(Found(docs, query))[r] <= 1
  {
    if r in Found(docs, query) {
      FoundLength(docs, query);
      var k :| 0 <= k < |Found(docs, query)| && Found(docs, query)[k] == r;
      var i := FoundIsScanned(docs, query, k);
    }
    if ScannedIn(r, docs, query) {
      var i :| 0 <= i < |docs| && Matches(docs[i], query) && r == Scanned(docs[i], query);
      var k := ScannedIsFound(docs, query, i);
    }
    FoundDistinct(docs, query);
    AtMostOnce(Found(docs, query), r);
  }

  predicate DistinctResults(rs: seq<SearchResult>) {
    forall i, j :: 0 <= i < j < |rs| ==> rs[i].path != rs[j].path
  }

  lemma {:induction false} AtMostOnce(rs: seq<SearchResult>, r: SearchResult)
    requires DistinctResults(rs)
    ensures multiset(rs)[r] <= 1
  {
    if rs != [] {
      var front := rs[..|rs| - 1];
      AtMostOnce(front, r);
      assert rs == front + [rs[|rs| - 1]];
      if r == rs[|rs| - 1] { assert r !in front; }
    }
  }

  /** A score lies in (0, 1] and is 1 exactly when every query token occurs in the document. */
  lemma ScoreRange(doc: Doc, query: seq<string>)
    requires query != [] && Matches(doc, query)
    ensures 0.0 < Scanned(doc, query).score <= 1.0
    ensures Scanned(doc, query).score == 1.0 <==> forall t :: t in query ==> t in Tokens(doc)
  {
    MatchCountPositive(Tokens(doc), query);
    RatioRange(MatchCount(Tokens(doc), query), |query|);
  }

  lemma RatioRange(count: nat, n: nat)
    requires 0 < count <= n
    ensures 0.0 < count as real / n as real <= 1.0
    ensures count as real / n as real == 1.0 <==> count == n
  {}

  // ---------------------------------------------------------------- the top of the ranking

  /** The paths of the matching documents. */
  ghost function MatchingPaths(docs: seq<Doc>, query: seq<string>): set<string> {
    set i | 0 <= i < |docs| && Matches(docs[i], query) :: docs[i].path
  }

  ghost function Paths(rs: seq<SearchResult>): set<string> {
    set i | 0 <= i < |rs| :: rs[i].path
  }

  lemma PathsAppend(rs: seq<SearchResult>, r: SearchResult)
    ensures Paths(rs + [r]) == Paths(rs) + {r.path}
  {
    var all := rs + [r];
    forall path | path in Paths(rs) ensures path in Paths(all) {
      var i :| 0 <= i < |rs| && rs[i].path == path;
      assert all[i].path == path;
    }
    assert all[|rs|].path in Paths(all);
  }

  lemma LastPathIsNew(rs: seq<SearchResult>)
    requires rs != [] && DistinctResults(rs)
    ensures rs[|rs| - 1].path !in Paths(rs[..|rs| - 1])
  {}

  lemma {:induction false} DistinctPathsCount(rs: seq<SearchResult>)
    requires DistinctResults(rs)
    ensures |Paths(rs)| == |rs|
  {
    if rs != [] {
      hide Paths;
      var front, last := rs[..|rs| - 1], rs[|rs| - 1];
      LastPathIsNew(rs);
      DistinctPathsCount(front);
      PathsAppend(front, last);
      assert rs == front + [last];
    }
  }

  lemma ScannedKeepsPath(doc: Doc, query: seq<string>)
    requires query != []
    ensures Scanned(doc, query).path == doc.path
  {
    hide SnippetOf;
  }

  /** Every path found is that of a matching document. */
  lemma FoundPathMatches(docs: seq<Doc>, query: seq<string>, k: nat)
    requires IsDocMap(docs) && query != [] && k < |Found(docs, query)|
    ensures Found(docs, query)[k].path in MatchingPaths(docs, query)
  {
    hide Found, Matches, Scanned;
    FoundLength(docs, query);
    var i := FoundIsScanned(docs, query, k);
    ScannedKeepsPath(docs[i], query);
  }

  /** The path of every matching document is found. */
  lemma MatchingPathFound(docs: seq<Doc>, query: seq<string>, path: string) returns (k: nat)
    requires IsDocMap(docs) && query != [] && path in MatchingPaths(docs, query)
    ensures k < |Found(docs, query)| && Found(docs, query)[k].path == path
  {
    hide Found, Matches, Scanned;
    var i :| 0 <= i < |docs| && Matches(docs[i], query) && docs[i].path == path;
    k := ScannedIsFound(docs, query, i);
    ScannedKeepsPath(docs[i], query);
  }

  /** As many results are found as there are matching documents. */
  lemma FoundCount(docs: seq<Doc>, query: seq<string>)
    requires IsDocMap(docs) && query != []
    ensures |Found(docs, query)| == |MatchingPaths(docs, query)|
  {
    hide Found, MatchingPaths, DistinctResults;
    var rs := Found(docs, query);
    FoundDistinct(docs, query);
    DistinctPathsCount(rs);
    assert Paths(rs) == MatchingPaths(docs, query) by {
      forall k | 0 <= k < |rs| ensures rs[k].path in MatchingPaths(docs, query) {
        FoundPathMatches(docs, query, k);
      }
      forall path | path in MatchingPaths(docs, query) ensures path in Paths(rs) {
        var k := MatchingPathFound(docs, query, path);
      }
    }
  }

  lemma RankedCount(docs: seq<Doc>, query: seq<string>)
    requires IsDocMap(docs) && query != []
    ensures var ranked := SortByScore(Found(docs, query));
            && Descending(ranked) && |ranked| == |MatchingPaths(docs, query)|
            && forall r :: r in ranked <==> ScannedIn(r, docs, query)
  {
    SortIsStable(Found(docs, query));
    FoundCount(docs, query);
    var ranked := SortByScore(Found(docs, query));
    assert |multiset(ranked)| == |multiset(Found(docs, query))|;
    forall r ensures r in ranked <==> ScannedIn(r, docs, query) {
      IndexEqualsScan(docs, query, r);
      assert r in ranked <==> r in multiset(ranked);
    }
  }

  lemma CountedTwice(rs: seq<SearchResult>, i: nat, j: nat)
    requires i < j < |rs| && rs[i] == rs[j]
    ensures multiset(rs)[rs[i]] >= 2
  {
    assert rs == rs[..i] + [rs[i]] + rs[i + 1..j] + [rs[j]] + rs[j + 1..];
  }

  /** Permuting results keeps their paths distinct. */
  lemma PermutedDistinct(rs: seq<SearchResult>, sorted: seq<SearchResult>)
    requires DistinctResults(rs) && multiset(sorted) == multiset(rs)
    ensures DistinctResults(sorted)
  {
    forall i, j | 0 <= i < j < |sorted| ensures sorted[i].path != sorted[j].path {
      var a, b := sorted[i], sorted[j];
      assert a in multiset(sorted) && b in multiset(sorted);
      assert a in rs && b in rs;
      if a == b { CountedTwice(sorted, i, j); }
      AtMostOnce(rs, a);
    }
  }

  /** In a descending list, what a prefix leaves out scores no higher than what it holds. */
  lemma PrefixIsBest(ranked: seq<SearchResult>, n: nat, r: SearchResult, s: SearchResult)
    requires n <= |ranked| && Descending(ranked)
    requires r in ranked[..n] && s in ranked && s !in ranked[..n]
    ensures r.score >= s.score
  {}

  /** The length of `slice(0, limit)` of `n` elements: the smaller of the two, or for a negative limit `n` less that many. */
  predicate IsSliceLength(length: nat, n: nat, limit: int) {
    if limit >= 0 then length <= limit && length <= n && (length == limit || length == n)
    else length == n + limit || (length == 0 && n + limit <= 0)
  }

  /**
   The results are scans of distinct matching documents in descending order, as many as `limit`
   admits, and no matching document left out scores above one returned.
   */
  lemma TopResults(docs: seq<Doc>, query: seq<string>, limit: int)
    requires IsDocMap(docs) && query != []
    ensures var rs := Top(docs, query, limit);
            && Descending(rs) && DistinctResults(rs)
            && IsSliceLength(|rs|, |MatchingPaths(docs, query)|, limit)
            && (forall r :: r in rs ==> ScannedIn(r, docs, query))
            && forall r, s :: r in rs && ScannedIn(s, docs, query) && s !in rs ==> r.score >= s.score
  {
    var found := Found(docs, query);
    var ranked := SortByScore(found);
    RankedCount(docs, query);
    FoundDistinct(docs, query);
    SortIsStable(found);
    PermutedDistinct(found, ranked);
    TopOfRanked(ranked, SliceEnd(|ranked|, limit));
  }

  lemma TopOfRanked(ranked: seq<SearchResult>, n: nat)
    requires n <= |ranked| && Descending(ranked) && DistinctResults(ranked)
    ensures var rs := ranked[..n];
            && Descending(rs) && DistinctResults(rs)
            && (forall r :: r in rs ==> r in ranked)
            && forall r, s :: r in rs && s in ranked && s !in rs ==> r.score >= s.score
  {
    forall r, s | r in ranked[..n] && s in ranked && s !in ranked[..n] ensures r.score >= s.score {
      PrefixIsBest(ranked, n, r, s);
    }
  }

  // ---------------------------------------------------------------- what a result says

  /** The result tells of this document: its path, its title, its snippet, and as score the share of query positions it matches. */
  predicate TellsOf(r: SearchResult, doc: Doc, query: seq<string>) {
    && r.path == doc.path && r.title == doc.title && r.snippet == SnippetOf(doc.content, query)
    && r.score * |query| as real == MatchCount(Tokens(doc), query) as real
  }

  lemma ScannedTells(doc: Doc, query: seq<string>)
    requires query != []
    ensures TellsOf(Scanned(doc, query), doc, query)
  {
    hide SnippetOf, MatchCount, Tokens;
    ShareTimes(MatchCount(Tokens(doc), query), |query|);
  }

  lemma ShareTimes(count: nat, n: nat)
    requires n > 0
    ensures count as real / n as real * n as real == count as real
  {}

  /** Every result tells of a matching document. */
  lemma ResultsTell(docs: seq<Doc>, query: seq<string>, limit: int, r: SearchResult) returns (i: nat)
    requires IsDocMap(docs) && query != [] && r in Top(docs, query, limit)
    ensures i < |docs| && Matches(docs[i], query) && TellsOf(r, docs[i], query)
  {
    hide Top, Matches, Scanned, TellsOf;
    TopResults(docs, query, limit);
    assert ScannedIn(r, docs, query);
    i :| 0 <= i < |docs| && Matches(docs[i], query) && r == Scanned(docs[i], query);
    ScannedTells(docs[i], query);
  }

  lemma SharesCompare(a: real, b: real, n: nat, x: nat, y: nat)
    requires n > 0 && a * n as real == x as real && b * n as real == y as real && a >= b
    ensures x >= y
  {}

  /** Earlier results match at least as many query positions as later ones. */
  lemma RankedByMatches(docs: seq<Doc>, query: seq<string>, limit: int, k: nat, m: nat, i: nat, j: nat)
    requires IsDocMap(docs) && query != [] && i < |docs| && j < |docs|
    requires k < m < |Top(docs, query, limit)|
    requires TellsOf(Top(docs, query, limit)[k], docs[i], query) && TellsOf(Top(docs, query, limit)[m], docs[j], query)
    ensures MatchCount(Tokens(docs[i]), query) >= MatchCount(Tokens(docs[j]), query)
  {
    hide Top, MatchCount, SnippetOf, Tokens;
    var rs := Top(docs, query, limit);
    TopResults(docs, query, limit);
    SharesCompare(rs[k].score, rs[m].score, |query|, MatchCount(Tokens(docs[i]), query), MatchCount(Tokens(docs[j]), query));
  }

  /** A document returned matches at least as many query positions as a matching document left out. */
  lemma LeftOutMatchesLess(docs: seq<Doc>, query: seq<string>, limit: int, r: SearchResult, i: nat, j: nat)
    requires IsDocMap(docs) && query != [] && i < |docs| && j < |docs|
    requires r in Top(docs, query, limit) && TellsOf(r, docs[i], query)
    requires Matches(docs[j], query) && forall s :: s in Top(docs, query, limit) ==> s.path != docs[j].path
    ensures MatchCount(Tokens(docs[i]), query) >= MatchCount(Tokens(docs[j]), query)
  {
    hide Top, Matches, Scanned, MatchCount, SnippetOf, Tokens;
    var s := Scanned(docs[j], query);
    ScannedTells(docs[j], query);
    TopResults(docs, query, limit);
    assert ScannedIn(s, docs, query);
    SharesCompare(r.score, s.score, |query|, MatchCount(Tokens(docs[i]), query), MatchCount(Tokens(docs[j]), query));
  }
}
