/**
 What an inverted index answers, on documents given by their tokens: postings, hits,
 match counts, and the stable descending order of scored results.
 */
module SearchRanking {

  datatype Posted = Posted(path: string, tokens: seq<string>)

  predicate DistinctPaths(docs: seq<Posted>) {
    forall i, j :: 0 <= i < j < |docs| ==> docs[i].path != docs[j].path
  }

  /** The paths of the documents that contain `token`, in document order. */
  function Postings(docs: seq<Posted>, token: string): (paths: seq<string>) {
    if docs == [] then []
    else
      var last := docs[|docs| - 1];
      Postings(docs[..|docs| - 1], token) + if token in last.tokens then [last.path] else []
  }

  /** All postings of the query tokens, one query position after the other. */
  function Hits(docs: seq<Posted>, query: seq<string>): seq<string> {
    if query == [] then []
    else Hits(docs, query[..|query| - 1]) + Postings(docs, query[|query| - 1])
  }

  /** The number of query positions whose token is among `tokens`. */
  function MatchCount(tokens: seq<string>, query: seq<string>): (n: nat)
    ensures n <= |query|
  {
    if query == [] then 0
    else MatchCount(tokens, query[..|query| - 1]) + if query[|query| - 1] in tokens then 1 else 0
  }

  lemma {:induction false} MatchCountPositive(tokens: seq<string>, query: seq<string>)
    ensures MatchCount(tokens, query) > 0 <==> exists t :: t in query && t in tokens
    ensures MatchCount(tokens, query) == |query| <==> forall t :: t in query ==> t in tokens
  {
    if query != [] {
      var front, last := query[..|query| - 1], query[|query| - 1];
      MatchCountPositive(tokens, front);
      assert query == front + [last];
      assert last in query && forall t :: t in front ==> t in query;
    }
  }

  // ---------------------------------------------------------------- index and brute force agree

  lemma {:induction false} PostingsOnce(docs: seq<Posted>, token: string, path: string)
    requires DistinctPaths(docs)
    ensures multiset(Postings(docs, token))[path] <= 1
  {
    if docs != [] {
      var n := |docs| - 1;
      PostingsOnce(docs[..n], token, path);
      PostingsOf(docs[..n], token, path);
    }
  }

  lemma {:induction false} PostingsOf(docs: seq<Posted>, token: string, path: string)
    ensures path in Postings(docs, token) <==> exists i :: 0 <= i < |docs| && docs[i].path == path && token in docs[i].tokens
  {
    if docs != [] {
      var n := |docs| - 1;
      PostingsOf(docs[..n], token, path);
      if path in Postings(docs[..n], token) {
        var i :| 0 <= i < n && docs[..n][i].path == path && token in docs[..n][i].tokens;
        assert docs[i].path == path;
      }
      assert docs == docs[..n] + [docs[n]];
    }
  }

  /** A document is hit once for every query position it matches. */
  lemma {:induction false} HitsCount(docs: seq<Posted>, query: seq<string>, i: nat)
    requires DistinctPaths(docs) && i < |docs|
    ensures multiset(Hits(docs, query))[docs[i].path] == MatchCount(docs[i].tokens, query)
  {
    if query != [] {
      HitsCount(docs, query[..|query| - 1], i);
      HitOnce(docs, query[|query| - 1], i);
    }
  }

  lemma HitOnce(docs: seq<Posted>, token: string, i: nat)
    requires DistinctPaths(docs) && i < |docs|
    ensures multiset(Postings(docs, token))[docs[i].path] == if token in docs[i].tokens then 1 else 0
  {
    PostingsOf(docs, token, docs[i].path);
    PostingsOnce(docs, token, docs[i].path);
    if docs[i].path in Postings(docs, token) {
      var j :| 0 <= j < |docs| && docs[j].path == docs[i].path && token in docs[j].tokens;
      assert j == i;
    }
  }

  /** Every hit is the path of a document. */
  lemma {:induction false} HitsArePaths(docs: seq<Posted>, query: seq<string>, path: string)
    requires DistinctPaths(docs) && path in Hits(docs, query)
    ensures exists i :: 0 <= i < |docs| && docs[i].path == path
  {
    var n := |query| - 1;
    if path in Postings(docs, query[n]) {
      PostingsOf(docs, query[n], path);
    } else {
      HitsArePaths(docs, query[..n], path);
    }
  }

  /** The paths hit are those of the documents that contain some query token. */
  lemma HitsExactly(docs: seq<Posted>, query: seq<string>, i: nat)
    requires DistinctPaths(docs) && i < |docs|
    ensures docs[i].path in Hits(docs, query) <==> exists t :: t in query && t in docs[i].tokens
  {
    HitsCount(docs, query, i);
    MatchCountPositive(docs[i].tokens, query);
    assert docs[i].path in Hits(docs, query) <==> docs[i].path in multiset(Hits(docs, query));
  }

  // ---------------------------------------------------------------- the stable descending sort

  datatype SearchResult = SearchResult(path: string, title: string, score: real, snippet: string)

  predicate Descending(rs: seq<SearchResult>) {
    forall i, j :: 0 <= i < j < |rs| ==> rs[i].score >= rs[j].score
  }

  /** The results of one score, in order. */
  function WithScore(rs: seq<SearchResult>, score: real): seq<SearchResult> {
    if rs == [] then []
    else WithScore(rs[..|rs| - 1], score) + if rs[|rs| - 1].score == score then [rs[|rs| - 1]] else []
  }

  /** `sorted` is `rs` in descending order of score, results of equal score in their old order. */
  ghost predicate IsStableSort(rs: seq<SearchResult>, sorted: seq<SearchResult>) {
    Descending(sorted) && forall score :: WithScore(sorted, score) == WithScore(rs, score)
  }

  function Insert(rs: seq<SearchResult>, r: SearchResult): seq<SearchResult> {
    if rs == [] || rs[|rs| - 1].score >= r.score then rs + [r]
    else Insert(rs[..|rs| - 1], r) + [rs[|rs| - 1]]
  }

  /** `results.sort((a, b) => b.score - a.score)`. */
  function SortByScore(rs: seq<SearchResult>): seq<SearchResult> {
    if rs == [] then [] else Insert(SortByScore(rs[..|rs| - 1]), rs[|rs| - 1])
  }

  lemma {:induction false} InsertPermutes(rs: seq<SearchResult>, r: SearchResult)
    ensures multiset(Insert(rs, r)) == multiset(rs) + multiset{r}
  {
    if rs != [] && rs[|rs| - 1].score < r.score {
      InsertPermutes(rs[..|rs| - 1], r);
      assert rs == rs[..|rs| - 1] + [rs[|rs| - 1]];
    }
  }

  lemma DescendingAppend(rs: seq<SearchResult>, r: SearchResult)
    requires Descending(rs) && forall x :: x in rs ==> x.score >= r.score
    ensures Descending(rs + [r])
  {}

  lemma {:induction false} InsertDescending(rs: seq<SearchResult>, r: SearchResult)
    requires Descending(rs)
    ensures Descending(Insert(rs, r))
  {
    if rs != [] && rs[|rs| - 1].score < r.score {
      var front, last := rs[..|rs| - 1], rs[|rs| - 1];
      InsertDescending(front, r);
      InsertPermutes(front, r);
      forall x | x in Insert(front, r) ensures x.score >= last.score {
        assert x in multiset(Insert(front, r));
      }
      DescendingAppend(Insert(front, r), last);
    }
  }

  lemma WithScoreAppend(rs: seq<SearchResult>, r: SearchResult, score: real)
    ensures WithScore(rs + [r], score) == WithScore(rs, score) + if r.score == score then [r] else []
  {
    assert (rs + [r])[..|rs|] == rs;
  }

  lemma {:induction false} InsertStable(rs: seq<SearchResult>, r: SearchResult, score: real)
    requires Descending(rs)
    ensures WithScore(Insert(rs, r), score) == WithScore(rs + [r], score)
  {
    if rs != [] && rs[|rs| - 1].score < r.score {
      hide WithScore;
      var front, last := rs[..|rs| - 1], rs[|rs| - 1];
      assert rs == front + [last];
      InsertStable(front, r, score);
      WithScoreAppend(front, last, score);
      WithScoreAppend(Insert(front, r), last, score);
      WithScoreAppend(front, r, score);
      WithScoreAppend(rs, r, score);
    }
  }

  /** The sort is stable and descending, and permutes its input. */
  lemma {:induction false} SortIsStable(rs: seq<SearchResult>)
    ensures IsStableSort(rs, SortByScore(rs)) && multiset(SortByScore(rs)) == multiset(rs)
  {
    hide WithScore, Insert, Descending;
    if rs != [] {
      var front, last := rs[..|rs| - 1], rs[|rs| - 1];
      SortIsStable(front);
      InsertDescending(SortByScore(front), last);
      InsertPermutes(SortByScore(front), last);
      assert rs == front + [last];
      forall score ensures WithScore(SortByScore(rs), score) == WithScore(rs, score) {
        InsertStable(SortByScore(front), last, score);
        WithScoreAppend(SortByScore(front), last, score);
        WithScoreAppend(front, last, score);
      }
    } else {
      assert Descending([]) by { DescendingNothing(); }
    }
  }

  lemma DescendingNothing()
    ensures Descending([])
  {}

  lemma {:induction false} WithScoreMember(rs: seq<SearchResult>, score: real)
    ensures WithScore(rs, score) != [] <==> exists r :: r in rs && r.score == score
  {
    if rs != [] {
      var front, last := rs[..|rs| - 1], rs[|rs| - 1];
      WithScoreMember(front, score);
      assert rs == front + [last];
      WithScoreAppend(front, last, score);
      assert forall r :: r in rs <==> r in front || r == last;
    }
  }

  lemma LowestIsLast(rs: seq<SearchResult>, r: SearchResult)
    requires Descending(rs) && r in rs
    ensures rs[|rs| - 1].score <= r.score
  {}

  lemma LowestScoresAgree(a: seq<SearchResult>, b: seq<SearchResult>)
    requires a != [] && Descending(a) && Descending(b)
    requires forall score :: WithScore(a, score) == WithScore(b, score)
    ensures b != [] && b[|b| - 1].score <= a[|a| - 1].score
  {
    hide WithScore, Descending;
    var last := a[|a| - 1];
    assert last in a;
    WithScoreMember(a, last.score);
    WithScoreMember(b, last.score);
    var r :| r in b && r.score == last.score;
    LowestIsLast(b, r);
  }

  /** There is only one stable descending order, so how the engine sorts does not matter. */
  lemma {:induction false} StableSortIsUnique(a: seq<SearchResult>, b: seq<SearchResult>)
    requires Descending(a) && Descending(b)
    requires forall score :: WithScore(a, score) == WithScore(b, score)
    ensures a == b
  {
    if a == [] {
      if b != [] { LowestScoresAgree(b, a); }
    } else {
      LowestScoresAgree(a, b);
      LowestScoresAgree(b, a);
      var a', b' := a[..|a| - 1], b[..|b| - 1];
      var low := a[|a| - 1].score;
      assert WithScore(a, low)[|WithScore(a, low)| - 1] == a[|a| - 1];
      assert WithScore(b, low)[|WithScore(b, low)| - 1] == b[|b| - 1];
      forall score ensures WithScore(a', score) == WithScore(b', score) {
        var tail := if low == score then [a[|a| - 1]] else [];
        assert WithScore(a, score) == WithScore(a', score) + tail;
        assert WithScore(b, score) == WithScore(b', score) + tail;
        assert WithScore(a', score) == WithScore(a, score)[..|WithScore(a, score)| - |tail|];
      }
      StableSortIsUnique(a', b');
      assert a == a' + [a[|a| - 1]] && b == b' + [b[|b| - 1]];
    }
  }
}
