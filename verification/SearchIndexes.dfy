/**
 The in-memory full-text index of `docs-mcp/src/search.ts`. JavaScript maps and sets are
 insertion-ordered: a document map is the list of its entries, a set of paths the list of its members.
 */
module SearchIndexes {
  import opened Outcomes
  import opened InsertionOrder
  import opened Tokenizer
  import opened Snippets
  import opened SearchRanking

  datatype Doc = Doc(path: string, title: string, content: string)

  function Tokens(doc: Doc): seq<string> {
    Tokenize(doc.title + " " + doc.content)
  }

  function Post(doc: Doc): Posted {
    Posted(doc.path, Tokens(doc))
  }

  function PostAll(docs: seq<Doc>): (posted: seq<Posted>)
    ensures |posted| == |docs| && forall i :: 0 <= i < |docs| ==> posted[i] == Post(docs[i])
  {
    seq(|docs|, i requires 0 <= i < |docs| => Post(docs[i]))
  }

  /** The keys of a map are distinct. */
  predicate IsDocMap(docs: seq<Doc>) {
    forall i, j :: 0 <= i < j < |docs| ==> docs[i].path != docs[j].path
  }

  /** The set stored for `token`, empty if there is none. */
  function Stored(index: map<string, seq<string>>, token: string): seq<string> {
    if token in index then index[token] else []
  }

  /** The index holds, for every token, the documents that contain it. */
  ghost predicate Indexes(index: map<string, seq<string>>, posted: seq<Posted>) {
    forall token :: Stored(index, token) == Postings(posted, token)
  }

  /** The value of `docs.get(path)`. */
  function Find(docs: seq<Doc>, path: string): (r: Option<Doc>)
    ensures r.None? <==> forall i :: 0 <= i < |docs| ==> docs[i].path != path
    ensures r.Some? ==> r.value in docs && r.value.path == path
  {
    if docs == [] then None else if docs[0].path == path then Some(docs[0])
    else
      var r := Find(docs[1..], path);
      assert forall i :: 0 < i < |docs| ==> docs[i] == docs[1..][i - 1];
      r
  }

  function ResultOf(doc: Doc, count: nat, query: seq<string>): SearchResult
    requires query != []
  {
    SearchResult(doc.path, doc.title, count as real / |query| as real, SnippetOf(doc.content, query))
  }

  /** The results for `paths`, each with the number of times it was hit. */
  function Collect(docs: seq<Doc>, paths: seq<string>, hits: multiset<string>, query: seq<string>): seq<SearchResult>
    requires query != []
  {
    if paths == [] then []
    else
      var path := paths[|paths| - 1];
      Collect(docs, paths[..|paths| - 1], hits, query)
      + match Find(docs, path)
        case None => []
        case Some(doc) => [ResultOf(doc, hits[path], query)]
  }

  /** What the index finds for a query, in the order in which documents are first hit. */
  function Found(docs: seq<Doc>, query: seq<string>): seq<SearchResult> {
    if query == [] then []
    else
      var hits := Hits(PostAll(docs), query);
      Collect(docs, FirstSeen(hits), multiset(hits), query)
  }

  /** The end of `slice(0, limit)` of a list of `n` elements. */
  function SliceEnd(n: nat, limit: int): (end: nat)
    ensures end <= n
  {
    if limit < 0 then (if n + limit < 0 then 0 else n + limit) else if limit < n then limit else n
  }

  /** What `search` returns: the best of what the index finds. */
  function Top(docs: seq<Doc>, query: seq<string>, limit: int): seq<SearchResult> {
    var ranked := SortByScore(Found(docs, query));
    ranked[..SliceEnd(|ranked|, limit)]
  }

  // ---------------------------------------------------------------- building

  lemma PostingsAppend(posted: seq<Posted>, doc: Posted, token: string)
    ensures Postings(posted + [doc], token) == Postings(posted, token) + if token in doc.tokens then [doc.path] else []
  {
    assert (posted + [doc])[..|posted|] == posted;
  }

  /** Storing one more token of the last document keeps the index in step. */
  lemma StoreToken(index: map<string, seq<string>>, posted: seq<Posted>, path: string, tokens: seq<string>, token: string)
    requires DistinctPaths(posted) && forall i :: 0 <= i < |posted| ==> posted[i].path != path
    requires Indexes(index, posted + [Posted(path, tokens)])
    ensures Indexes(index[token := AddKey(Stored(index, token), path)], posted + [Posted(path, tokens + [token])])
  {
    hide Postings;
    var index' := index[token := AddKey(Stored(index, token), path)];
    forall t ensures Stored(index', t) == Postings(posted + [Posted(path, tokens + [token])], t) {
      PostingsAppend(posted, Posted(path, tokens), t);
      PostingsAppend(posted, Posted(path, tokens + [token]), t);
      PostingsOf(posted, t, path);
      assert Stored(index, t) == Postings(posted + [Posted(path, tokens)], t);
    }
  }

  lemma NothingIndexed()
    ensures Indexes(map[], [])
  {}

  lemma StartDocument(index: map<string, seq<string>>, posted: seq<Posted>, path: string)
    requires Indexes(index, posted)
    ensures Indexes(index, posted + [Posted(path, [])])
  {}

  // ---------------------------------------------------------------- scoring

  /** `scores`: the paths in insertion order, and the count of each. */
  ghost predicate Scores(order: seq<string>, counts: map<string, nat>, hits: seq<string>) {
    order == FirstSeen(hits) && counts.Keys == (set p | p in hits) && forall p :: p in counts ==> counts[p] == multiset(hits)[p]
  }

  lemma ScoreOne(order: seq<string>, counts: map<string, nat>, hits: seq<string>, path: string)
    requires Scores(order, counts, hits)
    ensures Scores(AddKey(order, path), counts[path := (if path in counts then counts[path] else 0) + 1], hits + [path])
  {
    assert (hits + [path])[..|hits|] == hits;
    var counts' := counts[path := (if path in counts then counts[path] else 0) + 1];
    assert multiset(hits + [path]) == multiset(hits) + multiset{path};
    assert path !in counts ==> path !in multiset(hits);
    assert counts'.Keys == set p | p in hits + [path];
  }

  /** The inner scoring loop of `search`: one query position. */
  method ScoreMatches(order: seq<string>, counts: map<string, nat>, matches: seq<string>, ghost hits: seq<string>)
    returns (order': seq<string>, counts': map<string, nat>)
    requires Scores(order, counts, hits)
    ensures Scores(order', counts', hits + matches)
  {
    hide Scores;
    order', counts' := order, counts;
    assert hits + matches[..0] == hits;
    for k := 0 to |matches|
      invariant Scores(order', counts', hits + matches[..k])
    {
      var path := matches[k];
      ScoreOne(order', counts', hits + matches[..k], path);
      assert hits + matches[..k + 1] == hits + matches[..k] + [path];
      order' := AddKey(order', path);
      counts' := counts'[path := (if path in counts' then counts'[path] else 0) + 1];
    }
    assert matches[..|matches|] == matches;
  }

  /** The loop of `search` that builds the results. */
  method BuildResults(
    docs: seq<Doc>, order: seq<string>, counts: map<string, nat>, queryTokens: seq<string>, ghost hits: seq<string>)
    returns (results: seq<SearchResult>)
    requires queryTokens != [] && Scores(order, counts, hits)
    ensures results == Collect(docs, order, multiset(hits), queryTokens)
  {
    results := [];
    for k := 0 to |order|
      invariant results == Collect(docs, order[..k], multiset(hits), queryTokens)
    {
      assert order[..k + 1][..k] == order[..k];
      var docPath := order[k];
      assert docPath in order;
      var doc := Find(docs, docPath);
      if doc.None? { continue; }
      var snippet := ExtractSnippet(doc.value.content, queryTokens);
      results := results
      + [SearchResult(docPath, doc.value.title, counts[docPath] as real / |queryTokens| as real, snippet)];
    }
    assert order[..|order|] == order;
  }

  class SearchIndex {
    var index: map<string, seq<string>>
    var docs: seq<Doc>

    ghost predicate Valid()
      reads this
    {
      IsDocMap(docs) && Indexes(index, PostAll(docs))
    }

    constructor ()
      ensures Valid() && docs == []
    {
      index, docs := map[], [];
    }

    /** Whatever was built before, the index afterwards is that of `docs`. */
    method Build(docs: seq<Doc>)
      requires IsDocMap(docs)
      modifies this
      ensures Valid() && this.docs == docs
    {
      hide Tokenize, Indexes;
      this.docs := docs;
      index := map[];
      NothingIndexed();
      for i := 0 to |docs|
        invariant this.docs == docs
        invariant Indexes(index, PostAll(docs)[..i])
      {
        ghost var before := PostAll(docs)[..i];
        var path := docs[i].path;
        var tokens := Tokens(docs[i]);
        StartDocument(index, before, path);
        assert tokens[..0] == [];
        for k := 0 to |tokens|
          invariant this.docs == docs
          invariant Indexes(index, before + [Posted(path, tokens[..k])])
        {
          StoreToken(index, before, path, tokens[..k], tokens[k]);
          assert tokens[..k + 1] == tokens[..k] + [tokens[k]];
          index := index[tokens[k] := AddKey(Stored(index, tokens[k]), path)];
        }
        assert tokens[..|tokens|] == tokens;
        assert PostAll(docs)[..i + 1] == before + [Posted(path, tokens)];
      }
      assert PostAll(docs)[..|docs|] == PostAll(docs);
    }

    /** The scoring loop of `search`. */
    method ScoreDocs(queryTokens: seq<string>) returns (order: seq<string>, counts: map<string, nat>)
      requires Valid()
      ensures Scores(order, counts, Hits(PostAll(docs), queryTokens))
    {
      order, counts := [], map[];
      ghost var posted := PostAll(docs);
      for i := 0 to |queryTokens|
        invariant Scores(order, counts, Hits(posted, queryTokens[..i]))
      {
        assert queryTokens[..i + 1][..i] == queryTokens[..i];
        var matches := Stored(index, queryTokens[i]);
        order, counts := ScoreMatches(order, counts, matches, Hits(posted, queryTokens[..i]));
      }
      assert queryTokens[..|queryTokens|] == queryTokens;
    }

    /** `search`: the top of the ranking, empty for a query without tokens. */
    method Search(query: string, limit: int := 10) returns (results: seq<SearchResult>)
      requires Valid()
      ensures results == Top(docs, Tokenize(query), limit)
    {
      var queryTokens := Tokenize(query);
      if |queryTokens| == 0 {
        return [];
      }
      var order, counts := ScoreDocs(queryTokens);
      results := BuildResults(docs, order, counts, queryTokens, Hits(PostAll(docs), queryTokens));
      var ranked := SortByScore(results);
      results := ranked[..SliceEnd(|ranked|, limit)];
    }
  }
}
