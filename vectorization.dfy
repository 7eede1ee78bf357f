/** The vector side of the backend (`Vectorizer` in src/models/vectorization/vectorizer.py):
    the lazily set vector store, hybrid search (vector retrieval, cross-encoder rerank, linear
    score fusion, stable descending sort, top k) and the per-source chunk listing.

    The backends' own work is behind oracles: the similarity search returns hits with a
    vector score, the reranker scores one (query, content) pair, the library filters return
    documents. Scores are `real`: floating-point rounding is not modelled. */
module Vectorization {
  import opened Wrappers
  import opened Text
  import opened Documents

  datatype Backend = Chroma | Faiss | Milvus

  /** The backend a `vector_store_type` setting names, compared after lower-casing. */
  function BackendOf(storeType: string): Option<Backend>
  {
    var t := Lower(storeType);
    if t == "chroma" then Some(Chroma)
    else if t == "faiss" then Some(Faiss)
    else if t == "milvus" then Some(Milvus)
    else None
  }

  /** The setting is compared case-insensitively: "FAISS", "Faiss" and "faiss" name the same backend. */
  lemma BackendIgnoresCase(storeType: string)
    ensures BackendOf(Lower(storeType)) == BackendOf(storeType)
  {
    LowerIdempotent(storeType);
  }

  /** A built vector store: its backend and the documents it was built from. */
  datatype Store = Store(backend: Backend, docs: seq<Doc>)

  // ---------------------------------------------------------------------------------------
  // The store's state machine

  /** The store after `initialize_vector_store(documents)`. An empty list is refused and an
      unrecognised backend name builds nothing: both leave the store as it was. A Milvus build
      that fails (`milvusCreated` false) falls back to a FAISS store. */
  function AfterInitialize(store: Option<Store>, storeType: string, documents: seq<Doc>, milvusCreated: bool): Option<Store>
  {
    if documents == [] then store
    else
      match BackendOf(storeType)
      case Some(Chroma) => Some(Store(Chroma, documents))
      case Some(Faiss) => Some(Store(Faiss, documents))
      case Some(Milvus) => Some(Store(if milvusCreated then Milvus else Faiss, documents))
      case None => store
  }

  /** The store and the answer after `ensure_vector_store(documents)`; `milvusReachable` is
      what `check_milvus_connection` reports. */
  function AfterEnsure(store: Option<Store>, storeType: string, documents: seq<Doc>,
                       milvusReachable: bool, milvusCreated: bool): (Option<Store>, bool)
  {
    if store.Some? then (store, true)
    else if documents == [] then (store, false)
    else if BackendOf(storeType) == Some(Milvus) && !milvusReachable then (store, false)
    else
      var built := AfterInitialize(store, storeType, documents, milvusCreated);
      (built, built.Some?)
  }

  /** `ensure_vector_store` answers True exactly when a store is set afterwards; an existing
      store is kept as it is. */
  lemma EnsureReportsAvailability(store: Option<Store>, storeType: string, documents: seq<Doc>,
                                  milvusReachable: bool, milvusCreated: bool)
    ensures var (after, available) := AfterEnsure(store, storeType, documents, milvusReachable, milvusCreated);
      && (available <==> after.Some?)
      && (store.Some? ==> after == store)
      && (store.None? && documents == [] ==> !available)
  {
  }

  /** Once a store is set, initialisation never clears it, and ensuring again changes nothing. */
  lemma StoreStaysSet(store: Option<Store>, storeType: string, documents: seq<Doc>,
                      milvusReachable: bool, milvusCreated: bool)
    requires store.Some?
    ensures AfterInitialize(store, storeType, documents, milvusCreated).Some?
    ensures AfterEnsure(store, storeType, documents, milvusReachable, milvusCreated) == (store, true)
  {
  }

  // ---------------------------------------------------------------------------------------
  // Hybrid search: fusion, sort, top k

  /** One hit of `similarity_search_with_score`: a document and its vector score. */
  datatype Hit = Hit(doc: Doc, score: real)

  /** A candidate dict before reranking: content, metadata, vector_score. */
  datatype Candidate = Candidate(content: string, metadata: map<string, MetaValue>, vectorScore: real)

  /** A result dict: the candidate with rerank_score and final_score added. */
  datatype ScoredResult = ScoredResult(content: string, metadata: map<string, MetaValue>,
                                       vectorScore: real, rerankScore: real, finalScore: real)

  /** The weighted fusion `0.3 * (1 - vector_score) + 0.7 * rerank_score`. */
  function FusedScore(vectorScore: real, rerankScore: real): real
  {
    0.3 * (1.0 - vectorScore) + 0.7 * rerankScore
  }

  /** The fusion treats the vector score as a distance: a closer and better-reranked candidate
      never scores lower. */
  lemma FusionIsMonotone(v1: real, r1: real, v2: real, r2: real)
    requires v1 <= v2 && r1 >= r2
    ensures FusedScore(v1, r1) >= FusedScore(v2, r2)
    ensures v1 < v2 || r1 > r2 ==> FusedScore(v1, r1) > FusedScore(v2, r2)
  {
  }

  function Scored(query: string, c: Candidate, rerank: (string, string) -> real): ScoredResult
  {
    var r := rerank(query, c.content);
    ScoredResult(c.content, c.metadata, c.vectorScore, r, FusedScore(c.vectorScore, r))
  }

  /** The candidates, each reranked against the query and given its fused score. */
  function Rescored(query: string, hits: seq<Hit>, rerank: (string, string) -> real): (r: seq<ScoredResult>)
    ensures |r| == |hits|
    ensures forall i :: 0 <= i < |hits| ==>
      && r[i].content == hits[i].doc.pageContent && r[i].metadata == hits[i].doc.metadata
      && r[i].vectorScore == hits[i].score
      && r[i].rerankScore == rerank(query, hits[i].doc.pageContent)
      && r[i].finalScore == 0.3 * (1.0 - hits[i].score) + 0.7 * r[i].rerankScore
  {
    seq(|hits|, i requires 0 <= i < |hits| =>
      Scored(query, Candidate(hits[i].doc.pageContent, hits[i].doc.metadata, hits[i].score), rerank))
  }

  /** Non-increasing `final_score` order. */
  ghost predicate SortedDescending(s: seq<ScoredResult>)
  {
    forall i, j :: 0 <= i < j < |s| ==> s[i].finalScore >= s[j].finalScore
  }

  /** Inserts `x` before the first element that does not score higher, so that among equal
      scores the earlier element stays first. */
  function InsertDescending(x: ScoredResult, s: seq<ScoredResult>): seq<ScoredResult>
    decreases |s|
  {
    if s == [] then [x]
    else if s[0].finalScore <= x.finalScore then [x] + s
    else [s[0]] + InsertDescending(x, s[1..])
  }

  /** `list.sort(key=final_score, reverse=True)`: a stable sort into descending order. */
  function SortDescending(s: seq<ScoredResult>): seq<ScoredResult>
    decreases |s|
  {
    if s == [] then [] else InsertDescending(s[0], SortDescending(s[1..]))
  }

  /** The elements scoring exactly `v`, in their order. */
  function WithScore(s: seq<ScoredResult>, v: real): seq<ScoredResult>
    decreases |s|
  {
    if s == [] then []
    else (if s[0].finalScore == v then [s[0]] else []) + WithScore(s[1..], v)
  }

  /** Every element scores at most `b`. */
  ghost predicate ScoresAtMost(s: seq<ScoredResult>, b: real)
  {
    forall i :: 0 <= i < |s| ==> s[i].finalScore <= b
  }

  lemma {:induction false} InsertDescendingAtMost(x: ScoredResult, s: seq<ScoredResult>, b: real)
    requires ScoresAtMost(s, b) && x.finalScore <= b
    ensures ScoresAtMost(InsertDescending(x, s), b)
    decreases |s|
  {
    if s != [] && s[0].finalScore > x.finalScore {
      var tail := s[1..];
      assert ScoresAtMost(tail, b) by {
        forall i | 0 <= i < |tail| ensures tail[i].finalScore <= b {
          assert tail[i] == s[i + 1];
        }
      }
      InsertDescendingAtMost(x, tail, b);
      var rest := InsertDescending(x, tail);
      var r := [s[0]] + rest;
      forall i | 0 <= i < |r| ensures r[i].finalScore <= b {
        if i > 0 { assert r[i] == rest[i - 1]; }
      }
    }
  }

  lemma {:induction false} InsertDescendingSorted(x: ScoredResult, s: seq<ScoredResult>)
    requires SortedDescending(s)
    ensures SortedDescending(InsertDescending(x, s))
    decreases |s|
  {
    if s == [] {
    } else if s[0].finalScore <= x.finalScore {
      var r := [x] + s;
      forall i, j | 0 <= i < j < |r| ensures r[i].finalScore >= r[j].finalScore {
        assert r[j] == s[j - 1];
        if i > 0 {
          assert r[i] == s[i - 1];
        } else {
          assert s[0].finalScore >= s[j - 1].finalScore;
        }
      }
    } else {
      var tail := s[1..];
      assert SortedDescending(tail) by {
        forall i, j | 0 <= i < j < |tail| ensures tail[i].finalScore >= tail[j].finalScore {
          assert tail[i] == s[i + 1] && tail[j] == s[j + 1];
        }
      }
      assert ScoresAtMost(tail, s[0].finalScore) by {
        forall i | 0 <= i < |tail| ensures tail[i].finalScore <= s[0].finalScore {
          assert tail[i] == s[i + 1];
        }
      }
      InsertDescendingSorted(x, tail);
      InsertDescendingAtMost(x, tail, s[0].finalScore);
      var rest := InsertDescending(x, tail);
      var r := [s[0]] + rest;
      assert InsertDescending(x, s) == r;
      forall i, j | 0 <= i < j < |r| ensures r[i].finalScore >= r[j].finalScore {
        assert r[j] == rest[j - 1];
        if i > 0 {
          assert r[i] == rest[i - 1];
        }
      }
    }
  }

  lemma {:induction false} InsertDescendingPermutes(x: ScoredResult, s: seq<ScoredResult>)
    ensures multiset(InsertDescending(x, s)) == multiset(s) + multiset{x}
    decreases |s|
  {
    if s != [] && s[0].finalScore > x.finalScore {
      InsertDescendingPermutes(x, s[1..]);
      assert s == [s[0]] + s[1..];
    }
  }

  /** The sort yields non-increasing scores and a permutation of its input. */
  lemma {:induction false} SortDescendingSorted(s: seq<ScoredResult>)
    ensures SortedDescending(SortDescending(s))
    ensures multiset(SortDescending(s)) == multiset(s)
    decreases |s|
  {
    if s != [] {
      SortDescendingSorted(s[1..]);
      InsertDescendingSorted(s[0], SortDescending(s[1..]));
      InsertDescendingPermutes(s[0], SortDescending(s[1..]));
      assert s == [s[0]] + s[1..];
    }
  }

  lemma {:induction false} InsertDescendingStable(x: ScoredResult, s: seq<ScoredResult>, v: real)
    ensures WithScore(InsertDescending(x, s), v) == (if x.finalScore == v then [x] else []) + WithScore(s, v)
    decreases |s|
  {
    if s == [] {
      assert WithScore([x], v) == (if x.finalScore == v then [x] else []) + WithScore([], v);
    } else if s[0].finalScore <= x.finalScore {
      assert ([x] + s)[1..] == s;
    } else {
      InsertDescendingStable(x, s[1..], v);
      assert ([s[0]] + InsertDescending(x, s[1..]))[1..] == InsertDescending(x, s[1..]);
    }
  }

  /** The sort is stable: the elements of any one score keep their retrieval order. */
  lemma {:induction false} SortDescendingStable(s: seq<ScoredResult>, v: real)
    ensures WithScore(SortDescending(s), v) == WithScore(s, v)
    decreases |s|
  {
    if s != [] {
      SortDescendingStable(s[1..], v);
      InsertDescendingStable(s[0], SortDescending(s[1..]), v);
    }
  }

  lemma {:induction false} WithScorePrefix(s: seq<ScoredResult>, n: nat, v: real)
    requires n <= |s|
    ensures WithScore(s[..n], v) <= WithScore(s, v)
    decreases n
  {
    if n > 0 {
      WithScorePrefix(s[1..], n - 1, v);
      assert s[..n][1..] == s[1..][..n - 1];
    }
  }

  /** The candidates sorted by fused score and cut to the first `k` (`candidates[:k]`). */
  function TopK(scored: seq<ScoredResult>, k: int): seq<ScoredResult>
  {
    SlicePrefix(SortDescending(scored), k)
  }

  /** For `k >= 0` the selection is the first `min(k, #candidates)` of the sorted candidates. */
  lemma TopKIsSortedPrefix(scored: seq<ScoredResult>, k: int)
    requires k >= 0
    ensures |SortDescending(scored)| == |scored|
    ensures |TopK(scored, k)| == (if k <= |scored| then k else |scored|)
    ensures TopK(scored, k) == SortDescending(scored)[..|TopK(scored, k)|]
  {
    SortDescendingSorted(scored);
    assert |multiset(SortDescending(scored))| == |multiset(scored)|;
  }

  /** The results are in non-increasing score order and are taken from the candidates. */
  lemma TopKSortedSubset(scored: seq<ScoredResult>, k: int)
    requires k >= 0
    ensures SortedDescending(TopK(scored, k))
    ensures multiset(TopK(scored, k)) <= multiset(scored)
  {
    var sorted := SortDescending(scored);
    SortDescendingSorted(scored);
    TopKIsSortedPrefix(scored, k);
    var r := TopK(scored, k);
    assert sorted == r + sorted[|r|..];
    assert forall i, j :: 0 <= i < j < |r| ==> r[i] == sorted[i] && r[j] == sorted[j];
  }

  /** What the selection leaves out is the rest of the sorted candidates. */
  lemma TopKDropped(scored: seq<ScoredResult>, k: int)
    requires k >= 0
    ensures var sorted := SortDescending(scored);
      multiset(scored) - multiset(TopK(scored, k)) == multiset(sorted[|TopK(scored, k)|..])
  {
    var sorted := SortDescending(scored);
    SortDescendingSorted(scored);
    TopKIsSortedPrefix(scored, k);
    var r := TopK(scored, k);
    assert sorted == r + sorted[|r|..];
  }

  /** In a descending sequence everything before a cut scores at least as much as everything
      after it. */
  lemma CutDominates(sorted: seq<ScoredResult>, n: nat, x: ScoredResult, y: ScoredResult)
    requires SortedDescending(sorted) && n <= |sorted|
    requires x in sorted[..n] && y in sorted[n..]
    ensures x.finalScore >= y.finalScore
  {
    var i :| 0 <= i < n && sorted[..n][i] == x;
    var j :| 0 <= j < |sorted| - n && sorted[n..][j] == y;
    assert sorted[i] == x && sorted[n + j] == y;
  }

  /** No candidate left out scores higher than one that was kept. */
  lemma TopKKeepsHighest(scored: seq<ScoredResult>, k: int)
    requires k >= 0
    ensures forall x, y :: x in TopK(scored, k) && y in multiset(scored) - multiset(TopK(scored, k)) ==>
              x.finalScore >= y.finalScore
  {
    var sorted := SortDescending(scored);
    var r := TopK(scored, k);
    var n := |r|;
    SortDescendingSorted(scored);
    TopKIsSortedPrefix(scored, k);
    TopKDropped(scored, k);
    forall x, y | x in r && y in multiset(scored) - multiset(r) ensures x.finalScore >= y.finalScore {
      assert y in sorted[n..];
      CutDominates(sorted, n, x, y);
    }
  }

  /** Among results of equal score the retrieval order is kept, and they are the first ones of
      that score among the candidates. */
  lemma TopKStable(scored: seq<ScoredResult>, k: int, v: real)
    requires k >= 0
    ensures WithScore(TopK(scored, k), v) <= WithScore(scored, v)
  {
    TopKIsSortedPrefix(scored, k);
    WithScorePrefix(SortDescending(scored), |TopK(scored, k)|, v);
    SortDescendingStable(scored, v);
  }

  /** Documents whose `metadata["source"]` is `path`, in stored order. */
  function FromSource(docs: seq<Doc>, path: string): seq<Doc>
    decreases |docs|
  {
    if docs == [] then []
    else
      FromSource(docs[..|docs| - 1], path)
        + if MetaGet(docs[|docs| - 1], "source") == Some(Str(path)) then [docs[|docs| - 1]] else []
  }

  /** The source filter keeps every document of that source, as often as it is stored, and
      nothing else. */
  lemma {:induction false} FromSourceExactly(docs: seq<Doc>, path: string)
    ensures forall d :: multiset(FromSource(docs, path))[d] ==
                        (if MetaGet(d, "source") == Some(Str(path)) then multiset(docs)[d] else 0)
    decreases |docs|
  {
    if docs != [] {
      var init := docs[..|docs| - 1];
      FromSourceExactly(init, path);
      assert docs == init + [docs[|docs| - 1]];
    }
  }

  // ---------------------------------------------------------------------------------------
  // The vectorizer object

  class Vectorizer {
    /** The `vector_store_type` setting. */
    const storeType: string
    /** `self.vector_store`: None until a store is built. */
    var vectorStore: Option<Store>

    constructor(storeType: string)
      ensures this.storeType == storeType && vectorStore == None
    {
      this.storeType := storeType;
      vectorStore := None;
    }

    /** `is_initialized`. */
    method IsInitialized() returns (initialized: bool)
      ensures initialized <==> vectorStore.Some?
    {
      initialized := vectorStore.Some?;
    }

    /** `initialize_vector_store`; `milvusCreated` is whether `Milvus.from_documents` succeeds. */
    method InitializeVectorStore(documents: seq<Doc>, milvusCreated: bool)
      modifies this
      ensures vectorStore == AfterInitialize(old(vectorStore), storeType, documents, milvusCreated)
    {
      if documents == [] {
        return;
      }
      var backend := BackendOf(storeType);
      if backend == Some(Chroma) {
        vectorStore := Some(Store(Chroma, documents));
      } else if backend == Some(Faiss) {
        vectorStore := Some(Store(Faiss, documents));
      } else if backend == Some(Milvus) {
        if milvusCreated {
          vectorStore := Some(Store(Milvus, documents));
        } else {
          vectorStore := Some(Store(Faiss, documents));
        }
      }
    }

    /** `ensure_vector_store`; `milvusReachable` is what `check_milvus_connection` reports. */
    method EnsureVectorStore(documents: seq<Doc>, milvusReachable: bool, milvusCreated: bool)
      returns (available: bool)
      modifies this
      ensures (vectorStore, available) ==
        AfterEnsure(old(vectorStore), storeType, documents, milvusReachable, milvusCreated)
    {
      if vectorStore.None? {
        if documents != [] {
          if BackendOf(storeType) == Some(Milvus) && !milvusReachable {
            return false;
          }
          InitializeVectorStore(documents, milvusCreated);
          return vectorStore.Some?;
        } else {
          return false;
        }
      }
      return true;
    }

    /** `hybrid_search`: `search` answers `similarity_search_with_score(query, k=2k)` and
        `rerank` is the cross-encoder's score of one (query, content) pair. */
    method HybridSearch(query: string, k: int, search: (Store, string, int) -> seq<Hit>,
                        rerank: (string, string) -> real)
      returns (results: seq<ScoredResult>)
      ensures vectorStore.None? ==> results == []
      ensures vectorStore.Some? ==>
        results == TopK(Rescored(query, search(vectorStore.value, query, k * 2), rerank), k)
    {
      if vectorStore.None? {
        return [];
      }
      var hits := search(vectorStore.value, query, k * 2);
      var candidates: seq<Candidate> := [];
      var i := 0;
      while i < |hits|
        invariant 0 <= i <= |hits| && |candidates| == i
        invariant forall j :: 0 <= j < i ==>
          candidates[j] == Candidate(hits[j].doc.pageContent, hits[j].doc.metadata, hits[j].score)
      {
        candidates := candidates + [Candidate(hits[i].doc.pageContent, hits[i].doc.metadata, hits[i].score)];
        i := i + 1;
      }
      var scored: seq<ScoredResult> := [];
      i := 0;
      while i < |candidates|
        invariant 0 <= i <= |candidates| && |scored| == i
        invariant forall j :: 0 <= j < i ==> scored[j] == Scored(query, candidates[j], rerank)
      {
        var c := candidates[i];
        var r := rerank(query, c.content);
        scored := scored + [ScoredResult(c.content, c.metadata, c.vectorScore, r, FusedScore(c.vectorScore, r))];
        i := i + 1;
      }
      assert scored == Rescored(query, hits, rerank);
      results := TopK(scored, k);
    }

    /** `get_document_chunks`. The Milvus branch is the library query `milvusGet`; the Chroma and
        FAISS branches use the library filter `libraryFilter` and, when it raises (`None`),
        fall back to filtering all stored documents, which is also what any other backend name
        does. */
    method GetDocumentChunks(documentPath: string, milvusGet: (Store, string) -> seq<Doc>,
                             libraryFilter: (Store, string) -> Option<seq<Doc>>)
      returns (chunks: seq<Doc>)
      ensures vectorStore.None? ==> chunks == []
      ensures vectorStore.Some? && BackendOf(storeType) == Some(Milvus) ==>
        chunks == milvusGet(vectorStore.value, documentPath)
      ensures (vectorStore.Some? && BackendOf(storeType) in {Some(Chroma), Some(Faiss)} &&
               libraryFilter(vectorStore.value, documentPath).Some?) ==>
        chunks == libraryFilter(vectorStore.value, documentPath).value
      ensures (vectorStore.Some? && BackendOf(storeType) in {Some(Chroma), Some(Faiss)} &&
               libraryFilter(vectorStore.value, documentPath).None?) ==>
        chunks == FromSource(vectorStore.value.docs, documentPath)
      ensures vectorStore.Some? && BackendOf(storeType).None? ==>
        chunks == FromSource(vectorStore.value.docs, documentPath)
    {
      if vectorStore.None? {
        return [];
      }
      var store := vectorStore.value;
      var backend := BackendOf(storeType);
      if backend == Some(Milvus) {
        return milvusGet(store, documentPath);
      }
      if backend == Some(Chroma) || backend == Some(Faiss) {
        var filtered := libraryFilter(store, documentPath);
        if filtered.Some? {
          return filtered.value;
        }
      }
      var all := store.docs;
      chunks := [];
      var i := 0;
      while i < |all|
        invariant 0 <= i <= |all|
        invariant chunks == FromSource(all[..i], documentPath)
      {
        assert all[..i + 1][..i] == all[..i];
        if MetaGet(all[i], "source") == Some(Str(documentPath)) {
          chunks := chunks + [all[i]];
        }
        i := i + 1;
      }
      assert all[..|all|] == all;
    }
  }
}
