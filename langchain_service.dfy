/** The retrieval half of services/langchain_service.py: obtain the store
    lazily, require a loaded LLM, over-fetch `3 * top_k` candidates from the
    approximate search and rerank them down to `top_k`. The prompt and the
    LLM chain that consume the reranked documents are not modelled. */
module Service {
  import opened Errors
  import opened Storage
  import opened VectorIndex
  import opened Reranker
  import opened Llm

  /** A LangChain `Document` returned by the FAISS store. */
  datatype Document = Document(pageContent: string)

  /** `getattr(d, "page_content", "") or str(d)`: the text the reranker embeds.
      `str()` of a document that `FAISS.from_texts` created without metadata
      is `page_content='...'`. */
  function DocumentText(d: Document): (t: string)
    ensures t != ""
    ensures d.pageContent != "" ==> t == d.pageContent
  {
    if d.pageContent != "" then d.pageContent else "page_content=''"
  }

  /** `candidate_k = max(top_k * 3, top_k)`: three times `top_k` whenever
      `top_k` is not negative, and never below `top_k`. */
  function CandidateK(topK: int): (k: int)
    ensures k >= topK
    ensures topK >= 0 ==> k == 3 * topK
    ensures topK < 0 ==> k == topK
  {
    if topK * 3 >= topK then topK * 3 else topK
  }

  /** What the approximate search does for one call: raise, or rank the
      store's texts by position, nearest first. */
  datatype SearchOutcome = SearchRaises | Nearest(positions: seq<nat>)

  /** The documents at the valid positions of a ranking, in ranking order. */
  function Hits(texts: seq<string>, positions: seq<nat>): (ds: seq<Document>)
    ensures |ds| <= |positions|
    ensures forall d :: d in ds ==> d.pageContent in texts
  {
    if positions == [] then []
    else
      (if positions[0] < |texts| then [Document(texts[positions[0]])] else [])
      + Hits(texts, positions[1..])
  }

  /** `faiss_store.similarity_search(question, k=k)`: a `None` store has no
      such method, so the call raises; otherwise at most `k` documents, all
      from the store. */
  function SimilaritySearch(store: Option<VectorStore>, k: nat, outcome: SearchOutcome): (r: Result<seq<Document>>)
    ensures store.None? || outcome.SearchRaises? ==> r.Err?
    ensures r.Ok? ==> |r.value| <= k && forall d :: d in r.value ==> d.pageContent in store.value.texts
  {
    if store.None? then Err(RetrievalError)
    else match outcome
      case SearchRaises => Err(RetrievalError)
      case Nearest(positions) => Ok(Take(Hits(store.value.texts, positions), k))
  }

  /** The documents `query` hands to the LLM chain, given the store after the
      lazy access and whether an LLM is loaded after the retry. */
  function Retrieve(store: Option<VectorStore>, llmLoaded: bool, question: string, topK: nat,
                    search: SearchOutcome, emb: Embeddings, sqrt: SquareRoot): Result<seq<Document>>
  {
    if !llmLoaded then Err(GenerationError)
    else match SimilaritySearch(store, CandidateK(topK), search)
      case Err(_) => Err(RetrievalError)
      case Ok(candidates) => Ok(Rerank(question, candidates, DocumentText, emb, topK, sqrt))
  }

  /** The failure paths are told apart: `GenerationError` exactly when no LLM
      is loaded, `RetrievalError` when there is no store or the search raises;
      a success carries at most `top_k` documents, all texts of the store. */
  lemma {:induction false} RetrieveOutcome(store: Option<VectorStore>, llmLoaded: bool, question: string, topK: nat,
                                           search: SearchOutcome, emb: Embeddings, sqrt: SquareRoot)
    ensures var r := Retrieve(store, llmLoaded, question, topK, search, emb, sqrt);
            && (r == Err(GenerationError) <==> !llmLoaded)
            && (llmLoaded && (store.None? || search.SearchRaises?) ==> r == Err(RetrievalError))
            && (llmLoaded && store.Some? && search.Nearest? ==> r.Ok?)
            && (r.Ok? ==> |r.value| <= topK && forall d :: d in r.value ==> d.pageContent in store.value.texts)
  {
    var r := Retrieve(store, llmLoaded, question, topK, search, emb, sqrt);
    if llmLoaded {
      var found := SimilaritySearch(store, CandidateK(topK), search);
      if found.Ok? {
        RerankBounds(question, found.value, DocumentText, emb, topK, sqrt);
        forall d | d in r.value ensures d.pageContent in store.value.texts {
          assert d in multiset(r.value);
          assert d in multiset(found.value);
        }
      }
    }
  }

  class LangChainService {
    const faissManager: FaissManager
    const llmManager: LlmManager

    /** `__init__`: a FAISS manager (with its own chunk store on `docsFile`)
        and an LLM manager. */
    constructor (docsFile: DocsFile, dir: IndexDir, md5: Md5, llmAvailable: bool)
      requires docsFile.contents != Corrupt
      modifies dir
      ensures fresh(faissManager) && fresh(faissManager.indexManager) && fresh(llmManager)
      ensures faissManager.dir == dir && faissManager.md5 == md5 && faissManager.indexManager.file == docsFile
      ensures faissManager.indexManager.docs == LoadedDocs(docsFile.contents)
      ensures faissManager.LoadOrRebuildDone(old(dir.state), old(dir.writes))
      ensures llmManager.llmLoaded == llmAvailable
    {
      faissManager := new FaissManager(docsFile, dir, md5);
      llmManager := new LlmManager(llmAvailable);
    }

    /** `rebuild_index`: delegates to the FAISS manager and does nothing else. */
    method RebuildIndex() returns (ok: bool)
      modifies faissManager, faissManager.dir
      ensures ok <==> faissManager.indexManager.docs != []
      ensures !ok ==> faissManager.faissStore == old(faissManager.faissStore)
                      && faissManager.dir.state == old(faissManager.dir.state)
                      && faissManager.dir.writes == old(faissManager.dir.writes)
      ensures ok ==> var texts := Texts(faissManager.indexManager.docs);
                     var h := DocsHash(faissManager.indexManager.docs, faissManager.md5);
                     faissManager.faissStore == Some(VectorStore(texts))
                     && faissManager.dir.state == AfterBuild(texts, h)
                     && faissManager.dir.writes == old(faissManager.dir.writes) + BuildWrites(texts, h)
    {
      ok := faissManager.RebuildIndex();
    }

    /** `query` up to the rerank (lines 26-46). The store is obtained first, so
        the access may load or build it even when generation then fails.
        `llmAvailable` is the outcome of the `load_llm` retry, `search` that of
        the approximate search, `emb` the embedding provider. */
    method Query(question: string, topK: nat, llmAvailable: bool, search: SearchOutcome,
                 emb: Embeddings, sqrt: SquareRoot) returns (r: Result<seq<Document>>)
      modifies faissManager, faissManager.dir, llmManager
      ensures old(faissManager.faissStore).Some? ==>
                faissManager.faissStore == old(faissManager.faissStore)
                && faissManager.dir.state == old(faissManager.dir.state)
                && faissManager.dir.writes == old(faissManager.dir.writes)
      ensures old(faissManager.faissStore).None? ==>
                faissManager.LoadOrRebuildDone(old(faissManager.dir.state), old(faissManager.dir.writes))
      ensures llmManager.llmLoaded == (old(llmManager.llmLoaded) || llmAvailable)
      ensures llmManager.llmLoadFailed
              == if old(llmManager.llmLoaded) then old(llmManager.llmLoadFailed) else !llmAvailable
      ensures r == Retrieve(faissManager.faissStore, llmManager.llmLoaded, question, topK, search, emb, sqrt)
    {
      var faissStore := faissManager.GetFaissStore();
      if !llmManager.llmLoaded {
        llmManager.LoadLlm(llmAvailable);
      }
      if !llmManager.llmLoaded {
        return Err(GenerationError);
      }
      var candidateK := CandidateK(topK);
      var found := SimilaritySearch(faissStore, candidateK, search);
      if found.Err? {
        return Err(RetrievalError);
      }
      var rankedDocs := RerankDocuments(question, found.value, DocumentText, emb, topK, sqrt);
      r := Ok(rankedDocs);
    }
  }
}
