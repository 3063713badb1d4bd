# Verified model of the RAG_CompanyChat retrieval core

This Dafny project models the vector-retrieval bookkeeping of RAG_CompanyChat, an
offline question-answering service:

- **Chunk store** (`Storage`, storage/index_manager.py). `IndexManager` is a class holding the
  in-memory list of `{id, text}` records. `DocsFile` is the `docs.pkl` file, shared by every
  manager opened on that path. `add_chunks` numbers new records from the current length,
  appends them in a loop and rewrites the whole file.
- **Index lifecycle** (`VectorIndex`, services/faiss_manager.py). `FaissManager` fingerprints
  the corpus with md5 over the concatenated texts. It reuses the saved FAISS store only when
  the directory exists, the stored hash is truthy and equal to the current one, and
  `load_local` succeeds; otherwise it rebuilds. A build writes the index artifact first and
  `meta.json` second. `IndexDir` is the `faiss_dir` directory, with a ghost log of its writes.
  The pure decision is `PlanLoad`.
- **Reranker** (`Reranker`, services/reranker.py). Cosine scoring, Python's stable
  descending sort, the `top_k` slice, and the fallback to `candidates[:top_k]` when
  embedding raises. The spec function is `Rerank`. `RerankDocuments` is the method with the
  scoring loop, proved equal to it.
- **Retrieval orchestration** (`Service`, services/langchain_service.py). `LangChainService.Query`
  gets the store lazily, then requires an LLM, over-fetches `max(3*top_k, top_k)` candidates,
  maps any search failure to `RetrievalError`, and reranks. The spec function is `Retrieve`.
  `Llm.LlmManager` says only whether a model is loaded.
- **Scenarios** (`Scenarios`). End-to-end scenarios over fresh disk objects.

Foreign computations are inputs or abstract values:
- md5 is any function with 32-character results (`Md5`).
- `math.sqrt` is any function that is zero exactly at zero (`SquareRoot`).
- The embedding provider is a pair of functions; `None` stands for a call that raises.
- The approximate search is an outcome: it either raises or ranks store positions.
- A FAISS store is identified by the texts it was built from.

The retrieval service owns a chunk store separate from the ingestion side's, on the same
file (services/faiss_manager.py:12, services/ingestion_service.py:14). The model keeps the
two objects apart. `Scenarios.IngestWhileRunningIsNotIndexed` proves what follows from
that: chunks ingested while the service runs reach `docs.pkl`, but `rebuild_index` still
sees the corpus loaded at startup. From an empty start it therefore raises
`RetrievalError`, and queries keep failing (`Scenarios.IngestWhileRunningQueryFails`)
until a restart (`Scenarios.IngestThenRestartRetrieves`).

The model follows the code, including these behaviours:
- Chunk texts are not validated; empty strings are stored.
- The fingerprint covers only the concatenated text. Appending an empty chunk, or moving a
  chunk boundary, keeps the same hash, and the old index is then reused
  (`VectorIndex.AppendEmptyTextKeepsHash`, `VectorIndex.BuildThenLoadReuses`). The stored
  `count` is never compared.
- A corpus made only of empty texts has no fingerprint, so it is rebuilt on every load.
- A build assigns `faiss_store` before anything is saved.

## Model

| member | source | states |
|---|---|---|
| Errors.Take | services/reranker.py:38 | `s[:k]` has `min(k, len(s))` elements and is a prefix of `s` |
| Storage.Texts | storage/index_manager.py:28-29 | `get_texts` has one text per record, and text `i` is record `i`'s text |
| Storage.Numbered | storage/index_manager.py:23-25 | the appended record `i` has id `start + i` and text `chunks[i]`, one per chunk |
| Storage.TextsAppend | storage/index_manager.py:28-29 | the texts of two joined record lists are the joined texts |
| Storage.AppendNumbered | storage/index_manager.py:22-25 | appending numbered chunks adds exactly those texts in order and keeps ids equal to positions |
| Storage.IndexManager.constructor | storage/index_manager.py:6-9 | a new manager holds the pickled records, or nothing when no file exists |
| Storage.IndexManager.Load | storage/index_manager.py:11-15 | a readable file replaces `docs`; no file leaves `docs`; an unreadable one fails and changes nothing |
| Storage.IndexManager.Save | storage/index_manager.py:17-20 | the file afterwards holds exactly the in-memory list |
| Storage.IndexManager.AddChunks | storage/index_manager.py:22-26 | grows `docs` by exactly the chunks, numbered from the old length, keeps old records as a prefix and ids equal to positions, and persists the new list (also for no chunks) |
| VectorIndex.IndexDir.MakeDirs | services/faiss_manager.py:62 | the directory exists afterwards; nothing else changes |
| VectorIndex.IndexDir.SaveLocal | services/faiss_manager.py:63 | the artifact afterwards is the given store |
| VectorIndex.IndexDir.WriteMeta | services/faiss_manager.py:65-66 | `meta.json` afterwards is the given record |
| VectorIndex.IndexDir.LoadLocal | services/faiss_manager.py:48 | loading succeeds exactly when a saved store is on disk, and returns that store |
| VectorIndex.Concat | services/faiss_manager.py:21 | `"".join(texts)`: the texts back to back in order; its laws are `ConcatAppend` and `ConcatEmptyIffAllEmpty` |
| VectorIndex.ConcatAppend | services/faiss_manager.py:21 | joining two text lists joins their concatenations |
| VectorIndex.ConcatEmptyIffAllEmpty | services/faiss_manager.py:21-22 | the concatenation is empty exactly when every text is empty |
| VectorIndex.DocsHash | services/faiss_manager.py:19-22 | the fingerprint is `None` exactly when every text is empty, and otherwise a 32-character md5 of the concatenation |
| VectorIndex.AppendEmptyTextKeepsConcat | services/faiss_manager.py:21 | appending a record whose text is empty leaves the joined text unchanged |
| VectorIndex.SameConcatSameHash | services/faiss_manager.py:21-22 | the fingerprint depends on nothing but the concatenated text |
| VectorIndex.AppendEmptyTextKeepsHash | services/faiss_manager.py:21-22 | appending a record with empty text leaves the fingerprint unchanged |
| VectorIndex.StoredHash | services/faiss_manager.py:32-40 | the `docs_hash` the load compares against: none unless `meta.json` was parsed |
| VectorIndex.Truthy | services/faiss_manager.py:44 | Python truthiness of `meta_hash`: present and not the empty string |
| VectorIndex.PlanLoad | services/faiss_manager.py:24-55 | the decision of `_load_or_rebuild_faiss`: skip an empty corpus; reuse only with an existing directory, a truthy stored hash equal to the current one and a loadable artifact; rebuild otherwise (proved in the three lemmas below) |
| VectorIndex.ReuseMeansMatchingFingerprint | services/faiss_manager.py:42-50 | a reuse happens only with docs, an existing directory, `meta.json` holding exactly the current md5, and the store on disk |
| VectorIndex.FallsThroughToRebuild | services/faiss_manager.py:32-55 | with docs, any of these leads to a rebuild: missing directory, missing or unreadable metadata, falsy or different hash, unloadable artifact |
| VectorIndex.EmptyTextsNeverReuse | services/faiss_manager.py:42-46 | a non-empty corpus of empty texts is rebuilt whatever is on disk |
| VectorIndex.BuildThenLoadReuses | services/faiss_manager.py:42-66 | after a build, loading any corpus with the same concatenated text reuses the built store |
| VectorIndex.ChangedFingerprintRebuilds | services/faiss_manager.py:42-55 | after a build, a corpus whose fingerprint differs is rebuilt |
| VectorIndex.FaissManager.constructor | services/faiss_manager.py:11-17 | opens its own chunk store on the docs file, starts with no store, then runs load-or-rebuild |
| VectorIndex.FaissManager.ReadMetaHash | services/faiss_manager.py:32-40 | the stored hash, or none when `meta.json` is missing or unreadable |
| VectorIndex.FaissManager.LoadOrRebuild | services/faiss_manager.py:24-55 | no docs: store `None` and disk untouched; reuse: the saved store and disk untouched; otherwise a build with the current hash |
| VectorIndex.FaissManager.BuildAndSave | services/faiss_manager.py:57-67 | no texts: fails (`RetrievalError`) with nothing changed; otherwise the store is built and the disk gets the artifact and then `{docs_hash, count}` |
| VectorIndex.FaissManager.GetFaissStore | services/faiss_manager.py:69-72 | returns the held store; a held store is returned again with nothing changed; otherwise load-or-rebuild runs first |
| VectorIndex.FaissManager.RebuildIndex | services/faiss_manager.py:74-78 | always builds from the manager's own docs with a freshly computed hash, failing only on an empty corpus |
| Reranker.Dot | services/reranker.py:6 | the sum of pairwise products, over as many pairs as `zip` yields; symmetric by `DotSymmetric` |
| Reranker.SumSquares | services/reranker.py:7-8 | the sum of squares of a vector, never negative |
| Reranker.CosineSim | services/reranker.py:4-11 | the similarity is exactly 0.0 whenever either vector's sum of squares is zero |
| Reranker.DotSymmetric | services/reranker.py:6 | the zipped dot product is symmetric |
| Reranker.ZeroVectorHasNoNorm | services/reranker.py:7-8 | an all-zero vector has a zero sum of squares |
| Reranker.CosineProperties | services/reranker.py:4-11 | cosine similarity is symmetric, and it is 0.0 against an all-zero vector |
| Reranker.ScoreAll | services/reranker.py:27-30 | pair `i` is candidate `i` with the cosine of its own vector, for as many pairs as both lists have |
| Reranker.Docs | services/reranker.py:33 | the documents of the pairs, in order |
| Reranker.Insert | services/reranker.py:32 | one insertion step of the stable descending sort; it is a permutation, keeps a descending list descending and keeps each score's order (the three lemmas below) |
| Reranker.SortDesc | services/reranker.py:32 | `sort(key=score, reverse=True)`; `SortDescCorrect` proves it a stable descending permutation |
| Reranker.InsertPermutes | services/reranker.py:32 | inserting one pair permutes the list |
| Reranker.InsertSorted | services/reranker.py:32 | inserting into a descending list keeps it descending |
| Reranker.InsertStable | services/reranker.py:32 | inserting ahead of equal scores keeps every score's entries in their order |
| Reranker.WithScoreAppend | services/reranker.py:32 | filtering by score distributes over concatenation |
| Reranker.SortDescCorrect | services/reranker.py:32 | the stable sort is a permutation, descending by score, and keeps the relative order of equal scores |
| Reranker.SortDescOfSorted | services/reranker.py:32 | a list already in descending order is left unchanged |
| Reranker.DocsOfPermutation | services/reranker.py:32-33 | permuting the pairs permutes their documents |
| Reranker.Ranked | services/reranker.py:27-33 | the scored pairs that survive the sort and the `[:top_k]` slice; characterised by `RankedOrder` |
| Reranker.SortedPrefixIsTop | services/reranker.py:32-33 | the first `n` entries of a descending list score at least every entry left out |
| Reranker.PrefixWithScore | services/reranker.py:33 | a slice keeps, for every score, a prefix of that score's entries |
| Reranker.RankedOrder | services/reranker.py:32-33 | the kept pairs number exactly `min(top_k, len(scored))`, descend by score, come from the scored list, each score at least every pair left out, and are the first ones of each score |
| Reranker.RankedDocsAreCandidates | services/reranker.py:27-33 | the reranked documents are at most `top_k`, at most the candidates, and a sub-multiset of them |
| Reranker.RerankBounds | services/reranker.py:19-38 | on every path: at most `top_k` results, no more than the candidates, nothing new; no candidates give none |
| Reranker.RerankFallback | services/reranker.py:36-38 | when embedding raises the result is exactly `candidates[:top_k]` |
| Reranker.RerankOfSortedIsPrefix | services/reranker.py:32-33 | candidates already in non-increasing score order come back as their first `top_k` |
| Reranker.Rerank | services/reranker.py:13-38 | what `rerank_documents` returns: nothing for no candidates, the documents of `Ranked` when both embedding calls answer, `candidates[:top_k]` when one raises; characterised by `RerankBounds`, `RerankFallback`, `RerankOfSortedIsPrefix` and `RankedOrder` |
| Reranker.RerankDocuments | services/reranker.py:13-38 | the scoring loop, sort and slice return exactly the reranker's specified result |
| Llm.LlmManager.constructor | services/llm_manager.py:8-11 | one load attempt at start; loaded exactly when the model is available |
| Llm.LlmManager.LoadLlm | services/llm_manager.py:13-39 | a no-op when loaded; otherwise loaded exactly when available, with the failure flag set otherwise |
| Service.DocumentText | services/reranker.py:24 | the embedded text is the page content when non-empty, and never empty |
| Service.CandidateK | services/langchain_service.py:38 | `max(3*top_k, top_k)` is never below `top_k` and equals `3*top_k` when `top_k >= 0` |
| Service.Hits | services/langchain_service.py:40 | search hits are texts of the store, no more than the ranking |
| Service.SimilaritySearch | services/langchain_service.py:39-43 | searching a `None` store or a raising search fails; a success has at most `k` documents, all from the store |
| Service.Retrieve | services/langchain_service.py:28-46 | the documents `query` hands on: `GenerationError` without an LLM, `RetrievalError` when the search fails, otherwise the reranked candidates of `max(3*top_k, top_k)`; characterised by `RetrieveOutcome` |
| Service.RetrieveOutcome | services/langchain_service.py:28-46 | `GenerationError` exactly when no LLM is loaded; `RetrievalError` for no store or a failed search; a success has at most `top_k` documents, all store texts |
| Service.LangChainService.constructor | services/langchain_service.py:15-20 | builds a FAISS manager (with its own chunk store) and an LLM manager |
| Service.LangChainService.RebuildIndex | services/langchain_service.py:22-24 | has the effect of the FAISS manager's rebuild and changes nothing else |
| Service.LangChainService.Query | services/langchain_service.py:26-46 | the store is obtained lazily first, then the LLM retry (setting the failure flag as `load_llm` does), then the result is the specified retrieval over that store |
| Scenarios.Ingest | services/ingestion_service.py:14-19 | an ingestion service with a chunk store of its own on `docs.pkl` adds the chunks; the file then holds them numbered from 0 |
| Scenarios.EmptyCorpusQueryFails | services/langchain_service.py:26-43 | a query over an empty corpus fails with `RetrievalError` |
| Scenarios.RestartReusesSavedIndex | services/faiss_manager.py:11-17 | a restart on an unchanged corpus loads the saved index and writes nothing |
| Scenarios.IngestWhileRunningIsNotIndexed | main.py:35-45 | chunks ingested while running reach `docs.pkl`, but the rebuild that follows raises `RetrievalError` |
| Scenarios.IngestWhileRunningQueryFails | services/langchain_service.py:26-43 | a query after such an ingestion still fails with `RetrievalError` |
| Scenarios.IngestThenRestartRetrieves | services/langchain_service.py:26-46 | after ingesting and restarting, a query with `top_k = 3` succeeds whenever the search does, with at most 3 ingested texts |

## Left out

- HTTP layer (main.py): routes, temporary files, background tasks, status codes. Only the
  ingest-then-rebuild sequence appears, in the scenarios.
- Ingestion (services/ingestion_service.py): PDF and text extraction, and the
  SentenceTransformer. `storage/utils.chunk_text` is not part of this model, so ingested
  chunks are given directly to `AddChunks`.
- The prompt, the LLM chain and `RerankRetriever` (services/langchain_service.py:48-66,
  services/retriever_wrapper.py). The model stops at the reranked documents handed to them.
- `reload_llm` and the LlamaCpp parameters. Whether loading succeeds is an input.
- Floating point. Scores are exact reals and `math.sqrt` is abstract, so NaN, overflow and
  underflow are not modelled.
- md5, embeddings and approximate nearest-neighbour search. These are abstract functions
  or outcomes, not algorithms. The search ranking is an input and does not depend on the
  question.
- Failures of `FAISS.from_texts`, `save_local`, `os.makedirs` and the `meta.json` write. A
  build always succeeds once there are texts. So "a failed build leaves the previous index
  intact" is not modelled.
- Concurrent queries and rebuilds. The code has no locking.
- Negative `top_k`. Python's negative slicing is excluded by the `nat` type of `top_k`.
- `meta.json` values other than a string or null for `docs_hash`.
- Storage.IndexManager.constructor: requires a readable pickle. With a corrupt file the
  source's `__init__` raises and no manager exists. `Load` models that failure.
- VectorIndex.IndexDir.LoadLocal: assumes that `FAISS.load_local` gives back the store the last
  `save_local` wrote. The call at services/faiss_manager.py:48 passes no
  `allow_dangerous_deserialization=True`; `langchain_community` releases that demand that flag
  raise there, and the `except` at lines 51-52 then rebuilds on every restart. Such a library
  behaves like `CorruptArtifact` in this model (`FallsThroughToRebuild`); `BuildThenLoadReuses`
  and `Scenarios.RestartReusesSavedIndex` hold only under the round-trip assumption.
- Reranker.RerankDocuments: "no embedding calls on empty candidates" is stated as a result
  that does not depend on the embeddings (`RerankBounds`). Calls are not counted.
