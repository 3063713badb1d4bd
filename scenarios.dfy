/** End-to-end scenarios of the wiring in main.py: an ingestion-side chunk store and
    a retrieval service that each open the same `docs.pkl`, plus process
    restarts. Each scenario starts from fresh disk objects. */
module Scenarios {
  import opened Errors
  import opened Storage
  import opened VectorIndex
  import opened Reranker
  import opened Service

  /** Querying over an empty corpus fails with `RetrievalError`: no store is
      built at startup and the search on `None` raises. */
  method EmptyCorpusQueryFails(md5: Md5, search: SearchOutcome, emb: Embeddings, sqrt: SquareRoot)
    returns (r: Result<seq<Document>>)
    ensures r == Err(RetrievalError)
  {
    var docsFile := new DocsFile(Absent);
    var dir := new IndexDir(DirState(false, NoMetaFile, NoArtifact));
    var service := new LangChainService(docsFile, dir, md5, true);
    assert service.faissManager.faissStore == None;
    r := service.Query("x", 3, true, search, emb, sqrt);
  }

  /** Build over `["alpha", "beta"]`, then restart on the same files: the
      restarted manager loads the saved index and writes nothing. */
  method RestartReusesSavedIndex(md5: Md5)
    returns (built: Option<VectorStore>, reloaded: Option<VectorStore>, ghost restartWrites: seq<DiskWrite>)
    ensures built == Some(VectorStore(["alpha", "beta"]))
    ensures reloaded == built
    ensures restartWrites == []
  {
    var docs := [Doc(0, "alpha"), Doc(1, "beta")];
    var docsFile := new DocsFile(Pickled(docs));
    var dir := new IndexDir(DirState(false, NoMetaFile, NoArtifact));
    assert Texts(docs) == ["alpha", "beta"];
    assert PlanLoad(docs, md5, dir.state) == Rebuild;
    var first := new FaissManager(docsFile, dir, md5);
    built := first.faissStore;
    ghost var before := dir.writes;
    BuildThenLoadReuses(docs, docs, md5);
    assert dir.state == AfterBuild(Texts(docs), DocsHash(docs, md5));
    assert PlanLoad(docs, md5, dir.state) == ReuseStored(VectorStore(["alpha", "beta"]));
    var second := new FaissManager(docsFile, dir, md5);
    reloaded := second.faissStore;
    restartWrites := dir.writes[|before|..];
  }

  /** The ingestion side of main.py: a chunk store of its own on `docsFile`
      that appends `chunks` and saves. */
  method Ingest(docsFile: DocsFile, chunks: seq<string>)
    requires docsFile.contents == Absent
    modifies docsFile
    ensures docsFile.contents == Pickled(Numbered(0, chunks))
  {
    var ingestor := new IndexManager(docsFile);
    ingestor.AddChunks(chunks);
  }

  /** Ingesting while the service runs: the chunks reach `docs.pkl`, but the
      service's own chunk store still holds the corpus it loaded at startup,
      so `rebuild_index` raises `RetrievalError`. */
  method IngestWhileRunningIsNotIndexed(md5: Md5)
    returns (persisted: PickleFile, rebuilt: bool)
    ensures persisted == Pickled([Doc(0, "a"), Doc(1, "b"), Doc(2, "c")])
    ensures !rebuilt
  {
    var docsFile := new DocsFile(Absent);
    var dir := new IndexDir(DirState(false, NoMetaFile, NoArtifact));
    var service := new LangChainService(docsFile, dir, md5, true);
    assert service.faissManager.indexManager.docs == [];
    Ingest(docsFile, ["a", "b", "c"]);
    assert Numbered(0, ["a", "b", "c"]) == [Doc(0, "a"), Doc(1, "b"), Doc(2, "c")];
    persisted := docsFile.contents;
    rebuilt := service.RebuildIndex();
  }

  /** Queries after such an ingestion keep failing with `RetrievalError`:
      the lazy store access finds the startup corpus empty again. */
  method IngestWhileRunningQueryFails(md5: Md5, search: SearchOutcome, emb: Embeddings, sqrt: SquareRoot)
    returns (r: Result<seq<Document>>)
    ensures r == Err(RetrievalError)
  {
    var docsFile := new DocsFile(Absent);
    var dir := new IndexDir(DirState(false, NoMetaFile, NoArtifact));
    var service := new LangChainService(docsFile, dir, md5, true);
    assert service.faissManager.indexManager.docs == [] && service.faissManager.faissStore == None;
    Ingest(docsFile, ["a", "b", "c"]);
    r := service.Query("x", 3, true, search, emb, sqrt);
    assert service.faissManager.faissStore == None && service.llmManager.llmLoaded;
  }

  /** After ingesting `["a", "b", "c"]` and restarting, a query with
      `top_k = 3` asks the search for 9 candidates and, when the search
      answers, returns at most 3 documents, all among the ingested texts. */
  method IngestThenRestartRetrieves(md5: Md5, search: SearchOutcome, emb: Embeddings, sqrt: SquareRoot)
    returns (r: Result<seq<Document>>)
    ensures search.Nearest? <==> r.Ok?
    ensures r.Ok? ==> |r.value| <= 3 && forall d :: d in r.value ==> d.pageContent in ["a", "b", "c"]
  {
    var docsFile := new DocsFile(Absent);
    var dir := new IndexDir(DirState(false, NoMetaFile, NoArtifact));
    Ingest(docsFile, ["a", "b", "c"]);
    assert Texts(Numbered(0, ["a", "b", "c"])) == ["a", "b", "c"];
    var service := new LangChainService(docsFile, dir, md5, true);
    assert Texts(service.faissManager.indexManager.docs) == ["a", "b", "c"];
    assert service.faissManager.faissStore == Some(VectorStore(["a", "b", "c"]));
    r := service.Query("x", 3, true, search, emb, sqrt);
    RetrieveOutcome(Some(VectorStore(["a", "b", "c"])), true, "x", 3, search, emb, sqrt);
  }
}
