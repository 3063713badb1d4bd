/** The index lifecycle of services/faiss_manager.py: fingerprint the corpus,
    reuse the persisted FAISS index when its recorded fingerprint matches,
    otherwise rebuild it and write the artifact and then `meta.json`.
    FAISS itself is abstracted: a built index is the list of texts it was built
    from, and md5 is any function yielding a 32-character hex digest. */
module VectorIndex {
  import opened Errors
  import opened Storage

  /** `hashlib.md5(data.encode("utf-8")).hexdigest()`: some function of the
      data whose result always has 32 characters. Collisions are not excluded. */
  type Md5 = f: string -> string | forall s :: |f(s)| == 32
    witness (s: string) => "00000000000000000000000000000000"

  /** An in-memory FAISS store, identified by the texts it was built from
      (`FAISS.from_texts(texts, embeddings)`). */
  datatype VectorStore = VectorStore(texts: seq<string>)

  /** `meta.json`: missing, unreadable by `json.load`, or a record whose
      `docs_hash` is a string or null. */
  datatype MetaFile = NoMetaFile | UnreadableMeta | MetaJson(docsHash: Option<string>, count: int)

  /** The files `save_local` writes: missing, not loadable by `load_local`, or a saved store. */
  datatype Artifact = NoArtifact | CorruptArtifact | SavedArtifact(store: VectorStore)

  /** What the disk holds under `faiss_dir`. */
  datatype DirState = DirState(dirExists: bool, meta: MetaFile, artifact: Artifact)

  /** One write to `faiss_dir`, in the order the source performs them. */
  datatype DiskWrite = MadeDirs | SavedLocal(store: VectorStore) | WroteMeta(meta: MetaFile)

  /** The index directory, with a ghost log of the writes made to it. */
  class IndexDir {
    var state: DirState
    ghost var writes: seq<DiskWrite>

    constructor (state: DirState)
      ensures this.state == state && writes == []
    {
      this.state := state;
      writes := [];
    }

    /** `os.makedirs(faiss_dir, exist_ok=True)` */
    method MakeDirs()
      modifies this
      ensures state == old(state).(dirExists := true)
      ensures writes == old(writes) + [MadeDirs]
    {
      state := state.(dirExists := true);
      writes := writes + [MadeDirs];
    }

    /** `store.save_local(faiss_dir)` */
    method SaveLocal(store: VectorStore)
      modifies this
      ensures state == old(state).(dirExists := true, artifact := SavedArtifact(store))
      ensures writes == old(writes) + [SavedLocal(store)]
    {
      state := state.(dirExists := true, artifact := SavedArtifact(store));
      writes := writes + [SavedLocal(store)];
    }

    /** `json.dump(meta, open(meta_file, "w"))`: needs the directory to exist. */
    method WriteMeta(meta: MetaFile)
      requires state.dirExists
      modifies this
      ensures state == old(state).(meta := meta)
      ensures writes == old(writes) + [WroteMeta(meta)]
    {
      state := state.(meta := meta);
      writes := writes + [WroteMeta(meta)];
    }

    /** `FAISS.load_local(faiss_dir, embeddings)`: `None` when it raises. */
    method LoadLocal() returns (store: Option<VectorStore>)
      ensures store == if state.artifact.SavedArtifact? then Some(state.artifact.store) else None
    {
      if state.artifact.SavedArtifact? {
        store := Some(state.artifact.store);
      } else {
        store := None;
      }
    }
  }

  /** `"".join(texts)` */
  function Concat(texts: seq<string>): string
  {
    if texts == [] then "" else texts[0] + Concat(texts[1..])
  }

  lemma {:induction false} ConcatAppend(a: seq<string>, b: seq<string>)
    ensures Concat(a + b) == Concat(a) + Concat(b)
  {
    if a != [] {
      assert (a + b)[0] == a[0] && (a + b)[1..] == a[1..] + b;
      ConcatAppend(a[1..], b);
      calc {
        Concat(a + b);
        a[0] + Concat(a[1..] + b);
        a[0] + (Concat(a[1..]) + Concat(b));
        (a[0] + Concat(a[1..])) + Concat(b);
      }
    } else {
      assert a + b == b;
    }
  }

  lemma {:induction false} ConcatEmptyIffAllEmpty(texts: seq<string>)
    ensures Concat(texts) == "" <==> forall i :: 0 <= i < |texts| ==> texts[i] == ""
  {
    if texts != [] {
      ConcatEmptyIffAllEmpty(texts[1..]);
      assert forall i :: 1 <= i < |texts| ==> texts[i] == texts[1..][i - 1];
    }
  }

  /** `_compute_docs_hash`: md5 of the concatenated texts, `None` exactly when
      every text is empty (an empty corpus or one of empty strings). */
  function DocsHash(docs: seq<Doc>, md5: Md5): (h: Option<string>)
    ensures h == None <==> forall i :: 0 <= i < |docs| ==> docs[i].text == ""
    ensures h != None ==> h == Some(md5(Concat(Texts(docs)))) && |h.value| == 32
  {
    var data := Concat(Texts(docs));
    ConcatEmptyIffAllEmpty(Texts(docs));
    if data != "" then Some(md5(data)) else None
  }

  /** The fingerprint sees only the concatenation: moving a chunk boundary or
      appending an empty chunk leaves it unchanged. */
  lemma AppendEmptyTextKeepsHash(docs: seq<Doc>, id: int, md5: Md5)
    ensures DocsHash(docs + [Doc(id, "")], md5) == DocsHash(docs, md5)
  {
    AppendEmptyTextKeepsConcat(docs, id);
    SameConcatSameHash(docs + [Doc(id, "")], docs, md5);
  }

  lemma AppendEmptyTextKeepsConcat(docs: seq<Doc>, id: int)
    ensures Concat(Texts(docs + [Doc(id, "")])) == Concat(Texts(docs))
  {
    TextsAppend(docs, [Doc(id, "")]);
    ConcatAppend(Texts(docs), [""]);
    assert Texts([Doc(id, "")]) == [""];
    assert Concat([""]) == "";
  }

  /** `_compute_docs_hash` depends on nothing but the concatenated text. */
  lemma SameConcatSameHash(a: seq<Doc>, b: seq<Doc>, md5: Md5)
    requires Concat(Texts(a)) == Concat(Texts(b))
    ensures DocsHash(a, md5) == DocsHash(b, md5)
  {
  }

  /** The hash `meta.get("docs_hash")` yields; an unreadable file counts as none. */
  function StoredHash(meta: MetaFile): Option<string>
  {
    if meta.MetaJson? then meta.docsHash else None
  }

  /** Python truthiness of the stored hash. */
  predicate Truthy(h: Option<string>)
  {
    h.Some? && h.value != ""
  }

  /** What `_load_or_rebuild_faiss` decides. */
  datatype LoadPlan = NoDocs | ReuseStored(store: VectorStore) | Rebuild

  /** The decision of `_load_or_rebuild_faiss` for the manager's `docs` and
      the disk: skip an empty corpus; reuse the saved store when the directory
      exists, the stored hash is truthy and equal to the current one and the
      store loads; rebuild in every other case. */
  function PlanLoad(docs: seq<Doc>, md5: Md5, disk: DirState): LoadPlan
  {
    if docs == [] then NoDocs
    else
      var current := DocsHash(docs, md5);
      var stored := StoredHash(disk.meta);
      if disk.dirExists && Truthy(stored) && current == stored && disk.artifact.SavedArtifact?
      then ReuseStored(disk.artifact.store)
      else Rebuild
  }

  /** The disk after `_build_and_save_faiss(docs_hash)` over `texts`. */
  function AfterBuild(texts: seq<string>, docsHash: Option<string>): DirState
  {
    DirState(true, MetaJson(docsHash, |texts|), SavedArtifact(VectorStore(texts)))
  }

  /** The writes of one build, artifact before metadata. */
  function BuildWrites(texts: seq<string>, docsHash: Option<string>): seq<DiskWrite>
  {
    [MadeDirs, SavedLocal(VectorStore(texts)), WroteMeta(MetaJson(docsHash, |texts|))]
  }

  /** A reused store is one whose metadata records exactly the current
      fingerprint, which is a real md5 digest. */
  lemma ReuseMeansMatchingFingerprint(docs: seq<Doc>, md5: Md5, disk: DirState)
    requires PlanLoad(docs, md5, disk).ReuseStored?
    ensures docs != [] && disk.dirExists
    ensures disk.meta.MetaJson? && disk.meta.docsHash == Some(md5(Concat(Texts(docs))))
    ensures disk.artifact == SavedArtifact(PlanLoad(docs, md5, disk).store)
  {
  }

  /** Unreadable or missing metadata, a null hash, a different hash, a missing
      directory or an artifact `load_local` rejects all lead to a rebuild. */
  lemma FallsThroughToRebuild(docs: seq<Doc>, md5: Md5, disk: DirState)
    requires docs != []
    requires !disk.dirExists || disk.meta == UnreadableMeta || disk.meta == NoMetaFile
          || !Truthy(StoredHash(disk.meta)) || StoredHash(disk.meta) != DocsHash(docs, md5)
          || !disk.artifact.SavedArtifact?
    ensures PlanLoad(docs, md5, disk) == Rebuild
  {
  }

  /** A corpus of empty texts has no fingerprint, so it is rebuilt on every load. */
  lemma EmptyTextsNeverReuse(docs: seq<Doc>, md5: Md5, disk: DirState)
    requires docs != [] && forall i :: 0 <= i < |docs| ==> docs[i].text == ""
    ensures PlanLoad(docs, md5, disk) == Rebuild
  {
  }

  /** Round trip: after a build over the manager's docs, the next load over any
      corpus with the same concatenated text reuses that build without
      rebuilding (even a differently chunked one: the trust is in the hash). */
  lemma {:induction false} BuildThenLoadReuses(built: seq<Doc>, docs: seq<Doc>, md5: Md5)
    requires docs != []
    requires Concat(Texts(docs)) == Concat(Texts(built)) != ""
    ensures var disk := AfterBuild(Texts(built), DocsHash(built, md5));
            PlanLoad(docs, md5, disk) == ReuseStored(VectorStore(Texts(built)))
  {
    var h := DocsHash(built, md5);
    assert h == Some(md5(Concat(Texts(built))));
    assert |h.value| == 32;
  }

  /** Conversely, a corpus whose fingerprint differs from the one recorded by
      the last build is rebuilt. */
  lemma ChangedFingerprintRebuilds(built: seq<Doc>, docs: seq<Doc>, md5: Md5)
    requires docs != [] && DocsHash(docs, md5) != DocsHash(built, md5)
    ensures PlanLoad(docs, md5, AfterBuild(Texts(built), DocsHash(built, md5))) == Rebuild
  {
  }

  class FaissManager {
    const indexManager: IndexManager
    const dir: IndexDir
    const md5: Md5
    var faissStore: Option<VectorStore>

    /** `__init__`: open a chunk store of its own on `docsFile`, then load or
        rebuild the index. */
    constructor (docsFile: DocsFile, dir: IndexDir, md5: Md5)
      requires docsFile.contents != Corrupt
      modifies dir
      ensures fresh(indexManager) && indexManager.file == docsFile
      ensures indexManager.docs == LoadedDocs(docsFile.contents)
      ensures this.dir == dir && this.md5 == md5
      ensures LoadOrRebuildDone(old(dir.state), old(dir.writes))
    {
      indexManager := new IndexManager(docsFile);
      this.dir := dir;
      this.md5 := md5;
      faissStore := None;
      new;
      LoadOrRebuild();
    }

    /** The outcome `_load_or_rebuild_faiss` promises, against the disk it started from. */
    ghost predicate LoadOrRebuildDone(disk: DirState, writes: seq<DiskWrite>)
      reads this, indexManager, dir
    {
      match PlanLoad(indexManager.docs, md5, disk)
      case NoDocs =>
        faissStore == None && dir.state == disk && dir.writes == writes
      case ReuseStored(s) =>
        faissStore == Some(s) && dir.state == disk && dir.writes == writes
      case Rebuild =>
        var texts := Texts(indexManager.docs);
        var h := DocsHash(indexManager.docs, md5);
        faissStore == Some(VectorStore(texts)) && dir.state == AfterBuild(texts, h)
        && dir.writes == writes + BuildWrites(texts, h)
    }

    /** Lines 32-40: the stored hash, or none when `meta.json` is missing or unreadable. */
    method ReadMetaHash() returns (metaHash: Option<string>)
      ensures metaHash == StoredHash(dir.state.meta)
    {
      metaHash := None;
      match dir.state.meta
      case NoMetaFile =>
      case UnreadableMeta =>
      case MetaJson(h, _) =>
        metaHash := h;
    }

    /** `_load_or_rebuild_faiss` */
    method LoadOrRebuild()
      modifies this, dir
      ensures LoadOrRebuildDone(old(dir.state), old(dir.writes))
    {
      var currentHash := DocsHash(indexManager.docs, md5);
      if indexManager.docs == [] {
        faissStore := None;
        return;
      }
      var metaHash := ReadMetaHash();
      if dir.state.dirExists && Truthy(metaHash) && currentHash == metaHash {
        var loaded := dir.LoadLocal();
        if loaded.Some? {
          faissStore := loaded;
          return;
        }
      }
      var ok := BuildAndSave(currentHash);
    }

    /** `_build_and_save_faiss(docs_hash)`: raises `RetrievalError` on an empty
        corpus before touching anything; otherwise builds the store, then
        writes the artifact and then `{docs_hash, count}`. */
    method BuildAndSave(docsHash: Option<string>) returns (ok: bool)
      modifies this, dir
      ensures ok <==> indexManager.docs != []
      ensures !ok ==> faissStore == old(faissStore) && dir.state == old(dir.state)
                      && dir.writes == old(dir.writes)
      ensures ok ==> var texts := Texts(indexManager.docs);
                     faissStore == Some(VectorStore(texts))
                     && dir.state == AfterBuild(texts, docsHash)
                     && dir.writes == old(dir.writes) + BuildWrites(texts, docsHash)
    {
      var texts := Texts(indexManager.docs);
      if texts == [] {
        return false;
      }
      faissStore := Some(VectorStore(texts));
      dir.MakeDirs();
      dir.SaveLocal(faissStore.value);
      dir.WriteMeta(MetaJson(docsHash, |texts|));
      ok := true;
    }

    /** `get_faiss_store`: load or rebuild only while no store is held. */
    method GetFaissStore() returns (store: Option<VectorStore>)
      modifies this, dir
      ensures store == faissStore
      ensures old(faissStore).Some? ==>
                faissStore == old(faissStore) && dir.state == old(dir.state) && dir.writes == old(dir.writes)
      ensures old(faissStore).None? ==> LoadOrRebuildDone(old(dir.state), old(dir.writes))
    {
      if faissStore.None? {
        LoadOrRebuild();
      }
      store := faissStore;
    }

    /** `rebuild_index`: always rebuild, with a freshly computed hash, from
        this manager's own docs. */
    method RebuildIndex() returns (ok: bool)
      modifies this, dir
      ensures ok <==> indexManager.docs != []
      ensures !ok ==> faissStore == old(faissStore) && dir.state == old(dir.state)
                      && dir.writes == old(dir.writes)
      ensures ok ==> var texts := Texts(indexManager.docs);
                     var h := DocsHash(indexManager.docs, md5);
                     faissStore == Some(VectorStore(texts))
                     && dir.state == AfterBuild(texts, h)
                     && dir.writes == old(dir.writes) + BuildWrites(texts, h)
    {
      var docsHash := DocsHash(indexManager.docs, md5);
      ok := BuildAndSave(docsHash);
    }
  }
}
