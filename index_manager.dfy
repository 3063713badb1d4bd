/** The chunk store of storage/index_manager.py: an append-only list of
    `{id, text}` records kept in memory and rewritten in full to a pickle file. */
module Storage {

  /** One record `{'id': ..., 'text': ...}`. */
  datatype Doc = Doc(id: int, text: string)

  /** What the pickle file at `docs_path` holds: nothing, bytes `pickle.load`
      cannot read, or a pickled list of records. */
  datatype PickleFile = Absent | Corrupt | Pickled(docs: seq<Doc>)

  /** The file behind one `docs_path`. Every `IndexManager` opened on the same
      path shares it, while each keeps its own in-memory `docs`. */
  class DocsFile {
    var contents: PickleFile

    constructor (contents: PickleFile)
      ensures this.contents == contents
    {
      this.contents := contents;
    }
  }

  /** `[d['text'] for d in docs]`, the list `get_texts` returns. */
  function Texts(docs: seq<Doc>): (ts: seq<string>)
    ensures |ts| == |docs|
    ensures forall i :: 0 <= i < |docs| ==> ts[i] == docs[i].text
  {
    if docs == [] then [] else [docs[0].text] + Texts(docs[1..])
  }

  /** The records `add_chunks` appends when the list already holds `start`
      records: chunk `i` becomes `{'id': start + i, 'text': chunks[i]}`. */
  function Numbered(start: int, chunks: seq<string>): (ds: seq<Doc>)
    ensures |ds| == |chunks|
    ensures forall i :: 0 <= i < |chunks| ==> ds[i] == Doc(start + i, chunks[i])
    decreases |chunks|
  {
    if chunks == [] then [] else [Doc(start, chunks[0])] + Numbered(start + 1, chunks[1..])
  }

  /** The invariant the store's numbering keeps: every id is its position. */
  ghost predicate IdsArePositions(docs: seq<Doc>)
  {
    forall i :: 0 <= i < |docs| ==> docs[i].id == i
  }

  /** What `docs` holds right after `load` on a fresh manager. */
  function LoadedDocs(f: PickleFile): seq<Doc>
  {
    if f.Pickled? then f.docs else []
  }

  lemma {:induction false} TextsAppend(a: seq<Doc>, b: seq<Doc>)
    ensures Texts(a + b) == Texts(a) + Texts(b)
  {
    if a != [] {
      assert (a + b)[1..] == a[1..] + b;
      TextsAppend(a[1..], b);
    }
  }

  /** Appending numbered chunks adds exactly those texts, in order, and keeps
      ids equal to positions. */
  lemma AppendNumbered(docs: seq<Doc>, chunks: seq<string>)
    ensures Texts(docs + Numbered(|docs|, chunks)) == Texts(docs) + chunks
    ensures IdsArePositions(docs) ==> IdsArePositions(docs + Numbered(|docs|, chunks))
  {
    TextsAppend(docs, Numbered(|docs|, chunks));
    assert Texts(Numbered(|docs|, chunks)) == chunks;
  }

  class IndexManager {
    const file: DocsFile
    var docs: seq<Doc>

    /** `__init__`: start empty, then `load`. A corrupt pickle makes `__init__`
        raise, so no manager exists for it. */
    constructor (file: DocsFile)
      requires file.contents != Corrupt
      ensures this.file == file
      ensures docs == LoadedDocs(file.contents)
    {
      this.file := file;
      docs := [];
      new;
      var ok := Load();
    }

    /** `load`: with no file the list is left as it is; a readable file
        replaces it; an unreadable one raises (`ok == false`), changing nothing. */
    method Load() returns (ok: bool)
      modifies this
      ensures ok <==> file.contents != Corrupt
      ensures docs == if file.contents.Pickled? then file.contents.docs else old(docs)
    {
      match file.contents
      case Absent =>
        ok := true;
      case Corrupt =>
        ok := false;
      case Pickled(ds) =>
        docs := ds;
        ok := true;
    }

    /** `save`: the whole list is written over the file. */
    method Save()
      modifies file
      ensures file.contents == Pickled(docs)
    {
      file.contents := Pickled(docs);
    }

    /** `add_chunks`: number and append every chunk, unvalidated, then save
        the whole list (also when `chunks` is empty). */
    method AddChunks(chunks: seq<string>)
      modifies this, file
      ensures docs == old(docs) + Numbered(|old(docs)|, chunks)
      ensures |docs| == |old(docs)| + |chunks|
      ensures forall i :: 0 <= i < |chunks| ==> docs[|old(docs)| + i] == Doc(|old(docs)| + i, chunks[i])
      ensures Texts(docs) == Texts(old(docs)) + chunks
      ensures IdsArePositions(old(docs)) ==> IdsArePositions(docs)
      ensures file.contents == Pickled(docs)
    {
      var start := |docs|;
      var i := 0;
      while i < |chunks|
        invariant 0 <= i <= |chunks|
        invariant docs == old(docs) + Numbered(start, chunks[..i])
      {
        assert chunks[..i + 1] == chunks[..i] + [chunks[i]];
        docs := docs + [Doc(start + i, chunks[i])];
        i := i + 1;
      }
      assert chunks[..i] == chunks;
      AppendNumbered(old(docs), chunks);
      Save();
    }
  }
}
