/** vector.py: `get_vector_store` turns the PDF paths of an upload into
    tagged chunks and commits them to the chat's Chroma collection under
    `./chroma_db/<chat id>`; `get_retriever` opens that collection for
    diversity-aware (MMR) search.

    The PDF loader and the text splitter are not modelled: `disk` maps each
    path that exists to the chunks that loading and splitting it yields, in
    split order. A collection is a map from chunk id to document. */
module Vector {
  import opened Wrappers
  import opened Text
  import opened Documents

  const PdfSuffix := ".pdf"
  const MmrSearch := "mmr"
  const SearchK := 8

  /** One Chroma collection: chunk id to stored document. */
  type Store = map<string, Doc>

  /** The id of chunk `i` of file `name`: `f"{filename}_{i}"`. */
  function ChunkId(name: string, i: nat): string {
    name + "_" + NatToString(i)
  }

  /** Chunk `i` of file `name` after the loop writes `source_file`, `chunk`
      and `id` into its metadata; other metadata and the text are kept. */
  function TagChunk(name: string, i: nat, c: Doc): Doc {
    Doc(c.pageContent, c.metadata["source_file" := MStr(name)]["chunk" := MNat(i)]["id" := MStr(ChunkId(name, i))])
  }

  /** The tagged chunks of one file, in split order. */
  function Tag(name: string, chunks: seq<Doc>): seq<Doc> {
    seq(|chunks|, i requires 0 <= i < |chunks| => TagChunk(name, i, chunks[i]))
  }

  /** Their ids. */
  function TagIds(name: string, n: nat): seq<string> {
    seq(n, i requires 0 <= i < n => ChunkId(name, i))
  }

  /** A path the loop loads: it ends in `.pdf` and exists. */
  predicate Accepted(path: string, disk: map<string, seq<Doc>>) {
    EndsWith(path, PdfSuffix) && path in disk
  }

  function FileDocs(path: string, disk: map<string, seq<Doc>>): seq<Doc> {
    if Accepted(path, disk) then Tag(BaseName(path), disk[path]) else []
  }

  function FileIds(path: string, disk: map<string, seq<Doc>>): seq<string> {
    if Accepted(path, disk) then TagIds(BaseName(path), |disk[path]|) else []
  }

  /** The per-file batches of `files` under `f`, concatenated in file order. */
  function Batch<T>(files: seq<string>, f: string -> seq<T>): seq<T> {
    if files == [] then [] else Batch(files[..|files| - 1], f) + f(files[|files| - 1])
  }

  /** `documents_to_add` after the loop over `files`. */
  function TaggedDocs(files: seq<string>, disk: map<string, seq<Doc>>): seq<Doc> {
    Batch(files, p => FileDocs(p, disk))
  }

  /** `ids_to_add` after the loop over `files`. */
  function TaggedIds(files: seq<string>, disk: map<string, seq<Doc>>): seq<string> {
    Batch(files, p => FileIds(p, disk))
  }

  /** One more file appends its documents and its ids. */
  lemma TaggedStep(files: seq<string>, disk: map<string, seq<Doc>>)
    requires files != []
    ensures TaggedDocs(files, disk) == TaggedDocs(files[..|files| - 1], disk) + FileDocs(files[|files| - 1], disk)
    ensures TaggedIds(files, disk) == TaggedIds(files[..|files| - 1], disk) + FileIds(files[|files| - 1], disk)
  {
  }

  /** `pdf_files`, with `None` read as no files. */
  function FilesOf(pdfFiles: Option<seq<string>>): seq<string> {
    pdfFiles.GetOr([])
  }

  /** `add_documents(documents, ids)`: each document is upserted under its id,
      in order. */
  function Upsert(store: Store, ids: seq<string>, docs: seq<Doc>): Store
    requires |ids| == |docs|
  {
    if ids == [] then store
    else Upsert(store, ids[..|ids| - 1], docs[..|docs| - 1])[ids[|ids| - 1] := docs[|docs| - 1]]
  }

  /** The name `get_vector_store` gives a chat's collection:
      `f"chat_{chat_id}_pdfs"`. */
  function CollectionName(chatId: string): string {
    "chat_" + chatId + "_pdfs"
  }

  /** Different chat ids name different collections. */
  lemma CollectionNameInjective(a: string, b: string)
    requires CollectionName(a) == CollectionName(b)
    ensures a == b
  {
    var n := CollectionName(a);
    assert n == "chat_" + a + "_pdfs" && n == "chat_" + b + "_pdfs";
    assert |a| == |b|;
    assert a == n[5..5 + |a|];
    assert b == n[5..5 + |b|];
  }

  /** One directory `./chroma_db/<chat id>`: the collections it holds, by
      name. */
  type Directory = map<string, Store>

  /** The directory of `chatId`, empty when it does not exist. */
  function DirAt(dirs: map<string, Directory>, chatId: string): Directory {
    if chatId in dirs then dirs[chatId] else map[]
  }

  /** What `Chroma(collection_name=f"chat_{chat_id}_pdfs",
      persist_directory=f"./chroma_db/{chat_id}")` opens: the collection of
      that name in that directory, empty when either does not exist yet. */
  function CollectionAt(dirs: map<string, Directory>, chatId: string): Store {
    var d := DirAt(dirs, chatId);
    if CollectionName(chatId) in d then d[CollectionName(chatId)] else map[]
  }

  /** The directories once the chat's collection holds `store`; the
      directory and the collection are created when missing, and the other
      collections of the directory and the other directories are kept. */
  function WithCollection(dirs: map<string, Directory>, chatId: string, store: Store): (r: map<string, Directory>)
    ensures r.Keys == dirs.Keys + {chatId}
    ensures CollectionAt(r, chatId) == store
    ensures forall n :: n in DirAt(dirs, chatId) && n != CollectionName(chatId) ==>
      n in DirAt(r, chatId) && DirAt(r, chatId)[n] == DirAt(dirs, chatId)[n]
    ensures forall id :: id != chatId ==> DirAt(r, id) == DirAt(dirs, id)
  {
    dirs[chatId := DirAt(dirs, chatId)[CollectionName(chatId) := store]]
  }

  /** Writing the chat's collection twice keeps the second write only. */
  lemma WithCollectionTwice(dirs: map<string, Directory>, chatId: string, a: Store, b: Store)
    ensures WithCollection(WithCollection(dirs, chatId, a), chatId, b) == WithCollection(dirs, chatId, b)
  {
    var d1 := WithCollection(dirs, chatId, a);
    var n, d := CollectionName(chatId), DirAt(dirs, chatId);
    assert DirAt(d1, chatId) == d[n := a];
    assert d[n := a][n := b] == d[n := b];
    assert d1[chatId := d[n := b]] == dirs[chatId := d[n := b]];
  }

  /** The collection after `get_vector_store` has committed `files`. */
  function Commit(store: Store, files: seq<string>, disk: map<string, seq<Doc>>): Store {
    IdsMatchDocuments(files, disk);
    Upsert(store, TaggedIds(files, disk), TaggedDocs(files, disk))
  }

  /** The batch `Commit` upserts, with its two lists of equal length. */
  lemma CommitIsUpsert(store: Store, files: seq<string>, disk: map<string, seq<Doc>>)
    ensures |TaggedIds(files, disk)| == |TaggedDocs(files, disk)|
    ensures Commit(store, files, disk) == Upsert(store, TaggedIds(files, disk), TaggedDocs(files, disk))
  {
    IdsMatchDocuments(files, disk);
  }

  /** A commit adds exactly the batch's ids to the collection and keeps
      every entry outside the batch; a batch with no documents leaves the
      collection as it was. */
  lemma CommitContents(store: Store, files: seq<string>, disk: map<string, seq<Doc>>)
    ensures forall k :: k in Commit(store, files, disk) <==> k in store || k in TaggedIds(files, disk)
    ensures forall k :: k in store && k !in TaggedIds(files, disk) ==> Commit(store, files, disk)[k] == store[k]
    ensures TaggedDocs(files, disk) == [] ==> Commit(store, files, disk) == store
  {
    CommitIsUpsert(store, files, disk);
    UpsertKeys(store, TaggedIds(files, disk), TaggedDocs(files, disk));
  }

  /** An upsert adds exactly the batch's ids, stores under each id the last
      document given for it, and leaves every other entry alone. */
  lemma UpsertContents(store: Store, ids: seq<string>, docs: seq<Doc>)
    requires |ids| == |docs|
    ensures forall k :: k in Upsert(store, ids, docs) <==> k in store || k in ids
    ensures forall k :: k in store && k !in ids ==> Upsert(store, ids, docs)[k] == store[k]
    ensures forall j :: 0 <= j < |ids| && ids[j] !in ids[j + 1..] ==> Upsert(store, ids, docs)[ids[j]] == docs[j]
  {
    UpsertKeys(store, ids, docs);
    UpsertLastWins(store, ids, docs);
  }

  lemma {:induction false} UpsertKeys(store: Store, ids: seq<string>, docs: seq<Doc>)
    requires |ids| == |docs|
    ensures forall k :: k in Upsert(store, ids, docs) <==> k in store || k in ids
    ensures forall k :: k in store && k !in ids ==> Upsert(store, ids, docs)[k] == store[k]
  {
    if ids != [] {
      var n := |ids|;
      var ids' := ids[..n - 1];
      UpsertKeys(store, ids', docs[..n - 1]);
      assert ids == ids' + [ids[n - 1]];
    }
  }

  lemma {:induction false} UpsertLastWins(store: Store, ids: seq<string>, docs: seq<Doc>)
    requires |ids| == |docs|
    ensures forall k :: k in ids ==> k in Upsert(store, ids, docs)
    ensures forall j :: 0 <= j < |ids| && ids[j] !in ids[j + 1..] ==> Upsert(store, ids, docs)[ids[j]] == docs[j]
  {
    if ids != [] {
      var n := |ids|;
      var ids', docs' := ids[..n - 1], docs[..n - 1];
      UpsertKeys(store, ids, docs);
      UpsertLastWins(store, ids', docs');
      var before := Upsert(store, ids', docs');
      assert Upsert(store, ids, docs) == before[ids[n - 1] := docs[n - 1]];
      forall j | 0 <= j < n && ids[j] !in ids[j + 1..]
        ensures Upsert(store, ids, docs)[ids[j]] == docs[j]
      {
        if j < n - 1 {
          assert ids[n - 1] == ids[j + 1..][n - 2 - j];
          assert ids[j] != ids[n - 1];
          assert ids'[j + 1..] == ids[j + 1..n - 1];
          assert ids'[j] !in ids'[j + 1..];
          assert before[ids'[j]] == docs'[j];
        }
      }
    }
  }

  /** An id whose every occurrence in the batch comes with the same document
      holds that document afterwards, whichever occurrence is last. */
  lemma {:induction false} UpsertAgreeingBatch(store: Store, ids: seq<string>, docs: seq<Doc>, key: string, d: Doc)
    requires |ids| == |docs| && key in ids
    requires forall j :: 0 <= j < |ids| && ids[j] == key ==> docs[j] == d
    ensures key in Upsert(store, ids, docs) && Upsert(store, ids, docs)[key] == d
  {
    var n := |ids|;
    if ids[n - 1] != key {
      var ids', docs' := ids[..n - 1], docs[..n - 1];
      var j :| 0 <= j < n && ids[j] == key;
      assert ids'[j] == key;
      forall j' | 0 <= j' < n - 1 && ids'[j'] == key
        ensures docs'[j'] == d
      {
        assert ids'[j'] == ids[j'];
      }
      UpsertAgreeingBatch(store, ids', docs', key, d);
    }
  }

  /** There is one id per document, and each document carries its own id in
      its metadata. */
  lemma {:induction false} IdsMatchDocuments(files: seq<string>, disk: map<string, seq<Doc>>)
    ensures |TaggedIds(files, disk)| == |TaggedDocs(files, disk)|
    ensures forall j :: 0 <= j < |TaggedDocs(files, disk)| ==>
      "id" in TaggedDocs(files, disk)[j].metadata && TaggedDocs(files, disk)[j].metadata["id"] == MStr(TaggedIds(files, disk)[j])
  {
    if files != [] {
      var init, p := files[..|files| - 1], files[|files| - 1];
      IdsMatchDocuments(init, disk);
      TaggedStep(files, disk);
      FileIdsMatchDocuments(p, disk);
      var docs0, ids0 := TaggedDocs(init, disk), TaggedIds(init, disk);
      var docs, ids := TaggedDocs(files, disk), TaggedIds(files, disk);
      forall j | 0 <= j < |docs|
        ensures "id" in docs[j].metadata && docs[j].metadata["id"] == MStr(ids[j])
      {
        if j < |docs0| {
          assert docs[j] == docs0[j] && ids[j] == ids0[j];
        } else {
          assert docs[j] == FileDocs(p, disk)[j - |docs0|] && ids[j] == FileIds(p, disk)[j - |ids0|];
        }
      }
    }
  }

  /** The same for the chunks of one file. */
  lemma FileIdsMatchDocuments(path: string, disk: map<string, seq<Doc>>)
    ensures |FileIds(path, disk)| == |FileDocs(path, disk)|
    ensures forall j :: 0 <= j < |FileDocs(path, disk)| ==>
      "id" in FileDocs(path, disk)[j].metadata && FileDocs(path, disk)[j].metadata["id"] == MStr(FileIds(path, disk)[j])
  {
  }

  /** Batches concatenate: processing `a + b` is processing `a`, then `b`. */
  lemma {:induction false} BatchConcat<T>(a: seq<string>, b: seq<string>, f: string -> seq<T>)
    ensures Batch(a + b, f) == Batch(a, f) + Batch(b, f)
  {
    if b == [] {
      assert a + b == a;
    } else {
      var b' := b[..|b| - 1];
      BatchConcat(a, b', f);
      var ab := a + b;
      assert ab[..|ab| - 1] == a + b';
    }
  }

  /** Files are processed in input order: the batch for `a + b` is the batch
      for `a` followed by the batch for `b`, for documents and ids alike. */
  lemma TaggedConcat(a: seq<string>, b: seq<string>, disk: map<string, seq<Doc>>)
    ensures TaggedDocs(a + b, disk) == TaggedDocs(a, disk) + TaggedDocs(b, disk)
    ensures TaggedIds(a + b, disk) == TaggedIds(a, disk) + TaggedIds(b, disk)
  {
    BatchConcat(a, b, p => FileDocs(p, disk));
    BatchConcat(a, b, p => FileIds(p, disk));
  }

  /** Paths that do not end in `.pdf` or do not exist contribute nothing. */
  lemma {:induction false} RejectedPathsAddNothing(files: seq<string>, disk: map<string, seq<Doc>>)
    requires forall k :: 0 <= k < |files| ==> !Accepted(files[k], disk)
    ensures TaggedDocs(files, disk) == [] && TaggedIds(files, disk) == []
  {
    if files != [] {
      RejectedPathsAddNothing(files[..|files| - 1], disk);
      TaggedStep(files, disk);
    }
  }

  /** Every document in the batch is chunk `i` of some accepted input file
      `files[k]`, tagged with that file's base name and index `i`. */
  lemma {:induction false} TaggedDocProvenance(files: seq<string>, disk: map<string, seq<Doc>>, j: nat)
    returns (k: nat, i: nat)
    requires j < |TaggedDocs(files, disk)|
    ensures k < |files| && Accepted(files[k], disk) && i < |disk[files[k]]|
    ensures TaggedDocs(files, disk)[j] == TagChunk(BaseName(files[k]), i, disk[files[k]][i])
    ensures j < |TaggedIds(files, disk)| && TaggedIds(files, disk)[j] == ChunkId(BaseName(files[k]), i)
  {
    var init := files[..|files| - 1];
    var prefix := TaggedDocs(init, disk);
    TaggedStep(files, disk);
    IdsMatchDocuments(init, disk);
    IdsMatchDocuments(files, disk);
    if j < |prefix| {
      k, i := TaggedDocProvenance(init, disk, j);
      assert files[k] == init[k];
    } else {
      k, i := |files| - 1, j - |prefix|;
    }
  }

  /** Ids are unambiguous: the base name and the index can be read back from
      `f"{filename}_{i}"`. */
  lemma ChunkIdInjective(a: string, i: nat, b: string, j: nat)
    requires ChunkId(a, i) == ChunkId(b, j)
    ensures a == b && i == j
  {
    var da, db := NatToString(i), NatToString(j);
    var s := ChunkId(a, i);
    assert s == a + ['_'] + da && s == b + ['_'] + db;
    AfterLastOfJoin(a, '_', da);
    AfterLastOfJoin(b, '_', db);
    assert a == s[..|s| - |da| - 1] == b;
    NatToStringInjective(i, j);
  }

  /** The chunks of one file get pairwise different ids. */
  lemma TagIdsDistinct(name: string, n: nat)
    ensures forall j :: 0 <= j < n ==> TagIds(name, n)[j] !in TagIds(name, n)[j + 1..]
  {
    var ids := TagIds(name, n);
    forall j | 0 <= j < n
      ensures ids[j] !in ids[j + 1..]
    {
      if ids[j] in ids[j + 1..] {
        var m :| j + 1 <= m < n && ids[m] == ids[j];
        ChunkIdInjective(name, m, name, j);
        assert false;
      }
    }
  }

  /** An id `name_i` belongs to the ids of a file `name` with `n` chunks
      exactly when `i < n`. */
  lemma TagIdsMembership(name: string, n: nat, i: nat)
    ensures ChunkId(name, i) in TagIds(name, n) <==> i < n
  {
    if i < n {
      assert TagIds(name, n)[i] == ChunkId(name, i);
    }
    if ChunkId(name, i) in TagIds(name, n) {
      var m :| 0 <= m < n && TagIds(name, n)[m] == ChunkId(name, i);
      ChunkIdInjective(name, m, name, i);
    }
  }

  /** Every chunk of every accepted file is in the collection afterwards,
      under the id made of the file's base name and the chunk's index. */
  lemma CommitIndexesFile(store: Store, files: seq<string>, disk: map<string, seq<Doc>>, k: nat, i: nat)
    requires k < |files| && Accepted(files[k], disk) && i < |disk[files[k]]|
    ensures ChunkId(BaseName(files[k]), i) in TaggedIds(files, disk)
    ensures ChunkId(BaseName(files[k]), i) in Commit(store, files, disk)
  {
    var p := files[k];
    var pre, post := files[..k], files[k + 1..];
    assert files == pre + [p] + post;
    TaggedConcat(pre + [p], post, disk);
    TaggedConcat(pre, [p], disk);
    TaggedStep([p], disk);
    assert [p][..0] == [];
    var ids := TaggedIds(files, disk);
    assert ids == TaggedIds(pre, disk) + TagIds(BaseName(p), |disk[p]|) + TaggedIds(post, disk);
    assert ids[|TaggedIds(pre, disk)| + i] == ChunkId(BaseName(p), i);
    IdsMatchDocuments(files, disk);
    UpsertContents(store, ids, TaggedDocs(files, disk));
  }

  /** Committing one accepted file upserts its tagged chunks. */
  lemma CommitOneFile(store: Store, p: string, disk: map<string, seq<Doc>>)
    requires Accepted(p, disk)
    ensures Commit(store, [p], disk) == Upsert(store, TagIds(BaseName(p), |disk[p]|), Tag(BaseName(p), disk[p]))
  {
    TaggedStep([p], disk);
    assert [p][..0] == [];
    assert TaggedDocs([], disk) == [] && TaggedIds([], disk) == [];
    assert TaggedDocs([p], disk) == Tag(BaseName(p), disk[p]);
    assert TaggedIds([p], disk) == TagIds(BaseName(p), |disk[p]|);
  }

  /** After upserting the chunks of file `name`, chunk `i` is stored under
      `name_i`, and ids that are not of this file keep their documents. */
  lemma UpsertFileContents(store: Store, name: string, chunks: seq<Doc>)
    ensures var s := Upsert(store, TagIds(name, |chunks|), Tag(name, chunks));
      && (forall i :: 0 <= i < |chunks| ==> ChunkId(name, i) in s && s[ChunkId(name, i)] == TagChunk(name, i, chunks[i]))
      && (forall k :: k in store && k !in TagIds(name, |chunks|) ==> k in s && s[k] == store[k])
  {
    var ids := TagIds(name, |chunks|);
    TagIdsDistinct(name, |chunks|);
    UpsertContents(store, ids, Tag(name, chunks));
    forall i | 0 <= i < |chunks|
      ensures ChunkId(name, i) == ids[i]
    {
    }
  }

  /** Uploading a file again under the same base name upserts over the
      earlier upload: every chunk index the new version has is replaced, and
      chunks of the old version beyond the new version's length stay in the
      collection. */
  lemma ReuploadOverwrites(store: Store, p: string, q: string, disk1: map<string, seq<Doc>>, disk2: map<string, seq<Doc>>)
    requires Accepted(p, disk1) && Accepted(q, disk2) && BaseName(p) == BaseName(q)
    ensures var name, s := BaseName(q), Commit(Commit(store, [p], disk1), [q], disk2);
      && (forall i :: 0 <= i < |disk2[q]| ==> ChunkId(name, i) in s && s[ChunkId(name, i)] == TagChunk(name, i, disk2[q][i]))
      && (forall i :: |disk2[q]| <= i < |disk1[p]| ==> ChunkId(name, i) in s && s[ChunkId(name, i)] == TagChunk(name, i, disk1[p][i]))
  {
    var name := BaseName(q);
    var c1, c2 := disk1[p], disk2[q];
    var s1 := Commit(store, [p], disk1);
    CommitOneFile(store, p, disk1);
    CommitOneFile(s1, q, disk2);
    UpsertFileContents(store, name, c1);
    UpsertFileContents(s1, name, c2);
    forall i | |c2| <= i < |c1|
      ensures ChunkId(name, i) !in TagIds(name, |c2|)
    {
      TagIdsMembership(name, |c2|, i);
    }
  }

  /** The inner loop of `get_vector_store`: tags the chunks of one file. */
  method TagFile(name: string, chunks: seq<Doc>) returns (documents: seq<Doc>, ids: seq<string>)
    ensures documents == Tag(name, chunks) && ids == TagIds(name, |chunks|)
  {
    documents, ids := [], [];
    for i := 0 to |chunks|
      invariant |documents| == |ids| == i
      invariant forall m :: 0 <= m < i ==> documents[m] == TagChunk(name, m, chunks[m])
      invariant forall m :: 0 <= m < i ==> ids[m] == ChunkId(name, m)
    {
      var docId := ChunkId(name, i);
      var metadata := chunks[i].metadata;
      metadata := metadata["source_file" := MStr(name)];
      metadata := metadata["chunk" := MNat(i)];
      metadata := metadata["id" := MStr(docId)];
      documents := documents + [Doc(chunks[i].pageContent, metadata)];
      ids := ids + [docId];
    }
  }

  /** The documents and ids the loop of `get_vector_store` collects. */
  method CollectChunks(pdfFiles: Option<seq<string>>, disk: map<string, seq<Doc>>)
    returns (documents: seq<Doc>, ids: seq<string>)
    ensures documents == TaggedDocs(FilesOf(pdfFiles), disk)
    ensures ids == TaggedIds(FilesOf(pdfFiles), disk)
    ensures |ids| == |documents|
  {
    documents, ids := [], [];
    if pdfFiles.Some? && pdfFiles.value != [] {
      var files := pdfFiles.value;
      for k := 0 to |files|
        invariant documents == TaggedDocs(files[..k], disk)
        invariant ids == TaggedIds(files[..k], disk)
      {
        var path := files[k];
        assert files[..k + 1][..k] == files[..k];
        TaggedStep(files[..k + 1], disk);
        if EndsWith(path, PdfSuffix) && path in disk {
          var fileDocuments, fileIds := TagFile(BaseName(path), disk[path]);
          documents := documents + fileDocuments;
          ids := ids + fileIds;
        }
      }
      assert files[..|files|] == files;
    }
    IdsMatchDocuments(FilesOf(pdfFiles), disk);
  }

  /** A retriever over one chat's collection: its search type and result count. */
  datatype Retriever = Retriever(chatId: string, searchType: string, k: nat)

  /** `vector_store.as_retriever(search_type="mmr", search_kwargs={"k": 8})`. */
  function MmrRetriever(chatId: string): Retriever {
    Retriever(chatId, MmrSearch, SearchK)
  }

  /** The `./chroma_db` directory: one directory per chat id, each holding
      its Chroma collections by name. */
  class VectorDb {
    var dirs: map<string, Directory>

    constructor (dirs: map<string, Directory>)
      ensures this.dirs == dirs
    {
      this.dirs := dirs;
    }

    /** `get_vector_store(chat_id, pdf_files)`: opens or creates the
        collection `chat_<chat id>_pdfs` in the chat's directory and calls
        `add_documents` exactly when the batch is non-empty, whether or not
        the directory existed before. */
    method GetVectorStore(chatId: string, pdfFiles: Option<seq<string>>, disk: map<string, seq<Doc>>)
      returns (committed: bool)
      modifies this
      ensures committed <==> TaggedDocs(FilesOf(pdfFiles), disk) != []
      ensures dirs == WithCollection(old(dirs), chatId, Commit(CollectionAt(old(dirs), chatId), FilesOf(pdfFiles), disk))
    {
      var dbExists := chatId in dirs;
      var documents, ids := CollectChunks(pdfFiles, disk);
      var store := CollectionAt(dirs, chatId);
      CommitIsUpsert(store, FilesOf(pdfFiles), disk);
      WithCollectionTwice(dirs, chatId, store, Commit(store, FilesOf(pdfFiles), disk));
      dirs := WithCollection(dirs, chatId, store);
      if !dbExists {
        if documents != [] {
          AddDocuments(chatId, documents, ids);
          committed := true;
        } else {
          committed := false;
        }
      } else if documents != [] {
        AddDocuments(chatId, documents, ids);
        committed := true;
      } else {
        committed := false;
      }
    }

    /** `vector_store.add_documents(documents, ids)` on the open collection. */
    method AddDocuments(chatId: string, documents: seq<Doc>, ids: seq<string>)
      requires |ids| == |documents|
      modifies this
      ensures dirs == WithCollection(old(dirs), chatId, Upsert(CollectionAt(old(dirs), chatId), ids, documents))
    {
      dirs := WithCollection(dirs, chatId, Upsert(CollectionAt(dirs, chatId), ids, documents));
    }

    /** `get_retriever(chat_id, pdf_files)`: the store as `get_vector_store`
        leaves it, searched by MMR with `k = 8`. */
    method GetRetriever(chatId: string, pdfFiles: Option<seq<string>>, disk: map<string, seq<Doc>>)
      returns (r: Retriever)
      modifies this
      ensures r == Retriever(chatId, MmrSearch, 8)
      ensures dirs == WithCollection(old(dirs), chatId, Commit(CollectionAt(old(dirs), chatId), FilesOf(pdfFiles), disk))
    {
      var _ := GetVectorStore(chatId, pdfFiles, disk);
      r := MmrRetriever(chatId);
    }
  }

  /** With no paths, or none that is a PDF on disk, the call only opens or
      creates the collection. */
  lemma NothingToAddLeavesStore(store: Store, files: seq<string>, disk: map<string, seq<Doc>>)
    requires forall k :: 0 <= k < |files| ==> !Accepted(files[k], disk)
    ensures Commit(store, files, disk) == store
  {
    RejectedPathsAddNothing(files, disk);
  }
}
