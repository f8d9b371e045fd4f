/** The Flask routes of app.py over the service's state: the Chroma
    collections under `./chroma_db`, the upload folders under
    `./uploaded_pdfs`, the `.jsonl` history files under `./chat_histories`,
    and the two in-memory caches `chat_histories` and `retrievers`.

    Each route is specified by a pure function from the state before the
    request to the state after it and the reply; the `Registry` class holds
    the same state in fields and implements each route step by step. */
module Server {
  import opened Wrappers
  import opened Text
  import opened ChatName
  import opened Documents
  import opened History
  import opened Prompt
  import opened Vector

  /** The JSON body of a reply. `ServerError` is the page Flask sends for an
      exception the route does not catch. */
  datatype Body =
    | Error(error: string)
    | Created(chatId: string)
    | Info(message: string)
    | Answer(answer: string, sources: seq<map<string, MetaValue>>)
    | Renamed(message: string, newChatId: string)
    | ChatIds(chatIds: seq<string>)
    | ServerError

  /** An HTTP status code and a body. */
  datatype Reply = Reply(status: nat, body: Body)

  /** One file of a multipart upload: the client's file name and, standing for
      its bytes, the chunks that loading and splitting it yields. */
  datatype Upload = Upload(filename: string, chunks: seq<Doc>)

  /** An upload folder: file name to file. */
  type Folder = map<string, seq<Doc>>

  /** Everything the routes read or write. */
  datatype Snapshot = Snapshot(
    dirs: map<string, Directory>,
    uploads: map<string, Folder>,
    historyFiles: map<string, seq<Line>>,
    chatHistories: map<string, seq<Entry>>,
    retrievers: map<string, Retriever>)

  /** The state after a request, and the reply. */
  datatype Outcome = Outcome(state: Snapshot, reply: Reply)

  const UploadRoot := "uploaded_pdfs"

  // The messages the routes reply with.
  const InvalidNamePrefix := "Invalid chat name: "
  const UnknownChatForUpload := "Chat ID not found. Cannot upload PDFs without an existing chat."
  const NoFilesPart := "No PDF files provided."
  const NoFilesSelected := "No PDF files selected."
  const UnknownChatForChat := "Chat ID not found. No previous session data found for this ID."
  const NoQuestion := "No question provided."
  const LoadFailedPrefix := "Failed to load documents for this chat. Error: "
  const MissingRenameArgument := "Missing old_chat_id or new_chat_name."
  const InvalidNewNamePrefix := "Invalid new chat name: "
  const RenamedMessage := "Chat renamed successfully."

  function NameTaken(chatId: string): string {
    "Chat name '" + chatId + "' already exists. Please choose a different name."
  }

  function UploadedMessage(chatId: string): string {
    "PDFs uploaded and indexed for chat " + chatId + "."
  }

  function RenameSourceMissing(oldChat: string): string {
    "Original chat ID '" + oldChat + "' not found. Cannot rename."
  }

  function RenameTargetTaken(newChat: string): string {
    "New chat name '" + newChat + "' already exists. Please choose a different name."
  }

  /** The history file of `chatId`, if it exists. */
  function HistoryFile(s: Snapshot, chatId: string): Option<seq<Line>> {
    if chatId in s.historyFiles then Some(s.historyFiles[chatId]) else None
  }

  /** The chat has a collection directory or a history file. */
  predicate OnDisk(s: Snapshot, chatId: string) {
    chatId in s.dirs || chatId in s.historyFiles
  }

  /** The invariant the routes keep: every in-memory history is what its file
      loads as, every chat held in memory has data on disk, and only chats
      held in memory have a cached retriever. */
  predicate Consistent(s: Snapshot) {
    && (forall id :: id in s.chatHistories ==> s.chatHistories[id] == Load(HistoryFile(s, id)))
    && (forall id :: id in s.chatHistories ==> OnDisk(s, id))
    && s.retrievers.Keys <= s.chatHistories.Keys
  }

  /** What upload and chat do first for a chat not held in memory but found
      on disk: load its history from its file. */
  function Rehydrated(s: Snapshot, chatId: string): (r: Snapshot)
    ensures chatId in s.chatHistories || OnDisk(s, chatId) ==> chatId in r.chatHistories
    ensures chatId in s.chatHistories ==> r.chatHistories[chatId] == s.chatHistories[chatId]
    ensures chatId !in s.chatHistories && OnDisk(s, chatId) ==> r.chatHistories[chatId] == Load(HistoryFile(s, chatId))
    ensures chatId !in s.chatHistories && !OnDisk(s, chatId) ==> chatId !in r.chatHistories
    ensures r.dirs == s.dirs && r.uploads == s.uploads && r.historyFiles == s.historyFiles && r.retrievers == s.retrievers
    ensures forall id :: id != chatId ==> (id in r.chatHistories <==> id in s.chatHistories)
    ensures forall id :: id != chatId && id in s.chatHistories ==> r.chatHistories[id] == s.chatHistories[id]
  {
    if chatId !in s.chatHistories && OnDisk(s, chatId) then
      s.(chatHistories := s.chatHistories[chatId := Load(HistoryFile(s, chatId))])
    else s
  }

  /** Loading a history from its file keeps the state consistent. */
  lemma RehydrateKeepsConsistent(s: Snapshot, chatId: string)
    requires Consistent(s)
    ensures Consistent(Rehydrated(s, chatId))
  {
    var t := Rehydrated(s, chatId);
    forall id | id in t.chatHistories
      ensures t.chatHistories[id] == Load(HistoryFile(t, id))
    {
      assert HistoryFile(t, id) == HistoryFile(s, id);
    }
  }

  /** The server restarts with empty caches over the same disk. */
  function Restarted(s: Snapshot): Snapshot {
    s.(chatHistories := map[], retrievers := map[])
  }

  // ---------------------------------------------------------------------
  // create_chat

  /** `POST /create_chat` with `chat_name` = `desired`; `freshId` stands for
      `str(uuid.uuid4())`. */
  function CreateChatResult(s: Snapshot, desired: Field, freshId: string): Outcome {
    var verdict := IsValidChatName(desired);
    if Truthy(desired) && !verdict.ok then
      Outcome(s, Reply(400, Error(InvalidNamePrefix + verdict.message)))
    else
      var chatId := if Truthy(desired) then Strip(desired.s) else freshId;
      if Truthy(desired) && (chatId in s.dirs || chatId in s.uploads || chatId in s.historyFiles) then
        Outcome(s, Reply(409, Error(NameTaken(chatId))))
      else
        Outcome(Fresh(s, chatId), Reply(201, Created(chatId)))
  }

  /** A new chat: an empty history in memory and in its file, and its
      collection opened (created when missing). */
  function Fresh(s: Snapshot, chatId: string): Snapshot {
    s.(chatHistories := s.chatHistories[chatId := []],
       historyFiles := s.historyFiles[chatId := Encode([])],
       dirs := WithCollection(s.dirs, chatId, CollectionAt(s.dirs, chatId)))
  }

  /** A request with a name is rejected with 400 exactly when the validator
      rejects the name, and with 409 exactly when the stripped name already
      has a collection, an upload folder or a history file; both leave the
      state alone. Otherwise the chat is created under the stripped name,
      which fits the name pattern and was free, or under the fresh id when
      no name was given. */
  lemma CreateChatReplies(s: Snapshot, desired: Field, freshId: string)
    ensures var r := CreateChatResult(s, desired, freshId);
      && (r.reply.status == 400 <==> Truthy(desired) && !IsValidChatName(desired).ok)
      && (r.reply.status == 409 <==>
            Truthy(desired) && IsValidChatName(desired).ok &&
            (Strip(desired.s) in s.dirs || Strip(desired.s) in s.uploads || Strip(desired.s) in s.historyFiles))
      && (r.reply.status != 201 ==> r.state == s)
      && r.reply.status in {400, 409, 201}
    ensures var r := CreateChatResult(s, desired, freshId);
      var chatId := if desired.Str? && Truthy(desired) then Strip(desired.s) else freshId;
      r.reply.status == 201 ==>
        && r == Outcome(Fresh(s, chatId), Reply(201, Created(chatId)))
        && (Truthy(desired) ==> desired.Str? && MatchesNamePattern(chatId))
        && (Truthy(desired) ==> chatId !in s.dirs && chatId !in s.uploads && chatId !in s.historyFiles)
  {
    if Truthy(desired) {
      AcceptsExactlyThePattern(desired);
    }
  }

  /** A created chat has a collection (the one it had, if any) and an empty
      history in memory and on disk; every other chat is untouched. */
  lemma FreshContents(s: Snapshot, chatId: string, id: string)
    ensures var t := Fresh(s, chatId);
      && chatId in t.dirs && CollectionAt(t.dirs, chatId) == CollectionAt(s.dirs, chatId)
      && chatId in t.chatHistories && t.chatHistories[chatId] == [] && Load(HistoryFile(t, chatId)) == []
      && t.uploads == s.uploads && t.retrievers == s.retrievers
      && (id != chatId ==> DirAt(t.dirs, id) == DirAt(s.dirs, id) && HistoryFile(t, id) == HistoryFile(s, id))
      && (id != chatId && id in s.chatHistories ==> id in t.chatHistories && t.chatHistories[id] == s.chatHistories[id])
  {
    LoadAfterSave([]);
  }

  /** Writing a history to memory and to its file together keeps the
      state consistent. */
  lemma RecordKeepsConsistent(s: Snapshot, chatId: string, history: seq<Entry>)
    requires Consistent(s)
    ensures Consistent(s.(chatHistories := s.chatHistories[chatId := history],
                          historyFiles := s.historyFiles[chatId := Encode(history)]))
  {
    var t := s.(chatHistories := s.chatHistories[chatId := history],
                historyFiles := s.historyFiles[chatId := Encode(history)]);
    LoadAfterSave(history);
    forall id | id in t.chatHistories
      ensures t.chatHistories[id] == Load(HistoryFile(t, id))
    {
      if id != chatId {
        assert HistoryFile(t, id) == HistoryFile(s, id);
      }
    }
  }

  lemma CreateChatKeepsConsistent(s: Snapshot, desired: Field, freshId: string)
    requires Consistent(s)
    ensures Consistent(CreateChatResult(s, desired, freshId).state)
  {
    var r := CreateChatResult(s, desired, freshId);
    CreateChatReplies(s, desired, freshId);
    if r.reply.status == 201 {
      FreshKeepsConsistent(s, if desired.Str? && Truthy(desired) then Strip(desired.s) else freshId);
    }
  }

  lemma FreshKeepsConsistent(s: Snapshot, chatId: string)
    requires Consistent(s)
    ensures Consistent(Fresh(s, chatId))
  {
    RecordKeepsConsistent(s, chatId, []);
    var t := Fresh(s, chatId);
    forall id | id in t.chatHistories
      ensures OnDisk(t, id)
    {
    }
  }

  // ---------------------------------------------------------------------
  // upload_pdfs

  /** `os.path.join(f"uploaded_pdfs/{chat_id}", filename)`. */
  function UploadPath(chatId: string, filename: string): string {
    UploadRoot + "/" + chatId + "/" + filename
  }

  /** The upload folder after saving `files` in order; a file without a name
      is skipped and a later file overwrites an earlier one of the same name. */
  function SaveAll(folder: Folder, files: seq<Upload>): Folder {
    if files == [] then folder
    else
      var f := files[|files| - 1];
      var before := SaveAll(folder, files[..|files| - 1]);
      if f.filename == "" then before else before[f.filename := f.chunks]
  }

  /** `pdf_paths`: the path of every named file, in upload order. */
  function SavedPaths(chatId: string, files: seq<Upload>): seq<string> {
    if files == [] then []
    else
      var f := files[|files| - 1];
      var before := SavedPaths(chatId, files[..|files| - 1]);
      if f.filename == "" then before else before + [UploadPath(chatId, f.filename)]
  }

  /** What the saved paths hold once every file is written. */
  function Written(chatId: string, files: seq<Upload>): map<string, seq<Doc>> {
    if files == [] then map[]
    else
      var f := files[|files| - 1];
      var before := Written(chatId, files[..|files| - 1]);
      if f.filename == "" then before else before[UploadPath(chatId, f.filename) := f.chunks]
  }

  /** Saving one more file: a named file is written under its name and its
      path is added; a file without a name changes nothing. */
  lemma SaveStep(chatId: string, folder: Folder, files: seq<Upload>, k: nat)
    requires k < |files|
    ensures var f, done, next := files[k], files[..k], files[..k + 1];
      if f.filename == "" then
        SaveAll(folder, next) == SaveAll(folder, done) && SavedPaths(chatId, next) == SavedPaths(chatId, done)
        && Written(chatId, next) == Written(chatId, done)
      else
        SaveAll(folder, next) == SaveAll(folder, done)[f.filename := f.chunks]
        && SavedPaths(chatId, next) == SavedPaths(chatId, done) + [UploadPath(chatId, f.filename)]
        && Written(chatId, next) == Written(chatId, done)[UploadPath(chatId, f.filename) := f.chunks]
  {
    assert files[..k + 1][..k] == files[..k];
  }

  /** `POST /upload_pdfs/<chat_id>` with the `pdfs` part `files` (`None` when
      the request has none). */
  function UploadPdfsResult(s: Snapshot, chatId: string, files: Option<seq<Upload>>): Outcome {
    if chatId !in s.chatHistories && !OnDisk(s, chatId) then
      Outcome(s, Reply(404, Error(UnknownChatForUpload)))
    else
      var s1 := Rehydrated(s, chatId);
      if files.None? then Outcome(s1, Reply(400, Error(NoFilesPart)))
      else if files.value == [] then Outcome(s1, Reply(400, Error(NoFilesSelected)))
      else Outcome(Indexed(s1, chatId, files.value), Reply(200, Info(UploadedMessage(chatId))))
  }

  /** The upload folder as `os.makedirs` leaves it: the existing one or a new
      empty one. */
  function FolderAt(s: Snapshot, chatId: string): Folder {
    if chatId in s.uploads then s.uploads[chatId] else map[]
  }

  /** The files saved, their paths committed to the chat's collection, and
      an MMR retriever cached. */
  function Indexed(s: Snapshot, chatId: string, files: seq<Upload>): Snapshot {
    s.(uploads := s.uploads[chatId := SaveAll(FolderAt(s, chatId), files)],
       dirs := WithCollection(s.dirs, chatId, Commit(CollectionAt(s.dirs, chatId), SavedPaths(chatId, files), Written(chatId, files))),
       retrievers := s.retrievers[chatId := MmrRetriever(chatId)])
  }

  /** An unknown chat gets 404 and nothing changes; a known chat is loaded
      into memory, and a request without files gets 400; otherwise the files
      are indexed and an MMR retriever with `k = 8` is cached. */
  lemma UploadPdfsReplies(s: Snapshot, chatId: string, files: Option<seq<Upload>>)
    ensures var r := UploadPdfsResult(s, chatId, files);
      && (r.reply.status == 404 <==> chatId !in s.chatHistories && !OnDisk(s, chatId))
      && (r.reply.status == 404 ==> r.state == s)
      && (r.reply.status == 400 <==> (chatId in s.chatHistories || OnDisk(s, chatId)) && (files.None? || files.value == []))
      && (r.reply.status == 400 ==> r.state == Rehydrated(s, chatId))
      && r.reply.status in {404, 400, 200}
      && (r.reply.status == 200 ==>
            && files.Some? && r.state == Indexed(Rehydrated(s, chatId), chatId, files.value)
            && chatId in r.state.chatHistories && chatId in r.state.dirs && chatId in r.state.uploads
            && r.state.retrievers[chatId] == Retriever(chatId, "mmr", 8)
            && r.state.historyFiles == s.historyFiles)
  {
  }

  lemma UploadPdfsKeepsConsistent(s: Snapshot, chatId: string, files: Option<seq<Upload>>)
    requires Consistent(s)
    ensures Consistent(UploadPdfsResult(s, chatId, files).state)
  {
    if chatId in s.chatHistories || OnDisk(s, chatId) {
      RehydrateKeepsConsistent(s, chatId);
      var s1 := Rehydrated(s, chatId);
      if files.Some? && files.value != [] {
        var t := UploadPdfsResult(s, chatId, files).state;
        assert t.chatHistories == s1.chatHistories && t.historyFiles == s1.historyFiles;
        assert t.dirs.Keys >= s1.dirs.Keys;
        forall id | id in t.chatHistories
          ensures t.chatHistories[id] == Load(HistoryFile(t, id)) && OnDisk(t, id)
        {
          assert HistoryFile(t, id) == HistoryFile(s1, id);
        }
      }
    }
  }

  /** Paths in one chat's upload folder differ when the file names do. */
  lemma UploadPathInjective(chatId: string, a: string, b: string)
    requires UploadPath(chatId, a) == UploadPath(chatId, b)
    ensures a == b
  {
    var prefix := UploadRoot + "/" + chatId + "/";
    assert UploadPath(chatId, a) == prefix + a && UploadPath(chatId, b) == prefix + b;
    assert a == (prefix + a)[|prefix|..];
    assert b == (prefix + b)[|prefix|..];
  }

  /** The base name of a saved file's path is the file's name, as long as
      the name holds no `/`; the path ends in whatever the name ends in. */
  lemma UploadPathBaseName(chatId: string, filename: string, suffix: string)
    requires '/' !in filename
    ensures BaseName(UploadPath(chatId, filename)) == filename
    ensures EndsWith(filename, suffix) ==> EndsWith(UploadPath(chatId, filename), suffix)
  {
    var dir := UploadRoot + "/" + chatId;
    AfterLastOfJoin(dir, '/', filename);
    if EndsWith(filename, suffix) {
      EndsWithAppend(dir + ['/'], filename, suffix);
    }
  }

  /** A named file's path is among the saved paths, and it holds the file
      that the folder ends up holding under that name. */
  lemma {:induction false} SavedFile(chatId: string, folder: Folder, files: seq<Upload>, k: nat) returns (m: nat)
    requires k < |files| && files[k].filename != ""
    ensures var fn := files[k].filename;
      && m < |SavedPaths(chatId, files)| && SavedPaths(chatId, files)[m] == UploadPath(chatId, fn)
      && UploadPath(chatId, fn) in Written(chatId, files) && fn in SaveAll(folder, files)
      && Written(chatId, files)[UploadPath(chatId, fn)] == SaveAll(folder, files)[fn]
  {
    var fn := files[k].filename;
    var n := |files|;
    var init := files[..n - 1];
    var f := files[n - 1];
    if k == n - 1 {
      m := |SavedPaths(chatId, init)|;
    } else {
      assert init[k] == files[k];
      m := SavedFile(chatId, folder, init, k);
      if f.filename != "" && f.filename != fn {
        if UploadPath(chatId, f.filename) == UploadPath(chatId, fn) {
          UploadPathInjective(chatId, f.filename, fn);
        }
      }
    }
  }

  /** Every saved path is the path of some named upload. */
  lemma {:induction false} SavedPathOrigin(chatId: string, files: seq<Upload>, j: nat) returns (m: nat)
    requires j < |SavedPaths(chatId, files)|
    ensures m < |files| && files[m].filename != ""
    ensures SavedPaths(chatId, files)[j] == UploadPath(chatId, files[m].filename)
  {
    var n := |files|;
    var init := files[..n - 1];
    var before := SavedPaths(chatId, init);
    if j < |before| {
      m := SavedPathOrigin(chatId, init, j);
      assert files[m] == init[m];
    } else {
      m := n - 1;
    }
  }

  /** When no upload name holds a `/`, every batch entry with the id
      `<name>_<i>` is chunk `i` of the file saved as `name`, so the
      collection ends up holding that chunk under the id. */
  lemma CommittedChunk(chatId: string, files: seq<Upload>, store: Store, fn: string, i: nat)
    requires forall j :: 0 <= j < |files| ==> '/' !in files[j].filename
    requires UploadPath(chatId, fn) in Written(chatId, files) && i < |Written(chatId, files)[UploadPath(chatId, fn)]|
    requires ChunkId(fn, i) in TaggedIds(SavedPaths(chatId, files), Written(chatId, files))
    ensures var c, disk := Commit(store, SavedPaths(chatId, files), Written(chatId, files)), Written(chatId, files);
      ChunkId(fn, i) in c && c[ChunkId(fn, i)] == TagChunk(fn, i, disk[UploadPath(chatId, fn)][i])
  {
    var paths, disk := SavedPaths(chatId, files), Written(chatId, files);
    var ids, docs := TaggedIds(paths, disk), TaggedDocs(paths, disk);
    var key, d := ChunkId(fn, i), TagChunk(fn, i, disk[UploadPath(chatId, fn)][i]);
    CommitIsUpsert(store, paths, disk);
    forall j | 0 <= j < |ids| && ids[j] == key
      ensures docs[j] == d
    {
      var k', i' := TaggedDocProvenance(paths, disk, j);
      ChunkIdInjective(BaseName(paths[k']), i', fn, i);
      var m' := SavedPathOrigin(chatId, files, k');
      UploadPathBaseName(chatId, files[m'].filename, PdfSuffix);
    }
    UpsertAgreeingBatch(store, ids, docs, key, d);
  }

  /** Every named upload whose name ends in `.pdf` and holds no `/` is
      indexed: each of its chunks is in the chat's collection under
      `<name>_<i>`, and when no upload name holds a `/`, that id holds the
      chunk of the file the folder ends up holding under the name, tagged
      with the name and the index. */
  lemma IndexedHasEachPdf(s: Snapshot, chatId: string, files: seq<Upload>, k: nat, i: nat)
    requires k < |files| && files[k].filename != ""
    requires EndsWith(files[k].filename, PdfSuffix) && '/' !in files[k].filename
    ensures var r, fn := Indexed(s, chatId, files), files[k].filename;
      && fn in r.uploads[chatId]
      && (i < |r.uploads[chatId][fn]| ==> ChunkId(fn, i) in CollectionAt(r.dirs, chatId))
      && (i < |r.uploads[chatId][fn]| && (forall j :: 0 <= j < |files| ==> '/' !in files[j].filename) ==>
            CollectionAt(r.dirs, chatId)[ChunkId(fn, i)] == TagChunk(fn, i, r.uploads[chatId][fn][i]))
  {
    var fn := files[k].filename;
    var paths, disk := SavedPaths(chatId, files), Written(chatId, files);
    var folder := SaveAll(FolderAt(s, chatId), files);
    var store := CollectionAt(s.dirs, chatId);
    var r := Indexed(s, chatId, files);
    assert r.uploads[chatId] == folder;
    assert CollectionAt(r.dirs, chatId) == Commit(store, paths, disk);
    var m := SavedFile(chatId, FolderAt(s, chatId), files, k);
    UploadPathBaseName(chatId, fn, PdfSuffix);
    assert Accepted(paths[m], disk);
    if i < |folder[fn]| {
      CommitIndexesFile(store, paths, disk, m, i);
      if forall j :: 0 <= j < |files| ==> '/' !in files[j].filename {
        CommittedChunk(chatId, files, store, fn, i);
      }
    }
  }

  // ---------------------------------------------------------------------
  // chat_with_llm

  /** `[doc.metadata for doc in docs]`. */
  function Sources(docs: seq<Doc>): (r: seq<map<string, MetaValue>>)
    ensures |r| == |docs| && forall i :: 0 <= i < |docs| ==> r[i] == docs[i].metadata
  {
    if docs == [] then [] else Sources(docs[..|docs| - 1]) + [docs[|docs| - 1].metadata]
  }

  /** What `chain.invoke` receives for `question`, given the retrieved
      documents and the history so far. */
  function ChainInput(retrieved: seq<Doc>, history: seq<Entry>, question: string): Variables {
    Variables(FormatDocsWithSources(retrieved), FormatChatHistory(history), question)
  }

  /** `POST /chat/<chat_id>` with `question`. `openError` is the message of
      the exception `get_retriever` raises, if it does; `retrieved` is what
      the retriever returns for the question; `chain` is `prompt | model`
      as a whole, taking the template's variables and giving the model's
      answer, `None` standing for an exception it raises. */
  function ChatResult(s: Snapshot, chatId: string, question: Option<string>, openError: Option<string>,
                      retrieved: seq<Doc>, chain: Variables -> Option<string>): Outcome
  {
    if chatId !in s.chatHistories && !OnDisk(s, chatId) then
      Outcome(s, Reply(404, Error(UnknownChatForChat)))
    else
      ChatLoaded(Rehydrated(s, chatId), chatId, question, openError, retrieved, chain)
  }

  /** The rest of the route, once the chat is held in memory. */
  function ChatLoaded(s: Snapshot, chatId: string, question: Option<string>, openError: Option<string>,
                      retrieved: seq<Doc>, chain: Variables -> Option<string>): Outcome
    requires chatId in s.chatHistories
  {
    if question.None? || question.value == "" then
      Outcome(s, Reply(400, Error(NoQuestion)))
    else if chatId !in s.retrievers && openError.Some? then
      Outcome(s, Reply(500, Error(LoadFailedPrefix + openError.value)))
    else
      Turn(WithRetriever(s, chatId), chatId, question.value, retrieved, chain)
  }

  /** The retriever for the chat: the cached one, or a new MMR retriever
      from `get_retriever`, which opens (or creates) the collection. */
  function WithRetriever(s: Snapshot, chatId: string): (r: Snapshot)
    ensures r.chatHistories == s.chatHistories && r.historyFiles == s.historyFiles && r.uploads == s.uploads
    ensures r.dirs.Keys >= s.dirs.Keys && chatId in r.retrievers
    ensures r.retrievers.Keys == s.retrievers.Keys + {chatId}
    ensures CollectionAt(r.dirs, chatId) == CollectionAt(s.dirs, chatId)
    ensures forall id :: id != chatId ==> DirAt(r.dirs, id) == DirAt(s.dirs, id)
    ensures forall id :: id != chatId && id in s.retrievers ==> r.retrievers[id] == s.retrievers[id]
    ensures chatId in s.retrievers ==> r == s
    ensures chatId !in s.retrievers ==> r.retrievers[chatId] == MmrRetriever(chatId)
  {
    if chatId in s.retrievers then s
    else s.(dirs := WithCollection(s.dirs, chatId, CollectionAt(s.dirs, chatId)),
            retrievers := s.retrievers[chatId := MmrRetriever(chatId)])
  }

  /** One question and answer: the model is asked, and its answer is
      appended to the history after the question and saved. */
  function Turn(s: Snapshot, chatId: string, q: string, retrieved: seq<Doc>, chain: Variables -> Option<string>): Outcome
    requires chatId in s.chatHistories
  {
    var history := s.chatHistories[chatId];
    match chain(ChainInput(retrieved, history, q))
    case None => Outcome(s, Reply(500, ServerError))
    case Some(answer) =>
      var extended := history + [Human(q), AI(answer)];
      Outcome(
        s.(chatHistories := s.chatHistories[chatId := extended],
           historyFiles := s.historyFiles[chatId := Encode(extended)]),
        Reply(200, Answer(answer, Sources(retrieved))))
  }

  /** An unknown chat gets 404 and nothing changes; a missing or empty
      question gets 400 after the chat is loaded into memory. A retriever
      that fails to open, or a chain that raises, gets 500, and the history
      stays as loaded, in memory and in the file. Whatever the reply, the
      folders, the collections and every other chat's history stay as they
      were (`LeavesOthers`). A successful
      turn asks the model with the retrieved excerpts and the transcript so
      far, returns its answer with the metadata of every retrieved document,
      and appends the question and the answer to the history, in memory and
      in the file alike. */
  lemma ChatReplies(s: Snapshot, chatId: string, question: Option<string>, openError: Option<string>,
                    retrieved: seq<Doc>, chain: Variables -> Option<string>)
    ensures var r := ChatResult(s, chatId, question, openError, retrieved, chain);
      && (r.reply.status == 404 <==> chatId !in s.chatHistories && !OnDisk(s, chatId))
      && (r.reply.status == 404 ==> r.state == s)
      && (r.reply.status == 400 <==> (chatId in s.chatHistories || OnDisk(s, chatId)) && (question.None? || question.value == ""))
      && (r.reply.status == 400 ==> r.state == Rehydrated(s, chatId))
      && r.reply.status in {404, 400, 500, 200}
    ensures var r := ChatResult(s, chatId, question, openError, retrieved, chain);
      && (r.reply.status == 500 <==>
            && (chatId in s.chatHistories || OnDisk(s, chatId)) && question.Some? && question.value != ""
            && ((chatId !in s.retrievers && openError.Some?) ||
                chain(ChainInput(retrieved, Rehydrated(s, chatId).chatHistories[chatId], question.value)).None?))
      && (r.reply.status == 500 ==>
            r.state.historyFiles == s.historyFiles && r.state.chatHistories == Rehydrated(s, chatId).chatHistories)
    ensures var r := ChatResult(s, chatId, question, openError, retrieved, chain);
      r.reply.status == 200 ==>
        && question.Some? && r.reply.body.Answer?
        && var before := Rehydrated(s, chatId).chatHistories[chatId];
        && chain(ChainInput(retrieved, before, question.value)) == Some(r.reply.body.answer)
        && r.reply.body.sources == Sources(retrieved)
        && r.state.chatHistories[chatId] == before + [Human(question.value), AI(r.reply.body.answer)]
        && Load(HistoryFile(r.state, chatId)) == r.state.chatHistories[chatId]
        && chatId in r.state.retrievers
    ensures LeavesOthers(s, ChatResult(s, chatId, question, openError, retrieved, chain).state, chatId)
  {
    ChatLeavesOthers(s, chatId, question, openError, retrieved, chain);
    var r := ChatResult(s, chatId, question, openError, retrieved, chain);
    if chatId in s.chatHistories || OnDisk(s, chatId) {
      var s1 := Rehydrated(s, chatId);
      assert r == ChatLoaded(s1, chatId, question, openError, retrieved, chain);
      if question.Some? && question.value != "" && (chatId in s1.retrievers || openError.None?) {
        var s2 := WithRetriever(s1, chatId);
        assert r == Turn(s2, chatId, question.value, retrieved, chain);
        var before := s1.chatHistories[chatId];
        assert s2.chatHistories[chatId] == before;
        var answer := chain(ChainInput(retrieved, before, question.value));
        if answer.Some? {
          LoadAfterSave(before + [Human(question.value), AI(answer.value)]);
        }
      }
    }
  }

  /** `t` differs from `s` at most in the in-memory history and the cached
      retriever of `chatId`: the upload folders, that chat's collection and
      every other chat's directory, history (in memory and in its file) and
      cached retriever are as they were. */
  ghost predicate LeavesOthers(s: Snapshot, t: Snapshot, chatId: string) {
    && t.uploads == s.uploads
    && CollectionAt(t.dirs, chatId) == CollectionAt(s.dirs, chatId)
    && (forall id :: id != chatId ==> DirAt(t.dirs, id) == DirAt(s.dirs, id))
    && (forall id :: id != chatId ==> HistoryFile(t, id) == HistoryFile(s, id))
    && (forall id :: id != chatId ==> (id in t.chatHistories <==> id in s.chatHistories))
    && (forall id :: id != chatId && id in s.chatHistories ==> t.chatHistories[id] == s.chatHistories[id])
    && (forall id :: id != chatId ==> (id in t.retrievers <==> id in s.retrievers))
    && (forall id :: id != chatId && id in s.retrievers ==> t.retrievers[id] == s.retrievers[id])
  }

  lemma LeavesOthersTransitive(s: Snapshot, t: Snapshot, u: Snapshot, chatId: string)
    requires LeavesOthers(s, t, chatId) && LeavesOthers(t, u, chatId)
    ensures LeavesOthers(s, u, chatId)
  {
  }

  lemma RehydratedLeavesOthers(s: Snapshot, chatId: string)
    ensures LeavesOthers(s, Rehydrated(s, chatId), chatId)
  {
  }

  lemma WithRetrieverLeavesOthers(s: Snapshot, chatId: string)
    ensures LeavesOthers(s, WithRetriever(s, chatId), chatId)
  {
  }

  /** A turn writes only the chat's own history, in memory and in its file. */
  lemma TurnLeavesOthers(s: Snapshot, chatId: string, q: string, retrieved: seq<Doc>, chain: Variables -> Option<string>)
    requires chatId in s.chatHistories
    ensures LeavesOthers(s, Turn(s, chatId, q, retrieved, chain).state, chatId)
  {
    var t := Turn(s, chatId, q, retrieved, chain).state;
    forall id | id != chatId
      ensures HistoryFile(t, id) == HistoryFile(s, id)
    {
    }
  }

  /** Whatever the reply, asking a question leaves the upload folders, the
      collections and every other chat's history, in memory and in its
      file, as they were. */
  lemma ChatLeavesOthers(s: Snapshot, chatId: string, question: Option<string>, openError: Option<string>,
                         retrieved: seq<Doc>, chain: Variables -> Option<string>)
    ensures LeavesOthers(s, ChatResult(s, chatId, question, openError, retrieved, chain).state, chatId)
  {
    var r := ChatResult(s, chatId, question, openError, retrieved, chain);
    if chatId in s.chatHistories || OnDisk(s, chatId) {
      var s1 := Rehydrated(s, chatId);
      RehydratedLeavesOthers(s, chatId);
      assert r == ChatLoaded(s1, chatId, question, openError, retrieved, chain);
      if question.Some? && question.value != "" && (chatId in s1.retrievers || openError.None?) {
        var s2 := WithRetriever(s1, chatId);
        assert r == Turn(s2, chatId, question.value, retrieved, chain);
        WithRetrieverLeavesOthers(s1, chatId);
        TurnLeavesOthers(s2, chatId, question.value, retrieved, chain);
        LeavesOthersTransitive(s1, s2, r.state, chatId);
        LeavesOthersTransitive(s, s1, r.state, chatId);
      } else {
        assert r.state == s1;
      }
    } else {
      assert r.state == s;
    }
  }

  lemma ChatKeepsConsistent(s: Snapshot, chatId: string, question: Option<string>, openError: Option<string>,
                            retrieved: seq<Doc>, chain: Variables -> Option<string>)
    requires Consistent(s)
    ensures Consistent(ChatResult(s, chatId, question, openError, retrieved, chain).state)
  {
    if chatId in s.chatHistories || OnDisk(s, chatId) {
      RehydrateKeepsConsistent(s, chatId);
      ChatLoadedKeepsConsistent(Rehydrated(s, chatId), chatId, question, openError, retrieved, chain);
    }
  }

  lemma ChatLoadedKeepsConsistent(s: Snapshot, chatId: string, question: Option<string>, openError: Option<string>,
                                  retrieved: seq<Doc>, chain: Variables -> Option<string>)
    requires Consistent(s) && chatId in s.chatHistories
    ensures Consistent(ChatLoaded(s, chatId, question, openError, retrieved, chain).state)
  {
    var r := ChatLoaded(s, chatId, question, openError, retrieved, chain);
    if question.None? || question.value == "" || (chatId !in s.retrievers && openError.Some?) {
      assert r.state == s;
    } else {
      var s2 := WithRetriever(s, chatId);
      assert r == Turn(s2, chatId, question.value, retrieved, chain);
      WithRetrieverKeepsConsistent(s, chatId);
      TurnKeepsConsistent(s2, chatId, question.value, retrieved, chain);
    }
  }

  lemma WithRetrieverKeepsConsistent(s: Snapshot, chatId: string)
    requires Consistent(s) && chatId in s.chatHistories
    ensures Consistent(WithRetriever(s, chatId))
  {
    var t := WithRetriever(s, chatId);
    forall id | id in t.chatHistories
      ensures t.chatHistories[id] == Load(HistoryFile(t, id))
    {
      assert HistoryFile(t, id) == HistoryFile(s, id);
    }
  }

  lemma TurnKeepsConsistent(s: Snapshot, chatId: string, q: string, retrieved: seq<Doc>, chain: Variables -> Option<string>)
    requires Consistent(s) && chatId in s.chatHistories
    ensures Consistent(Turn(s, chatId, q, retrieved, chain).state)
  {
    var history := s.chatHistories[chatId];
    var answer := chain(ChainInput(retrieved, history, q));
    if answer.Some? {
      RecordKeepsConsistent(s, chatId, history + [Human(q), AI(answer.value)]);
    }
  }

  /** Memory never holds anything the disk does not: after a restart, the
      first request that loads a chat finds the history it had before. */
  lemma RestartKeepsHistory(s: Snapshot, chatId: string)
    requires Consistent(s) && chatId in s.chatHistories
    ensures Rehydrated(Restarted(s), chatId).chatHistories[chatId] == s.chatHistories[chatId]
  {
  }

  // ---------------------------------------------------------------------
  // rename_chat

  /** A directory or file that `os.rename` moves to `newId`, or that is
      created empty under `newId` when `oldId` has none. */
  function MoveOrCreate<V>(m: map<string, V>, oldId: string, newId: string, empty: V): (r: map<string, V>)
    requires oldId != newId
    ensures r.Keys == m.Keys - {oldId} + {newId}
    ensures r[newId] == if oldId in m then m[oldId] else empty
    ensures forall id :: id in m && id != oldId && id != newId ==> r[id] == m[id]
  {
    if oldId in m then (m - {oldId})[newId := m[oldId]] else m[newId := empty]
  }

  /** `d[new] = d.pop(old)` when `old` is a key of `d`. */
  function MoveIfPresent<V>(m: map<string, V>, oldId: string, newId: string): (r: map<string, V>)
    requires oldId != newId
    ensures r.Keys == if oldId in m then m.Keys - {oldId} + {newId} else m.Keys
    ensures oldId in m ==> r[newId] == m[oldId]
    ensures forall id :: id in m && id != oldId && id != newId ==> r[id] == m[id]
  {
    if oldId in m then (m - {oldId})[newId := m[oldId]] else m
  }

  /** The new name is already taken. */
  predicate Taken(s: Snapshot, chatId: string) {
    chatId in s.dirs || chatId in s.uploads || chatId in s.historyFiles || chatId in s.chatHistories
  }

  /** `POST /rename_chat` with `old_chat_id` = `oldId` and `new_chat_name` =
      `newName`. */
  function RenameChatResult(s: Snapshot, oldId: Option<string>, newName: Field): Outcome {
    var verdict := IsValidChatName(newName);
    if oldId.None? || oldId.value == "" || !Truthy(newName) then
      Outcome(s, Reply(400, Error(MissingRenameArgument)))
    else if !verdict.ok then
      Outcome(s, Reply(400, Error(InvalidNewNamePrefix + verdict.message)))
    else
      var oldChat, newChat := oldId.value, Strip(newName.s);
      if !(oldChat in s.dirs || oldChat in s.historyFiles || oldChat in s.chatHistories) then
        Outcome(s, Reply(404, Error(RenameSourceMissing(oldChat))))
      else if Taken(s, newChat) then
        Outcome(s, Reply(409, Error(RenameTargetTaken(newChat))))
      else
        Outcome(Moved(s, oldChat, newChat), Reply(200, Renamed(RenamedMessage, newChat)))
  }

  /** The collection directories after a rename: the old directory moves
      to the new id (or is created empty), and the collection inside it,
      `chat_<old>_pdfs`, is renamed to `chat_<new>_pdfs`, the name
      `get_vector_store` opens for the new id. */
  function MovedDirs(dirs: map<string, Directory>, oldChat: string, newChat: string): (r: map<string, Directory>)
    requires oldChat != newChat
    ensures r.Keys == dirs.Keys - {oldChat} + {newChat}
    ensures CollectionAt(r, newChat) == CollectionAt(dirs, oldChat)
    ensures forall n :: n in DirAt(dirs, oldChat) && n != CollectionName(oldChat) && n != CollectionName(newChat) ==>
      n in DirAt(r, newChat) && DirAt(r, newChat)[n] == DirAt(dirs, oldChat)[n]
    ensures forall id :: id != oldChat && id != newChat ==> DirAt(r, id) == DirAt(dirs, id)
  {
    var d := DirAt(dirs, oldChat);
    (dirs - {oldChat})[newChat := (d - {CollectionName(oldChat)})[CollectionName(newChat) := CollectionAt(dirs, oldChat)]]
  }

  /** The state after a rename that passed every check: each piece of the
      chat moved from the old id to the new one. */
  function Moved(s: Snapshot, oldChat: string, newChat: string): Snapshot
    requires oldChat != newChat
  {
    Snapshot(
      MovedDirs(s.dirs, oldChat, newChat),
      MoveOrCreate(s.uploads, oldChat, newChat, map[]),
      MoveOrCreate(s.historyFiles, oldChat, newChat, Encode([])),
      MoveIfPresent(s.chatHistories, oldChat, newChat),
      MoveIfPresent(s.retrievers, oldChat, newChat))
  }

  /** The collection (now under the new id's name), the upload folder, the
      history (loaded from its file,
      and in memory when it was there) and the cached retriever are found
      under the new id and no longer under the old one, and missing pieces
      are created empty. */
  lemma MovedContents(s: Snapshot, oldChat: string, newChat: string)
    requires oldChat != newChat
    ensures var r := Moved(s, oldChat, newChat);
      && oldChat !in r.dirs && oldChat !in r.uploads && oldChat !in r.historyFiles
      && oldChat !in r.chatHistories && oldChat !in r.retrievers
      && newChat in r.dirs && CollectionAt(r.dirs, newChat) == CollectionAt(s.dirs, oldChat)
      && newChat in r.uploads && r.uploads[newChat] == (if oldChat in s.uploads then s.uploads[oldChat] else map[])
      && Load(HistoryFile(r, newChat)) == Load(HistoryFile(s, oldChat))
      && (newChat in r.chatHistories <==> oldChat in s.chatHistories || newChat in s.chatHistories)
      && (oldChat in s.chatHistories ==> r.chatHistories[newChat] == s.chatHistories[oldChat])
      && (newChat in r.retrievers <==> oldChat in s.retrievers || newChat in s.retrievers)
  {
    LoadAfterSave([]);
  }

  /** A rename leaves every other chat as it was. */
  lemma MovedLeavesOthers(s: Snapshot, oldChat: string, newChat: string, id: string)
    requires oldChat != newChat && id != oldChat && id != newChat
    ensures var r := Moved(s, oldChat, newChat);
      && DirAt(r.dirs, id) == DirAt(s.dirs, id) && HistoryFile(r, id) == HistoryFile(s, id)
      && (id in r.uploads <==> id in s.uploads) && (id in s.uploads ==> r.uploads[id] == s.uploads[id])
      && (id in r.chatHistories <==> id in s.chatHistories)
      && (id in s.chatHistories ==> r.chatHistories[id] == s.chatHistories[id])
      && (id in r.retrievers <==> id in s.retrievers) && (id in s.retrievers ==> r.retrievers[id] == s.retrievers[id])
  {
  }

  /** The replies in the order the route checks: 400 for a missing argument
      or an invalid name, 404 for an old id with no collection, history file
      or in-memory history, 409 for a taken new name; each leaves the state
      alone. */
  lemma RenameChatReplies(s: Snapshot, oldId: Option<string>, newName: Field)
    ensures var r := RenameChatResult(s, oldId, newName);
      && (r.reply.status == 400 <==> oldId.None? || oldId.value == "" || !IsValidChatName(newName).ok)
      && (r.reply.status == 404 <==>
            oldId.Some? && oldId.value != "" && IsValidChatName(newName).ok &&
            !(oldId.value in s.dirs || oldId.value in s.historyFiles || oldId.value in s.chatHistories))
      && (r.reply.status == 409 <==>
            oldId.Some? && oldId.value != "" && IsValidChatName(newName).ok &&
            (oldId.value in s.dirs || oldId.value in s.historyFiles || oldId.value in s.chatHistories) &&
            Taken(s, Strip(newName.s)))
      && (r.reply.status != 200 ==> r.state == s)
      && r.reply.status in {400, 404, 409, 200}
  {
    AcceptsExactlyThePattern(newName);
  }

  /** A successful rename is the move from the old id to the stripped new
      name, which was free and differs from the old id. */
  lemma RenameMovesChat(s: Snapshot, oldId: Option<string>, newName: Field)
    requires RenameChatResult(s, oldId, newName).reply.status == 200
    ensures oldId.Some? && newName.Str?
    ensures var oldChat, newChat := oldId.value, Strip(newName.s);
      && oldChat != newChat && !Taken(s, newChat) && MatchesNamePattern(newChat)
      && RenameChatResult(s, oldId, newName) ==
           Outcome(Moved(s, oldChat, newChat), Reply(200, Renamed(RenamedMessage, newChat)))
  {
    AcceptsExactlyThePattern(newName);
  }

  /** A rename never takes over another chat's data: on success the new name
      had no collection, folder, history or cached retriever. */
  lemma RenameNeverOverwrites(s: Snapshot, oldId: Option<string>, newName: Field)
    requires Consistent(s)
    requires RenameChatResult(s, oldId, newName).reply.status == 200
    ensures var newChat := Strip(newName.s);
      newChat !in s.dirs && newChat !in s.uploads && newChat !in s.historyFiles && newChat !in s.chatHistories && newChat !in s.retrievers
  {
    RenameMovesChat(s, oldId, newName);
  }

  lemma RenameKeepsConsistent(s: Snapshot, oldId: Option<string>, newName: Field)
    requires Consistent(s)
    ensures Consistent(RenameChatResult(s, oldId, newName).state)
  {
    if RenameChatResult(s, oldId, newName).reply.status == 200 {
      RenameMovesChat(s, oldId, newName);
      MovedKeepsConsistent(s, oldId.value, Strip(newName.s));
    }
  }

  lemma MovedKeepsConsistent(s: Snapshot, oldChat: string, newChat: string)
    requires Consistent(s) && oldChat != newChat && !Taken(s, newChat)
    ensures Consistent(Moved(s, oldChat, newChat))
  {
    var t := Moved(s, oldChat, newChat);
    MovedContents(s, oldChat, newChat);
    forall id | id in t.chatHistories
      ensures t.chatHistories[id] == Load(HistoryFile(t, id)) && OnDisk(t, id)
    {
      if id != newChat {
        MovedLeavesOthers(s, oldChat, newChat, id);
      }
    }
  }

  /** The rename as `app.py` writes it: `os.rename` moves the directory
      but the collection inside keeps its name `chat_<old>_pdfs`. */
  function MovedAsWritten(s: Snapshot, oldChat: string, newChat: string): Snapshot
    requires oldChat != newChat
  {
    Moved(s, oldChat, newChat).(dirs := MoveOrCreate(s.dirs, oldChat, newChat, map[]))
  }

  /** As written, the old chunks sit in the moved directory under the old
      collection name, while the collection the new id opens starts empty
      unless the old directory already held one under the new name. */
  lemma RenameOrphansCollection(s: Snapshot, oldChat: string, newChat: string)
    requires oldChat != newChat
    ensures var r := MovedAsWritten(s, oldChat, newChat);
      && (CollectionName(oldChat) in DirAt(s.dirs, oldChat) ==>
            && CollectionName(oldChat) in DirAt(r.dirs, newChat)
            && DirAt(r.dirs, newChat)[CollectionName(oldChat)] == CollectionAt(s.dirs, oldChat))
      && (CollectionName(newChat) !in DirAt(s.dirs, oldChat) ==> CollectionAt(r.dirs, newChat) == map[])
  {
  }

  /** Renaming chat `a`, whose collection holds one chunk, to `b`: as
      written the collection `b` opens is empty; with the collection renamed
      the chunk is still found. */
  lemma RenameLosesChunks(d: Doc)
    ensures var s := Snapshot(map["a" := map[CollectionName("a") := map["x.pdf_0" := d]]], map[], map[], map[], map[]);
      && CollectionAt(s.dirs, "a") == map["x.pdf_0" := d]
      && CollectionAt(MovedAsWritten(s, "a", "b").dirs, "b") == map[]
      && CollectionAt(Moved(s, "a", "b").dirs, "b") == map["x.pdf_0" := d]
  {
    var s := Snapshot(map["a" := map[CollectionName("a") := map["x.pdf_0" := d]]], map[], map[], map[], map[]);
    if CollectionName("a") == CollectionName("b") {
      CollectionNameInjective("a", "b");
      assert false;
    }
    RenameOrphansCollection(s, "a", "b");
  }

  // ---------------------------------------------------------------------
  // clear_all_data

  const ClearedMessage := "All chat history, uploaded files, and vector databases have been cleared."

  /** `POST /clear_all_data`: both caches and all three directories emptied. */
  function ClearAllDataResult(s: Snapshot): Outcome {
    Outcome(Snapshot(map[], map[], map[], map[], map[]), Reply(200, Info(ClearedMessage)))
  }

  /** After clearing, no chat is known anywhere: upload and chat answer 404
      for every id, and no name is taken. */
  lemma ClearForgetsEveryChat(s: Snapshot, chatId: string)
    ensures var c := ClearAllDataResult(s).state;
      && Consistent(c) && !Taken(c, chatId) && !OnDisk(c, chatId) && chatId !in c.retrievers
      && UploadPdfsResult(c, chatId, None).reply.status == 404
  {
  }

  // ---------------------------------------------------------------------
  // The routes, step by step

  /** The running service: the collections, and the rest of the state. */
  class Registry {
    const db: VectorDb
    var uploads: map<string, Folder>
    var historyFiles: map<string, seq<Line>>
    var chatHistories: map<string, seq<Entry>>
    var retrievers: map<string, Retriever>

    function Snap(): Snapshot
      reads this, db
    {
      Snapshot(db.dirs, uploads, historyFiles, chatHistories, retrievers)
    }

    ghost predicate Valid()
      reads this, db
    {
      Consistent(Snap())
    }

    /** A server starting over an existing disk, with empty caches. */
    constructor (db: VectorDb, uploads: map<string, Folder>, historyFiles: map<string, seq<Line>>)
      ensures this.db == db && Snap() == Snapshot(db.dirs, uploads, historyFiles, map[], map[])
      ensures Valid()
    {
      this.db := db;
      this.uploads := uploads;
      this.historyFiles := historyFiles;
      this.chatHistories := map[];
      this.retrievers := map[];
    }

    /** `load_chat_history_from_file(chat_id)`. */
    method LoadChatHistory(chatId: string) returns (history: seq<Entry>)
      ensures history == Load(HistoryFile(Snap(), chatId))
    {
      history := [];
      if chatId in historyFiles {
        var lines := historyFiles[chatId];
        var k := 0;
        while k < |lines|
          invariant 0 <= k <= |lines|
          invariant Decode(lines[..k]) == Some(history)
        {
          assert lines[..k + 1][..k] == lines[..k];
          var result := DecodeLine(lines[k]);
          if result.Failed? {
            DecodeFailureSticks(lines, k + 1);
            return [];
          } else if result.Read? {
            history := history + [result.entry];
          }
          k := k + 1;
        }
        assert lines[..|lines|] == lines;
      }
    }

    /** `save_chat_history_to_file(chat_id, history)`: the file is rewritten
        with one record per entry. */
    method SaveChatHistory(chatId: string, history: seq<Entry>)
      modifies this`historyFiles
      ensures historyFiles == old(historyFiles)[chatId := Encode(history)]
    {
      var lines := [];
      for k := 0 to |history|
        invariant lines == Encode(history[..k])
      {
        assert history[..k + 1][..k] == history[..k];
        lines := lines + [EncodeEntry(history[k])];
      }
      assert history[..|history|] == history;
      historyFiles := historyFiles[chatId := lines];
    }

    /** The re-initialisation at the head of upload and chat. */
    method Rehydrate(chatId: string)
      modifies this`chatHistories
      ensures Snap() == Rehydrated(old(Snap()), chatId)
    {
      if chatId !in chatHistories && (chatId in db.dirs || chatId in historyFiles) {
        var history := LoadChatHistory(chatId);
        chatHistories := chatHistories[chatId := history];
      }
    }

    /** `create_chat`. */
    method CreateChat(desired: Field, freshId: string) returns (reply: Reply)
      requires Valid()
      modifies this, db
      ensures Outcome(Snap(), reply) == CreateChatResult(old(Snap()), desired, freshId)
      ensures Valid()
    {
      CreateChatKeepsConsistent(Snap(), desired, freshId);
      var chatId;
      if Truthy(desired) {
        var verdict := IsValidChatName(desired);
        if !verdict.ok {
          return Reply(400, Error(InvalidNamePrefix + verdict.message));
        }
        chatId := Strip(desired.s);
        if chatId in db.dirs || chatId in uploads || chatId in historyFiles {
          return Reply(409, Error(NameTaken(chatId)));
        }
      } else {
        chatId := freshId;
      }
      RecordNewChat(chatId);
      reply := Reply(201, Created(chatId));
    }

    /** The creation itself: the empty history, in memory and saved, and the
        collection opened through `get_vector_store` with no files. */
    method RecordNewChat(chatId: string)
      modifies this`chatHistories, this`historyFiles, db
      ensures Snap() == Fresh(old(Snap()), chatId)
    {
      chatHistories := chatHistories[chatId := []];
      SaveChatHistory(chatId, []);
      NothingToAddLeavesStore(CollectionAt(db.dirs, chatId), [], map[]);
      var _ := db.GetVectorStore(chatId, None, map[]);
    }

    /** `upload_pdfs(chat_id)`. */
    method UploadPdfs(chatId: string, files: Option<seq<Upload>>) returns (reply: Reply)
      requires Valid()
      modifies this, db
      ensures Outcome(Snap(), reply) == UploadPdfsResult(old(Snap()), chatId, files)
      ensures Valid()
    {
      ghost var s0 := Snap();
      UploadPdfsKeepsConsistent(s0, chatId, files);
      if chatId !in chatHistories && !(chatId in db.dirs || chatId in historyFiles) {
        return Reply(404, Error(UnknownChatForUpload));
      }
      Rehydrate(chatId);
      if files.None? {
        return Reply(400, Error(NoFilesPart));
      }
      var uploaded := files.value;
      if uploaded == [] {
        return Reply(400, Error(NoFilesSelected));
      }
      SaveAndIndex(chatId, uploaded);
      reply := Reply(200, Info(UploadedMessage(chatId)));
    }

    /** The body of `upload_pdfs` once the request is accepted: each named
        file is saved into the chat's folder, the saved paths go to
        `get_vector_store`, and an MMR retriever is cached. */
    method SaveAndIndex(chatId: string, uploaded: seq<Upload>)
      modifies this, db
      ensures Snap() == Indexed(old(Snap()), chatId, uploaded)
    {
      var pdfPaths, disk := SaveFiles(chatId, uploaded);
      var _ := db.GetVectorStore(chatId, Some(pdfPaths), disk);
      retrievers := retrievers[chatId := MmrRetriever(chatId)];
    }

    /** The saving loop: the folder is created when missing, and each named
        file is written to it; the paths and what they hold are returned. */
    method SaveFiles(chatId: string, uploaded: seq<Upload>) returns (pdfPaths: seq<string>, disk: map<string, seq<Doc>>)
      modifies this`uploads
      ensures uploads == old(uploads)[chatId := SaveAll(FolderAt(old(Snap()), chatId), uploaded)]
      ensures pdfPaths == SavedPaths(chatId, uploaded) && disk == Written(chatId, uploaded)
    {
      var folder := if chatId in uploads then uploads[chatId] else map[];
      ghost var folder0 := folder;
      pdfPaths := [];
      disk := map[];
      for k := 0 to |uploaded|
        invariant folder == SaveAll(folder0, uploaded[..k])
        invariant uploads == old(uploads)
        invariant pdfPaths == SavedPaths(chatId, uploaded[..k])
        invariant disk == Written(chatId, uploaded[..k])
      {
        SaveStep(chatId, folder0, uploaded, k);
        var pdfFile := uploaded[k];
        if pdfFile.filename != "" {
          var filePath := UploadPath(chatId, pdfFile.filename);
          folder := folder[pdfFile.filename := pdfFile.chunks];
          disk := disk[filePath := pdfFile.chunks];
          pdfPaths := pdfPaths + [filePath];
        }
      }
      uploads := uploads[chatId := folder];
      assert uploaded[..|uploaded|] == uploaded;
    }

    /** `chat_with_llm(chat_id)`. */
    method ChatWithLlm(chatId: string, question: Option<string>, openError: Option<string>,
                       retrieved: seq<Doc>, chain: Variables -> Option<string>) returns (reply: Reply)
      requires Valid()
      modifies this, db
      ensures Outcome(Snap(), reply) == ChatResult(old(Snap()), chatId, question, openError, retrieved, chain)
      ensures Valid()
    {
      ghost var s0 := Snap();
      ChatKeepsConsistent(s0, chatId, question, openError, retrieved, chain);
      if chatId !in chatHistories && !(chatId in db.dirs || chatId in historyFiles) {
        return Reply(404, Error(UnknownChatForChat));
      }
      Rehydrate(chatId);
      ghost var s1 := Snap();
      assert ChatResult(s0, chatId, question, openError, retrieved, chain)
          == ChatLoaded(s1, chatId, question, openError, retrieved, chain);
      if question.None? || question.value == "" {
        return Reply(400, Error(NoQuestion));
      }
      if chatId !in retrievers && openError.Some? {
        return Reply(500, Error(LoadFailedPrefix + openError.value));
      }
      assert ChatLoaded(s1, chatId, question, openError, retrieved, chain)
          == Turn(WithRetriever(s1, chatId), chatId, question.value, retrieved, chain);
      OpenRetriever(chatId);
      reply := AnswerTurn(chatId, question.value, retrieved, chain);
    }

    /** The cached retriever, or a new one from `get_retriever`. */
    method OpenRetriever(chatId: string)
      modifies this`retrievers, db
      ensures Snap() == WithRetriever(old(Snap()), chatId)
    {
      if chatId !in retrievers {
        NothingToAddLeavesStore(CollectionAt(db.dirs, chatId), [], map[]);
        var currentRetriever := db.GetRetriever(chatId, None, map[]);
        retrievers := retrievers[chatId := currentRetriever];
      }
    }

    /** The question put to the model, and the answer recorded and saved. */
    method AnswerTurn(chatId: string, q: string, retrieved: seq<Doc>, chain: Variables -> Option<string>)
      returns (reply: Reply)
      requires chatId in chatHistories
      modifies this`chatHistories, this`historyFiles
      ensures Outcome(Snap(), reply) == Turn(old(Snap()), chatId, q, retrieved, chain)
    {
      var history := chatHistories[chatId];
      var result := chain(ChainInput(retrieved, history, q));
      if result.None? {
        return Reply(500, ServerError);
      }
      history := history + [Human(q), AI(result.value)];
      chatHistories := chatHistories[chatId := history];
      SaveChatHistory(chatId, history);
      reply := Reply(200, Answer(result.value, Sources(retrieved)));
    }

    /** `rename_chat`. */
    method RenameChat(oldId: Option<string>, newName: Field) returns (reply: Reply)
      requires Valid()
      modifies this, db
      ensures Outcome(Snap(), reply) == RenameChatResult(old(Snap()), oldId, newName)
      ensures Valid()
    {
      ghost var s0 := Snap();
      RenameKeepsConsistent(s0, oldId, newName);
      if oldId.None? || oldId.value == "" || !Truthy(newName) {
        return Reply(400, Error(MissingRenameArgument));
      }
      var verdict := IsValidChatName(newName);
      if !verdict.ok {
        return Reply(400, Error(InvalidNewNamePrefix + verdict.message));
      }
      var oldChat, newChat := oldId.value, Strip(newName.s);
      if !(oldChat in db.dirs || oldChat in historyFiles || oldChat in chatHistories) {
        return Reply(404, Error(RenameSourceMissing(oldChat)));
      }
      if newChat in db.dirs || newChat in uploads || newChat in historyFiles || newChat in chatHistories {
        return Reply(409, Error(RenameTargetTaken(newChat)));
      }
      MoveChat(oldChat, newChat);
      reply := Reply(200, Renamed(RenamedMessage, newChat));
    }

    /** The moves of `rename_chat`: collection, upload folder and history
        file (each created empty when missing), then the in-memory history
        and the cached retriever when present. */
    method MoveChat(oldChat: string, newChat: string)
      requires oldChat != newChat
      modifies this, db
      ensures Snap() == Moved(old(Snap()), oldChat, newChat)
    {
      db.dirs := MovedDirs(db.dirs, oldChat, newChat);
      uploads := MoveOrCreate(uploads, oldChat, newChat, map[]);
      if oldChat in historyFiles {
        historyFiles := MoveOrCreate(historyFiles, oldChat, newChat, []);
      } else {
        SaveChatHistory(newChat, []);
      }
      chatHistories := MoveIfPresent(chatHistories, oldChat, newChat);
      retrievers := MoveIfPresent(retrievers, oldChat, newChat);
    }

    /** `clear_all_data`. */
    method ClearAllData() returns (reply: Reply)
      modifies this, db
      ensures Outcome(Snap(), reply) == ClearAllDataResult(old(Snap()))
      ensures Valid()
    {
      chatHistories := map[];
      retrievers := map[];
      db.dirs := map[];
      uploads := map[];
      historyFiles := map[];
      reply := Reply(200, Info(ClearedMessage));
    }

    /** `list_chats`: the ids of the collection directories, each once, in
        the order the directory listing gives them. */
    method ListChats() returns (reply: Reply)
      ensures reply.status == 200 && reply.body.ChatIds?
      ensures forall id :: id in reply.body.chatIds <==> id in db.dirs
      ensures forall i, j :: 0 <= i < j < |reply.body.chatIds| ==> reply.body.chatIds[i] != reply.body.chatIds[j]
    {
      var chatIds := [];
      var unlisted := db.dirs.Keys;
      while unlisted != {}
        invariant unlisted <= db.dirs.Keys
        invariant forall id :: id in chatIds <==> id in db.dirs && id !in unlisted
        invariant forall i, j :: 0 <= i < j < |chatIds| ==> chatIds[i] != chatIds[j]
        decreases |unlisted|
      {
        var item :| item in unlisted;
        chatIds := chatIds + [item];
        unlisted := unlisted - {item};
      }
      reply := Reply(200, ChatIds(chatIds));
    }
  }
}
