# BookAnalyzerLLM back end, modelled in Dafny

BookAnalyzerLLM is a retrieval-augmented chat service. A user creates a named
chat, uploads PDFs into it, and asks questions. Each question is answered by a
language model that sees three things: the chunks retrieved from that chat's
Chroma collection, the conversation so far, and a fixed instruction template.

This project models the part of the Flask back end that holds the rules.

- **Chat-name validator.** `is_valid_chat_name` is modelled as `ChatName.IsValidChatName`.
- **History encoding.** The conversation history is stored as `{type, content}` records, one per line of a `.jsonl` file. It is modelled in module `History`.
- **Prompt renderers.** `format_docs_with_sources` exists in both app.py and main.py. It is modelled in module `Prompt`, together with `format_chat_history` and the template.
- **Chunk tagging and commit.** `get_vector_store` tags chunks and commits them to a chat's collection, and `get_retriever` opens the collection for search. Both are in module `Vector`. The `./chroma_db` tree is the class `Vector.VectorDb`: one directory per chat, each holding collections by name, and the chat's own collection is the one named `chat_<id>_pdfs`.
- **The six routes.** These are `create_chat`, `upload_pdfs`, `chat_with_llm`, `rename_chat`, `clear_all_data` and `list_chats`, in module `Server`.

Each route that changes state has two parts in module `Server`:

- a pure function from the state before the request to the state after it and the reply (`CreateChatResult`, `UploadPdfsResult`, `ChatResult`, `RenameChatResult`, `ClearAllDataResult`);
- a method of the class `Server.Registry`, which holds the same state in fields and carries out the route step by step. Each method is proved equal to its function.

`list_chats` changes nothing, so it is only the method `Server.Registry.ListChats`, whose contract states its reply.

The route methods also preserve the invariant `Server.Consistent`. It has three parts:

- every history held in memory is what its file loads as;
- every chat held in memory has a collection directory or a history file;
- only chats held in memory have a cached retriever.

The state is modelled abstractly:

- A collection maps chunk ids to documents, and `add_documents` is an upsert.
- An upload folder maps file names to files.
- A history file is a sequence of decoded JSON lines.
- Some values come from outside and are parameters: the PDF loader with the text splitter, the uuid, the retriever's search results, and the chain `prompt | model`.

Two behaviours of the code are easy to miss, and the model keeps them:

- Asking a question in a chat with no uploaded documents does not fail. `get_retriever` opens the collection, creating it when missing, and the question is answered from whatever the search returns.
- `add_documents` is called whenever the batch is non-empty, whether the collection existed before or not.

## Model

| member | source | states |
|---|---|---|
| Text.Strip | app.py:51 | `str.strip()`: the result is the slice of the input between an all-blank prefix and an all-blank suffix; it is empty exactly when the input is all whitespace, and otherwise starts and ends with a non-blank character |
| ChatName.IsValidChatName | app.py:65-77 | the validator's five rules in order, each with its message; what it accepts is stated by `ChatName.AcceptsExactlyThePattern` |
| ChatName.EmptyRuleComesFirst | app.py:67-68 | a missing, empty or non-string name gets "Name cannot be empty." before any other rule is looked at |
| ChatName.PatternExcludesPathSyntax | app.py:69-76 | a stripped name that matches `[a-zA-Z0-9 _-]{1,100}` passes the dot-edge, `..` and path-separator rules |
| ChatName.AcceptsExactlyThePattern | app.py:65-77 | the validator accepts exactly the non-empty strings whose stripped form matches the pattern; acceptance carries the empty message, and a rejection carries only the empty-name or the pattern message, never the three later ones |
| ChatName.WhitespaceOnlyFailsThePattern | app.py:67-70 | a non-empty, all-whitespace name passes the empty-name rule and is rejected with the pattern message |
| ChatName.AcceptedNameIsSafe | app.py:69-76 | an accepted name strips to 1-100 characters from the class, with no separator, no `..`, no dot at either end and no surrounding blanks |
| History.Encode | app.py:102-114 | one `{type, content}` line per entry, in order; `History.DecodeEncode` states that reading it back gives the entries |
| History.Decode | app.py:89-99 | reading the lines in order, failing on the first bad line; `History.DecodeFailsIff` states when it fails |
| History.Load | app.py:84-100 | a missing file or a file that fails to read loads as the empty history; `History.LoadAfterSave` and `History.LoadFailureIsEmpty` state its results |
| History.DecodeEncode | app.py:84-114 | reading back the lines that saving writes gives the same entries in the same order |
| History.LoadAfterSave | app.py:84-114 | loading a saved history file returns the history that was saved |
| History.DecodeFailsIff | app.py:89-99 | reading a file raises exactly when one of its lines fails to decode, lacks `type`, or is a human/ai record without `content` |
| History.LoadFailureIsEmpty | app.py:97-99 | a file with a bad line loads as the empty history, whatever its other lines hold |
| History.DecodeFailureSticks | app.py:89-99 | once a prefix of the file fails to read, the whole file fails |
| Prompt.Excerpts | app.py:47-52 | one excerpt per document, the i-th being the labelled excerpt of the i-th document |
| Prompt.FormatDocsWithSources | app.py:45-53 | the excerpts joined with blank lines; `Prompt.FormatDocsEmpty` and `Prompt.FormatDocsAppend` state its shape (main.py:20-27 is the same renderer) |
| Prompt.FormatDocsEmpty | main.py:27 | no documents render as the empty context |
| Prompt.FormatDocsAppend | main.py:20-27 | one more document adds a blank line and its excerpt at the end, so the excerpts appear once each in retrieval order (main.py's renderer, identical to app.py:45-53) |
| Prompt.ExcerptDefaults | app.py:49-50 | a document without `source_file` or `chunk` metadata is labelled `[Source: unknown.pdf, Chunk: n/a]` (the same defaults as main.py:23-24) |
| Prompt.ExcerptBodyIsTrimmed | main.py:25-26 | an excerpt is its label ending in a newline, followed by the page content with surrounding whitespace stripped |
| Prompt.TranscriptLines | app.py:57-62 | one `Human: ` or `AI: ` line per entry, in history order |
| Prompt.FormatChatHistory | app.py:55-63 | the transcript lines joined with newlines; `Prompt.TranscriptAppend` and `Prompt.TranscriptOneLinePerEntry` state its shape |
| Prompt.TranscriptOneLinePerEntry | app.py:55-63 | when no message spans lines, splitting the transcript on newlines gives back exactly one line per entry |
| Prompt.TranscriptAppend | app.py:55-63 | one more entry adds a newline and its line at the end of the transcript |
| Prompt.TranscriptAfterTurn | app.py:233-239 | after a turn, the transcript is the earlier transcript followed by the question line and the answer line |
| Prompt.FillSlots | app.py:24-43 | filling the template puts context, history and question each in its own slot, between the template's fixed pieces and in that order |
| Vector.UpsertContents | vector.py:58 | an upsert adds exactly the batch's ids, keeps every other entry, and stores under each id the last document given for it |
| Vector.Upsert | vector.py:58 | `add_documents(documents, ids)` as an in-order upsert; `Vector.UpsertContents` states its result |
| Vector.Commit | vector.py:27-66 | the batch of the given paths upserted into the collection; `Vector.CommitContents` states its result |
| Vector.CommitContents | vector.py:27-66 | after a commit, the keys are the old keys plus the batch ids, entries outside the batch are unchanged, and an empty batch leaves the collection as it was |
| Vector.UpsertAgreeingBatch | vector.py:58 | an id whose every occurrence in the batch carries the same document ends up holding that document |
| Vector.CollectionNameInjective | vector.py:51 | `chat_<id>_pdfs` determines the chat id, so two chats never share a collection name |
| Vector.WithCollection | vector.py:50-54 | opening or writing a chat's collection replaces only that collection in that chat's directory; other collections in the directory and other chats' directories are unchanged |
| Vector.UpsertKeys | vector.py:63 | the keys after an upsert are the old keys plus the batch ids, and entries outside the batch are unchanged |
| Vector.UpsertLastWins | vector.py:63 | each id of the batch ends up holding the document at its last occurrence |
| Vector.IdsMatchDocuments | vector.py:39-45 | `ids_to_add` and `documents_to_add` have the same length, and each document's `id` metadata is its own id |
| Vector.FileIdsMatchDocuments | vector.py:39-45 | the same for the chunks of one file |
| Vector.BatchConcat | vector.py:31 | the batch for two lists of paths is the batch for the first followed by the batch for the second |
| Vector.TaggedConcat | vector.py:31-45 | files are processed in input order, for documents and ids alike |
| Vector.RejectedPathsAddNothing | vector.py:32-47 | paths that do not end in `.pdf` or do not exist contribute no documents and no ids |
| Vector.TaggedDocProvenance | vector.py:33-45 | every batched document is chunk `i` of some accepted input file, tagged with that file's base name, index `i` and id `<name>_<i>` |
| Vector.ChunkIdInjective | vector.py:40 | `<name>_<i>` determines both the name and the index |
| Vector.TagIdsDistinct | vector.py:39-40 | the chunks of one file get pairwise different ids |
| Vector.TagIdsMembership | vector.py:40 | `<name>_<i>` is among the ids of a file with `n` chunks exactly when `i < n` |
| Vector.CommitIndexesFile | vector.py:31-63 | after the commit, every chunk of every accepted file is in the collection under `<base name>_<i>` |
| Vector.CommitOneFile | vector.py:31-63 | committing one accepted file upserts its tagged chunks under their ids |
| Vector.UpsertFileContents | vector.py:39-45 | after upserting one file, chunk `i` is stored tagged under `<name>_<i>` and ids of other files keep their documents |
| Vector.ReuploadOverwrites | vector.py:40 | re-uploading a file under the same base name replaces every chunk index the new version has and leaves older chunks beyond its length in place |
| Vector.TagFile | vector.py:39-45 | the inner loop's documents and ids are the file's tagged chunks and their ids |
| Vector.CollectChunks | vector.py:27-47 | the loop collects the batch of the given paths, with `None` read as no paths, and one id per document |
| Vector.NothingToAddLeavesStore | vector.py:30-66 | with no path that is a PDF on disk, the call only opens or creates the collection and adds nothing |
| Vector.VectorDb.constructor | vector.py:16-19 | the collection directories as found on disk |
| Vector.VectorDb.GetVectorStore | vector.py:11-69 | `add_documents` runs exactly when the batch is non-empty, and afterwards the chat's collection, created when missing, is the old one with the batch committed; other collections are unchanged |
| Vector.VectorDb.AddDocuments | vector.py:58 | the chat's collection becomes the upsert of the batch into it |
| Vector.VectorDb.GetRetriever | vector.py:71-80 | the store is left as `get_vector_store` leaves it, and the retriever searches that chat by MMR with `k = 8` |
| Server.Rehydrated | app.py:160-164 | a chat in memory keeps its history; a chat only on disk is loaded with what its history file loads as; an unknown chat stays unknown; the disk, the retrievers and every other chat's history are unchanged |
| Server.RehydrateKeepsConsistent | app.py:203-207 | loading a history from its file keeps the state consistent |
| Server.RestartKeepsHistory | app.py:203-207 | after a restart, the first request that loads a chat finds the history it had in memory before |
| Server.Consistent | app.py:19-20 | the invariant the routes keep: in-memory histories agree with their files, chats in memory are on disk, only chats in memory have a cached retriever; kept by the `...KeepsConsistent` lemmas |
| Server.CreateChatResult | app.py:126-155 | `create_chat` as a function of the state; its replies are stated by `Server.CreateChatReplies` |
| Server.CreateChatReplies | app.py:126-155 | the reply is 400, 409 or 201: 400 exactly when a given name is invalid, and 409 exactly when its stripped form already has a collection, folder or history file, both leaving the state alone; otherwise 201 creates the chat under the stripped name (matching the pattern and free) or under the fresh id |
| Server.FreshContents | app.py:146-152 | a created chat has its collection and an empty history in memory and in its file, and every other chat is untouched |
| Server.RecordKeepsConsistent | app.py:146-147 | writing one history to memory and to its file together keeps the state consistent |
| Server.FreshKeepsConsistent | app.py:146-152 | creating a chat keeps the state consistent |
| Server.CreateChatKeepsConsistent | app.py:126-155 | `create_chat` keeps the state consistent, whatever it replies |
| Server.UploadPdfsReplies | app.py:157-198 | the reply is 404, 400 or 200: 404 exactly for a chat neither in memory nor on disk, leaving the state alone; otherwise the chat is loaded into memory and 400 is given exactly when the request has no files; a 200 saves and indexes the files and caches an MMR retriever with `k = 8`, without touching history files |
| Server.UploadPdfsResult | app.py:157-198 | `upload_pdfs` as a function of the state; its replies are stated by `Server.UploadPdfsReplies` |
| Server.UploadPdfsKeepsConsistent | app.py:157-198 | `upload_pdfs` keeps the state consistent |
| Server.UploadPathInjective | app.py:183 | two files of one chat's folder get the same path only when they have the same name |
| Server.UploadPathBaseName | app.py:183 | the base name of a saved file's path is the file's name when the name holds no `/`, and the path ends as the name does |
| Server.SavedFile | app.py:179-186 | a named file's path is among the saved paths, and it holds what the folder ends up holding under that name |
| Server.SavedPathOrigin | app.py:179-186 | every saved path is the path of some named upload |
| Server.CommittedChunk | app.py:179-193 | when no upload name holds a `/`, the id `<name>_<i>` ends up holding chunk `i` of the file saved under that name, tagged with the name and the index |
| Server.IndexedHasEachPdf | app.py:179-193 | every uploaded file named `*.pdf` is in the chat's folder, each of its chunks is in the chat's collection under `<name>_<i>`, and, when no upload name holds a `/`, that id holds the chunk the folder holds, tagged with the name and the index |
| Server.Sources | app.py:245 | the reply's `sources` list holds the metadata of each retrieved document, in order |
| Server.WithRetriever | app.py:216-220 | a cached retriever leaves the state as it was; otherwise an MMR retriever for the chat is cached; either way the chat's collection and every other chat's directory keep their contents, and histories, history files and folders are unchanged |
| Server.ChatReplies | app.py:200-245 | the reply is 404, 400, 500 or 200: 404 exactly for an unknown chat, leaving the state alone; 400 exactly for a missing or empty question once the chat is loaded; 500 exactly when the retriever fails to open for an uncached chat or the chain raises, keeping the loaded history in memory and the files unchanged; a 200 answer is what the chain returns on the retrieved excerpts, the transcript so far and the question, with the metadata of every retrieved document, and the history in memory and in the file becomes the old history plus the question and the answer; whatever the reply, the upload folders, the collections and every other chat's history, in memory and in its file, and cached retriever are unchanged |
| Server.ChatResult | app.py:200-245 | `chat_with_llm` as a function of the state; its replies are stated by `Server.ChatReplies` |
| Server.ChatKeepsConsistent | app.py:200-245 | `chat_with_llm` keeps the state consistent |
| Server.ChatLoadedKeepsConsistent | app.py:211-241 | the part of the route after loading keeps the state consistent |
| Server.WithRetrieverKeepsConsistent | app.py:216-220 | caching a retriever for a loaded chat keeps the state consistent |
| Server.TurnKeepsConsistent | app.py:232-241 | appending a turn in memory and saving it keeps the state consistent |
| Server.MoveOrCreate | app.py:281-300 | a directory or file moves from the old id to the new one, or is created empty under the new id when the old id has none; other ids are unchanged |
| Server.MoveIfPresent | app.py:302-308 | `d[new] = d.pop(old)` when `old` is a key: the value moves and other keys are unchanged |
| Server.MovedContents | app.py:280-308 | after a rename, nothing is left under the old id; the chat's collection (renamed, see Findings), folder and loaded history are found under the new id, and the in-memory history and the retriever moved when present |
| Server.MovedLeavesOthers | app.py:280-308 | a rename leaves every other chat as it was |
| Server.RenameChatReplies | app.py:247-278 | the reply is 400, 404, 409 or 200, in the route's order: 400 for a missing argument or an invalid name, 404 for an old id with no collection, history file or in-memory history, 409 for a taken new name; each leaves the state alone |
| Server.RenameChatResult | app.py:247-311 | `rename_chat` as a function of the state, with the collection renamed along with its directory (the corrected move, see Findings); its replies are stated by `Server.RenameChatReplies` |
| Server.MovedDirs | app.py:280-285 | the chat's directory moves to the new id and its collection is renamed to `chat_<new>_pdfs` with its chunks; other collections in it and other chats' directories are unchanged |
| Server.MovedAsWritten | app.py:280-285 | the move as the code writes it: the directory moves to the new id and the collection in it keeps the old chat's name |
| Server.RenameOrphansCollection | app.py:280-285 | as written, the moved directory keeps the chunks under `chat_<old>_pdfs` and the collection the new id opens is empty |
| Server.RenameLosesChunks | app.py:280-285 | a chat holding one chunk, renamed as written, opens an empty collection under the new id; with the collection renamed, the chunk is still found |
| Server.RenameMovesChat | app.py:254-311 | a successful rename moves the chat from the old id to the stripped new name, which fits the pattern, was free and differs from the old id |
| Server.RenameNeverOverwrites | app.py:274-278 | on success the new name had no collection, folder, history file, in-memory history or cached retriever |
| Server.RenameKeepsConsistent | app.py:247-311 | `rename_chat` keeps the state consistent |
| Server.MovedKeepsConsistent | app.py:280-308 | moving a chat to a free name keeps the state consistent |
| Server.ClearForgetsEveryChat | app.py:320-346 | after clearing, the state is consistent, no chat is known anywhere, no name is taken and an upload to any id answers 404 |
| Server.ClearAllDataResult | app.py:320-346 | `clear_all_data` as a function of the state; `Server.ClearForgetsEveryChat` states its result |
| Server.Registry.constructor | app.py:19-20 | the service starts over an existing disk with both caches empty, and the state is consistent |
| Server.Registry.LoadChatHistory | app.py:84-100 | the reading loop returns what the history file loads as: its entries, or the empty history when the file is missing or a line raises |
| Server.Registry.SaveChatHistory | app.py:102-114 | the file is rewritten as the encoding of the history; no other file changes |
| Server.Registry.Rehydrate | app.py:160-164 | the re-initialisation step has the effect `Server.Rehydrated` describes |
| Server.Registry.CreateChat | app.py:126-155 | the reply and the new state are those of `Server.CreateChatResult`, and consistency is kept |
| Server.Registry.RecordNewChat | app.py:146-152 | the creation step has the effect `Server.Fresh` describes |
| Server.Registry.UploadPdfs | app.py:157-198 | the reply and the new state are those of `Server.UploadPdfsResult`, and consistency is kept |
| Server.Registry.SaveAndIndex | app.py:175-193 | saving, indexing and caching the retriever have the effect `Server.Indexed` describes |
| Server.Registry.SaveFiles | app.py:175-186 | the folder, the saved paths and their files are those the save loop describes, and only the folder of this chat changes |
| Server.Registry.ChatWithLlm | app.py:200-245 | the reply and the new state are those of `Server.ChatResult`, and consistency is kept |
| Server.Registry.OpenRetriever | app.py:216-220 | opening the retriever has the effect `Server.WithRetriever` describes |
| Server.Registry.AnswerTurn | app.py:228-245 | asking the chain and recording the turn have the effect `Server.Turn` describes |
| Server.Registry.RenameChat | app.py:247-311 | the reply and the new state are those of `Server.RenameChatResult`, with the corrected move, and consistency is kept |
| Server.Registry.MoveChat | app.py:280-308 | the moves have the effect `Server.Moved` describes, with the collection renamed along with its directory |
| Server.Registry.ClearAllData | app.py:320-346 | both caches and all three directories are emptied, the reply is the success message, and consistency holds |
| Server.Registry.ListChats | app.py:351-361 | 200 with a list holding each collection directory exactly once |

## Left out

- Flask routing, JSON parsing, `jsonify`, CORS and the HTML pages are not modelled. A reply is a status code and a body datatype.
- `print` logging is not modelled.
- The language model, the embedding model and Chroma's similarity search are outside the model. The chain `prompt | model` is a parameter from the template variables to an answer, or `None` for an exception, which Flask turns into a 500. The documents the MMR retriever returns are a parameter too.
- How `ChatPromptTemplate` wraps the filled template as a chat message is not modelled. The filled text is `Prompt.BuildPrompt`. The route model passes the template's variables to the `chain` parameter, which stands for `prompt | model` as a whole, so `Prompt.BuildPrompt` is not used by it.
- PDF loading and the text splitter (chunk size 1500, overlap 300) are not modelled. The chunks each file yields are given as data.
- Exceptions raised by `get_vector_store` inside `create_chat` and `upload_pdfs` are not modelled, nor are their 500 replies (app.py:153-155 and 196-198). Neither is a file that fails to load and so aborts the whole batch.
- I/O errors while reading directories or writing files are not modelled. The model treats the disk as maps that always answer, except in two places. A history file may hold lines that do not decode, and `get_retriever` may fail in `chat_with_llm`; that failure is the `openError` parameter.
- The rename rollback (app.py:313-318) runs only after an I/O exception, so it is not modelled.
- Server.Registry.SaveFiles: the folder is written once, after the loop, so the model does not capture intermediate states in which some files are saved and others not.
- `uuid.uuid4()` is the `freshId` parameter. Like the code, the model does not check that it is free.
- Chroma's rules on collection names and its rejection of duplicate ids within one batch are not modelled. A batch is applied as an in-order upsert.
- Only strings and non-negative integers are modelled as metadata values and JSON values. `old_chat_id` and `question` are modelled as strings or absent. `chat_name` and `new_chat_name` may also be any other JSON value, with its truthiness.
- Server.RenameChatResult, Server.Registry.RenameChat, Server.Registry.MoveChat: the route applies the corrected collection rename (`Server.MovedDirs`): the collection inside the moved directory becomes `chat_<new>_pdfs`. The code at app.py:280-285 only moves the directory, so the collection keeps the old chat's name and the renamed chat opens an empty one. That behaviour is `Server.MovedAsWritten`, and the Findings table records it.
- Server.UploadPath: `os.path.join` is modelled as joining with `/`. An absolute file name, which makes `os.path.join` drop the folder, is not modelled. The indexing property `Server.IndexedHasEachPdf` assumes file names without `/`.
- Server.SaveAll: an upload name holding `/` is filed in the chat's folder under that name. In the code, `../x.pdf` is written outside the folder, and `sub/x.pdf` fails in `file.save` because the sub-directory does not exist; that exception is not caught and Flask answers 500. Neither path traversal nor that 500 is modelled.
- Server.Registry.ListChats: the order `os.listdir` returns is not fixed by the model, and every collection directory is assumed to be a directory.
- `os.sep` is taken as `/` (POSIX).
- Each route is modelled as a single step. The code takes no locks around the two global dictionaries and no route is atomic, so interleaved requests (two `chat_with_llm` calls on one chat both appending to its list and rewriting its file) and a route stopped part-way are not modelled; the `...KeepsConsistent` lemmas hold for routes run one at a time.
- `load_chat_history_api` and the other read-only pages are not part of this model.
- The console loop of main.py is not part of this model.
- A retriever moved by a rename keeps the chat id it was opened with. It is the same object in the code, and the model does not say where it searches afterwards.

## Findings

| source | as written | input that shows it | evidently intended | confidence | as-written member | corrected member |
|---|---|---|---|---|---|---|
| app.py:280-285 | `rename_chat` moves `./chroma_db/<old>` with `os.rename`, but the collection inside keeps the name `chat_<old>_pdfs`, while `get_vector_store` opens `chat_<new>_pdfs` (vector.py:51) | chat `a` with one uploaded chunk, renamed to `b`, then asked a question after a restart: the retriever searches an empty collection | the chat's chunks are still searchable under the new name | not executed | Server.MovedAsWritten, Server.RenameLosesChunks | Server.MovedDirs, Server.MovedContents |

The routes use the corrected move: `Server.Moved` and `Server.Registry.MoveChat` rename the collection along with its directory. `Server.MovedAsWritten` is the move as the code writes it.
