# Kiem: the note store, its sync engine and its text rules, verified

Kiem keeps notes as replicated documents. This project models the parts whose guarantees come from
several pieces working together, and proves them for every input, every interleaving and every run.

* **Documents, Queries, Connections, NoteStore, StoreSteps, SearchIndex, IndexRuns** model one database
  file shared by many connections. A document is a finite set of changes and merging is union. Connections
  is a transition system in which each SQL statement is a step of some connection's program. NoteStore is the class
  itself: before each of its statements the other connections take the steps a schedule holds, so a
  contract about all schedules is a contract about all interleavings. StoreSteps ties the two: each
  operation, undisturbed, is its program in the transition system.
* **SyncEngine** is the engine class with its stamp cache, parse cache and parked documents, on top of
  that store; **EngineRuns** is any run of it; **Replicas** is any number of stores exchanging messages
  that may be lost, repeated and reordered.
* **Text, Fences, Tags, Todos, TodoText, TodoTags, RemoveTag, UncoveredTags, SlidCode, OtherTags,
  Splice, Frontmatter, Derivation, Project, Transfer, Import, ImportLedger** are the scanners of note
  bodies and the editors that have to agree with them. What they compute is stated a second time without
  them, from the lines and scalars of the text, and proved to be that. Strings are sequences of Unicode
  scalars; where the program counts bytes, positions are counted in scalars.
* **Frames** is the wire format of a session, **Lifecycle** the start and stop gate of the iOS app.

`dafny verify dfyconfig.toml` checks everything.

What the model takes from outside:

* The document library is a parameter with two laws (`Documents.Lawful`): a document hydrates under its
  own note's id, and reading a document reconciled with a note gives that note (the law behind note.rs:151-175;
  `Documents.ViewEdit` spells it out). A document hydrates iff it holds the change that created its note.
  Saved bytes and heads stand for the document itself.
* The keys of the purge set are the union of the keys its changes add, as store/mod.rs promises; that
  this holds when two stores make their first purge independently is the library's affair.
* The sync protocol is a parameter: `generate`, `decode`, `receive`, `reusable`. A received message adds
  its changes to the document. Documents travel under their own id, and the purge set carries only purges.
* UUIDs never collide, and every local write gets a timestamp never used before. Both appear as
  preconditions where they are used (`id !in seen`, `now !in stamps`).
* One SQL statement, and one transaction, is one step. Inside `bulk` the other writers wait, and their
  reads see the state of before, so they are taken to happen before it.
* A foreign process may hold the search writer lock (`lockedElsewhere`); what the index then misses is
  not claimed. Index claims are about the operations of one connection while the others are quiet: a row
  and its index entry are written in two steps, and `SearchIndex.LateReindexIsStale` says what two
  connections can make of that.
* Ids that arrive from elsewhere count as in use from then on (`NoteStore.Arrived`).

Found along the way, each with a lemma: a second syncing process could resurrect a purged note; a purge
between another's read and replacement of the tombstone document drops out of that document, whether the
other purges or adopts; a protocol error drops a parked document; a tag can survive its own removal, when
an occurrence glued to one cut out comes free (`#a#a`) or the cut moves a fence, and exactly then; a
removal that moves a fence can cost the note another tag; `insert_note` would bring a purged note back,
which no caller asks of it; a tag shown only by a fence is stamped no second time, so it is not among the
note's tags and makes an import repeat itself; an indented `type:` line is neither overwritten nor read.
`with_frontmatter_type`'s comment promises an exact inverse, which the code is not for such a line; the
model follows the code.

## Model

| member | source | states |
|---|---|---|
| Documents.LawfulLibraryExists | crates/kiem-core/src/note.rs:64-70 | the two laws asked of the document library are consistent: a last-writer-wins library obeys them |
| Documents.PutKeepsColumns | crates/kiem-core/src/store/write.rs:78-118 | merging a received document into a row, or inserting it, leaves every column equal to the value hydrated from the merged document |
| Documents.UpdateReplaces | crates/kiem-core/src/store/write.rs:243-279 | the guarded UPDATE, told without itself: onto the document it names it replaces that row by one that hydrates as the new document and keeps author and creation, and touches no other row; else nothing happens |
| Documents.PutJoins | crates/kiem-core/src/store/write.rs:56-118 | an atomic merge, told without itself: nothing for a purged note; the union of row and received changes in a row, every column shown as hydrated; one more row where there was none |
| Queries.SelectsWanted | crates/kiem-core/src/store/queries.rs:122-197 | every `WHERE` clause over columns means the same as the filter said of the hydrated note; for the Todo filter: some task item of the body is open |
| Queries.ListsMatch | crates/kiem-core/src/store/queries.rs:122-197 | while columns match documents, each `list_*` query returns exactly the matching hydrated notes with their metadata |
| Queries.CountFilters | crates/kiem-core/src/store/queries.rs:161-185 | one scan counts every smart filter, each count the length of the matching list |
| Connections.StepKeepsInv | crates/kiem-core/src/store/write.rs:49-292 | no single SQL statement of any connection breaks: columns = documents, purged ids have no row, tombstones are purged, every stamp was recorded |
| Connections.RunKeepsInv | crates/kiem-core/src/store/write.rs:49-138 | over every interleaving of any number of connections the invariant holds and a row's change history only grows until the row is purged |
| Connections.ReachableInv | crates/kiem-core/src/store/mod.rs:168-214 | an empty database meets that invariant, so it holds in every state any run with one syncing connection reaches |
| Connections.PurgedStaysGone | crates/kiem-core/src/store/write.rs:64-124 | a purged id never has a row again in any run, although the purged check and the INSERT are separate statements |
| Connections.EditLandsOnWhatWasRead | crates/kiem-core/src/store/write.rs:156-279 | an edit commits exactly onto the document its connection read, whatever the others did in between, or changes nothing |
| Connections.LocalRunEvolves | crates/kiem-core/src/store/mod.rs:487-491 | runs of local connections give changed rows never-used stamps, and give no row to, and purge no, known absent id |
| Connections.TwoMeshesResurrect | crates/kiem-sync/src/mesh/lock.rs:19-51 | why the mesh lock is needed: with two syncing connections a concrete run puts back a purged note |
| Connections.PurgeKeepsTombstonesIff | crates/kiem-core/src/store/purge.rs:53-105 | a local purge replaces the tombstone document unguarded: it still equals the purged ids iff every purge since it was read is in what was read or is purged again |
| Connections.AdoptKeepsTombstonesIff | crates/kiem-core/src/store/purge.rs:85-105 | adopting a peer's purge set replaces it just as blindly: it still equals the purged ids iff every id purged by then is in the adopted document |
| Connections.PurgesForget | crates/kiem-core/src/store/purge.rs:53-105 | a concrete run from the empty database: two connections empty the trash, and a purged note ends up missing from the tombstone document |
| Connections.AdoptForgets | crates/kiem-core/src/sync.rs:217-254 | a concrete run from the empty database: a local purge between the read and the adoption of a received purge set drops out of the tombstone document |
| StoreSteps.EditIsLoadAndSave | crates/kiem-core/src/store/write.rs:156-292 | the transition system does what the store does: an edit is its load and its save, and leaves what the store operation commits; a creation is one INSERT (`CreationIsInsert`) |
| StoreSteps.PurgeIsPickReadErase | crates/kiem-core/src/store/purge.rs:38-100 | a purge by tag is its selection, its read of the tombstones and its transaction, and leaves what the store operation does |
| StoreSteps.PutIsReadCheckWrite | crates/kiem-core/src/store/write.rs:49-124 | a received document is read, checked and written, which is one atomic merge; a lost write starts over with it (`LostWriteStartsOver`) |
| StoreSteps.AdoptionIsReadAndErase | crates/kiem-core/src/sync.rs:217-254 | an adopted purge set is joined with the stored one and all it lists erased |
| StoreSteps.EditIsReplicaStep | crates/kiem-core/src/store/write.rs:243-279 | what an edit commits is what the step of a replica makes of its rows; so it is with creation and purge (`CreationIsReplicaStep`, `PurgeIsReplicaStep`), and what a receipt absorbs (`ReceiptIsReplicaStep`) |
| NoteStore.NoteStore.Open | crates/kiem-core/src/store/mod.rs:179-201 | a connection to a database in any such state, without an index, meets what every operation asks |
| NoteStore.NoteStore.OpenDir | crates/kiem-core/src/store/mod.rs:171-177 | the same with a search index, in step if the index holds the live notes |
| NoteStore.NoteStore.PutDoc | crates/kiem-core/src/store/write.rs:38-138 | the merge-and-swap loop ends as one atomic merge into the row as others left it (nothing if purged, error iff the document does not hydrate), takes at most one pass more than others wrote this row, and keeps the index in step; the received id counts as in use |
| NoteStore.NoteStore.Pass | crates/kiem-core/src/store/write.rs:49-124 | one pass either completes that atomic merge or was beaten by at least one distinct write to the row and keeps all received changes |
| NoteStore.PassPuts | crates/kiem-core/src/store/write.rs:56-118 | a write that takes effect stores the union of the received changes and the current row, and never a purged note |
| NoteStore.LostRacePaid | crates/kiem-core/src/store/write.rs:119-124 | a pass whose write changes no row is paid for by a step of another connection on that row |
| NoteStore.NoteStore.Persist | crates/kiem-core/src/store/write.rs:243-292 | the compare-and-swap commits iff the row still is the document read; else the error is NotFound, or VersionMismatch naming a different document; nothing is written |
| NoteStore.NoteStore.Mutate | crates/kiem-core/src/store/write.rs:156-171 | pin, trash, restore and retype change, of the note that was read, that one field and the stamp (a type trimmed, or the default for a blank one) and nothing else, on that very version; else NotFound, or VersionMismatch naming the version read and the one there now, and nothing written; undisturbed it succeeds iff the note has a row |
| NoteStore.NoteStore.WriteBodyInner | crates/kiem-core/src/store/write.rs:196-237 | stores exactly the requested body, with the title, tags and status a new note of that body would get and every other field as read, on the expected version only, never dropping the last tag unless allowed; no other row changes; else the error says which: no row, the version asked for and the one there, or the tags that would be lost; undisturbed it succeeds iff those conditions hold |
| NoteStore.NoteStore.UpdateNote | crates/kiem-core/src/store/mod.rs:360-362 | an unversioned body replacement: committed onto the document it read, with the requested body, what derives from it, and no other field or row changed |
| NoteStore.NoteStore.UpdateNoteIfVersion | crates/kiem-core/src/store/mod.rs:368-375 | commits only onto the version the caller read, whatever other connections do; a conflict leaves the newer document untouched and names both versions |
| NoteStore.NoteStore.EditBody | crates/kiem-core/src/store/todos.rs:28-70 | the shared form of the six operations below: the body as first read, edited, becomes the body of the row as it is when written, with all that derives from it and nothing else changed; or nothing is written, as a document error exactly if the edit names a line or item that is not there. Undisturbed it succeeds iff the note, the line or item is there, the version fits and the last tag stays |
| NoteStore.NoteStore.AddTag | crates/kiem-core/src/store/mod.rs:378-388 | stores the body with the tag on a line of its own at the end, or as it is if it has the tag, and what derives from it, no other field and no other row; its extracted tags are those before, followed by a valid tag that was not there, which the note then carries; an unchanged body writes nothing |
| NoteStore.NoteStore.RemoveTag | crates/kiem-core/src/store/mod.rs:392-402 | stores the body without its counted occurrences, each cut with its line, one blank beside it, or alone, told scalar by scalar, and what derives from it, no other field and no other row, even if the note ends up untagged; undisturbed it succeeds iff the note exists |
| NoteStore.NoteStore.EditLines | crates/kiem-core/src/store/mod.rs:409-437 | replaces exactly the named lines, which must exist, on the version given if one is, and changes no other field and no other row; undisturbed it succeeds iff note and lines exist, the version fits and the last tag stays |
| NoteStore.NoteStore.SetTodosChecked | crates/kiem-core/src/store/todos.rs:28-43 | stores a body whose lines are those of before, save the mark of exactly the given items, with what derives from it, of which the tags stay, and changes no other field and no other row; undisturbed it fails, with nothing written, iff the note is missing or some index is out of range |
| NoteStore.NoteStore.SetTodoText | crates/kiem-core/src/store/todos.rs:47-58 | stores a body in which only the text behind that item's box differs, trimmed and made one line, its line ending kept, and what derives from it; undisturbed it succeeds iff note and item exist and the last tag stays |
| NoteStore.NoteStore.AddTodo | crates/kiem-core/src/store/todos.rs:64-70 | stores a body with one more line, an unchecked item at the next index, behind the last item or at the end, its text trimmed, one line and without a box of its own, and what derives from it; undisturbed it succeeds iff the note exists and the last tag stays |
| NoteStore.NoteStore.InsertNote | crates/kiem-core/src/store/mod.rs:265-302 | one row more, hydrating to the note, no other row changed, and its index entry; or DuplicateId and nothing written iff the id has a row. It does not ask whether the id was purged: such a note comes back and the store invariant is broken; otherwise it is kept |
| NoteStore.NoteStore.CreateNote | crates/kiem-core/src/store/mod.rs:224-231 | never fails: a live, unpinned note of the default type under an id nobody used, with the given body and author, the title, tags and status of that body, and both stamps now |
| NoteStore.NoteStore.PurgeIds | crates/kiem-core/src/store/purge.rs:53-69 | rows gone, ids purged, tombstones replaced by what was read plus these ids, and the number of rows erased; nothing for no ids, and failure with nothing written inside a bulk; the index stays in step |
| NoteStore.NoteStore.PurgeDeleted | crates/kiem-core/src/store/purge.rs:22-31 | outside a bulk, erases every note that was in the trash when it was selected and no other row, and adds exactly those ids to the purged ones; undisturbed the trash is then listed empty and every row that was not in it is as it was; the index stays in step |
| NoteStore.NoteStore.PurgeTag | crates/kiem-core/src/store/purge.rs:38-48 | likewise for the notes carrying the tag, trashed ones included: undisturbed the tag is then listed empty, live and trashed, and every row whose note lacks the tag is as it was |
| NoteStore.PurgeErases | crates/kiem-core/src/store/purge.rs:22-100 | what a purge takes, told by the listings of that moment: the rows found in some of them go and are purged, all others stay |
| NoteStore.NoteStore.AdoptTombstoneDoc | crates/kiem-core/src/store/purge.rs:85-105 | every id the given purge set lists is erased here and the set takes the place of the old one; inside a bulk it fails; the index stays in step and no batch stays open |
| NoteStore.EraseAll | crates/kiem-core/src/store/purge.rs:94-100 | the loop of the transaction: exactly the given rows go, counted, and all given ids are purged |
| NoteStore.DropFromIndex | crates/kiem-core/src/store/purge.rs:106-128 | deferred removals stopped at the first failure and one flush: with the writer free the index loses exactly the purged ids |
| NoteStore.NoteStore.BeginBulk | crates/kiem-core/src/store/mod.rs:312-319 | a bulk begins once at a time, setting the index aside in step with the rows |
| NoteStore.NoteStore.EndBulk | crates/kiem-core/src/store/mod.rs:320-351 | commit keeps the rows and rebuilds the index, others writing meanwhile; failure of the work or the commit restores the rows and the index of before. Undisturbed it succeeds iff both succeed and the writer is free, and the index is then in step |
| NoteStore.NoteStore.RebuildSearchIndex | crates/kiem-core/src/store/queries.rs:45-60 | the index ends with the notes live when they were listed, each with its title and tags of then and a body it had since; it fails, leaving the index as it was, if a listed note is gone or no writer is free; undisturbed it ends in step |
| NoteStore.NoteStore.Reindex | crates/kiem-core/src/store/write.rs:126-136 | after a write the index holds the note as written, or not at all if it is trashed; a failing index write changes nothing |
| NoteStore.NoteStore.FlushSearchIndex | crates/kiem-core/src/store/write.rs:143-148 | everything deferred becomes visible and nothing else changes |
| IndexRuns.Do | crates/kiem-core/src/store/mod.rs:312-351 | one operation of any kind keeps the index in step, or the one a bulk set aside in step with the rows it would restore, and says when a batch can be open afterwards |
| IndexRuns.RunJobs | crates/kiem-core/src/search.rs:117-195 | over any sequence of one connection's creations, edits, receipts, purges, adoptions, flushes and bulks, committed or rolled back, the index with its batch applied equals the live rows' titles, bodies and tags, fewer than 25 writes wait, and none while no batch can be open; the sequence itself shows the condition: no immediate write and no rebuild while a batch may be open |
| IndexRuns.EditsAreOrderly | crates/kiem-core/src/store/write.rs:126-136 | any sequence of edits, purges and immediate receipts meets that condition |
| IndexRuns.TickIsOrderly | crates/kiem-sync/src/session.rs:236-246 | so does any number of deferred receipts ended by a flush, and what follows it |
| SearchIndex.Index.IndexNote | crates/kiem-core/src/search.rs:117-122 | an immediate write replaces the note's entry at once, and fails iff a writer is open here or elsewhere |
| SearchIndex.Index.RemoveNote | crates/kiem-core/src/search.rs:125-129 | an immediate removal, likewise |
| SearchIndex.Index.Defer | crates/kiem-core/src/search.rs:168-183 | a deferred write joins the open batch; the 25th commits it, so fewer than 25 ever wait |
| SearchIndex.Index.IndexNoteDeferred | crates/kiem-core/src/search.rs:136-143 | the index with its batch applied changes as by an immediate write |
| SearchIndex.Index.RemoveNoteDeferred | crates/kiem-core/src/search.rs:146-151 | likewise for a removal |
| SearchIndex.Index.Flush | crates/kiem-core/src/search.rs:158-164 | what is committed becomes the index with its batch applied, and the writer is released |
| SearchIndex.Index.Rebuild | crates/kiem-core/src/search.rs:185-195 | the contents become exactly the given notes, and fails iff no writer can be opened |
| SearchIndex.RowReindexed | crates/kiem-core/src/store/write.rs:280-291 | reindexing the one note written keeps the index equal to the live rows' titles, bodies and tags |
| SearchIndex.PurgedReindexed | crates/kiem-core/src/store/purge.rs:106-128 | dropping the purged ids keeps the index equal to the live rows |
| SearchIndex.LateReindexIsStale | crates/kiem-core/src/store/write.rs:251-291 | a row and its index entry are written in two steps: when two connections write one row in one order and index it in the other, the index is in step iff both wrote the same title, body and tags |
| SyncEngine.SyncEngine.GenerateMessage | crates/kiem-core/src/sync.rs:124-208 | the conversation with this peer about this document goes on from the state it left, or begins: with its stamp and parse caches the engine gives the message and keeps the next state of one that parses the row afresh at its last read, whatever is written between its reads, and no other conversation changes; an unchanged cached note is not fetched |
| SyncEngine.CachedIsStored | crates/kiem-core/src/sync.rs:148-159 | a matching stamp proves the cached parse is the stored document |
| SyncEngine.FetchedIsCoherent | crates/kiem-core/src/sync.rs:160-186 | caching a document under a stamp read before it keeps every later stamp match right |
| SyncEngine.EngineLater | crates/kiem-core/src/sync.rs:40-64 | whatever other connections write, cached parses with matching stamps stay right and parked documents stay without rows |
| SyncEngine.SyncEngine.ReceiveMessage | crates/kiem-core/src/sync.rs:212-268 | the protocol continues from the state this conversation left, sees the document as read, and its next state is kept, the old one on failure; accepted changes join what is held: a document that hydrates is put, else parked; a purge set is adopted together with the one read; no accepted change is lost, and a protocol error loses exactly what was parked, if it was not held otherwise; the index stays in step |
| SyncEngine.SyncEngine.TakeDoc | crates/kiem-core/src/sync.rs:220-240 | the message is applied to the parked, else the stored, else an empty document, and no cached copy of it survives |
| SyncEngine.SyncEngine.StoreOrPark | crates/kiem-core/src/sync.rs:250-268 | the pure effect of a received document at the moment of the put, others interfering before |
| SyncEngine.PutAbsorbs | crates/kiem-core/src/sync.rs:253-262 | putting a document read earlier is the same as absorbing its changes into the row as it is now |
| SyncEngine.AbsorbConserves | crates/kiem-core/src/sync.rs:250-268 | after absorbing, every accepted change of a note not purged is in its row or parked |
| SyncEngine.ParkedLost | crates/kiem-core/src/sync.rs:222-247 | the exact loss of a protocol error: the changes accepted into a parked document |
| SyncEngine.SyncEngine.Adopt | crates/kiem-core/src/sync.rs:251-254 | all the given purge set lists is erased and it takes the place of the stored one, so the two agree afterwards iff every id purged before is in it |
| SyncEngine.SyncEngine.DocIds | crates/kiem-core/src/sync.rs:111-120 | exactly the stored notes, the purge set and the parked documents |
| SyncEngine.SyncEngine.ResetPeer | crates/kiem-core/src/sync.rs:324-330 | a disconnect reduces the peer's states to their reusable part and touches no other |
| SyncEngine.SyncEngine.ForgetPeer | crates/kiem-core/src/sync.rs:342-344 | unpairing drops the peer's states and no other |
| EngineRuns.Do | crates/kiem-core/src/sync.rs:40-344 | one operation of the syncing connection of any kind, an edit or a purge of its own included, keeps the engine right, leaves each conversation's state as told from the one before, sends what that state gives, and drops nothing, unless it is a protocol error about that note |
| EngineRuns.RunJobs | crates/kiem-core/src/sync.rs:40-344 | over any run of messages generated and received, disconnects, unpairings, own edits and purges, with any steps of other connections between any two statements: each conversation's state at the end is what its own messages, disconnects and unpairings made of it one after the other, each seeing the store at a moment no earlier than the one before, and every message sent was generated from the state before it; caches stay coherent; all changes ever accepted are in their row or parked, unless the note was purged or a protocol error about it came in |
| Replicas.RunKeepsMesh | crates/kiem-core/src/store/purge.rs:53-105 | over any run of any number of replicas with edits, purges and lost, repeated or reordered messages: purged ids equal the tombstone keys and only grow, purged notes have no rows, changes of others only accumulate |
| Replicas.RunKeepsSentHeld | crates/kiem-core/src/sync.rs:212-268 | every change on its way was held by a replica, unless its note was purged since |
| Replicas.ArrivedIsGot | crates/kiem-core/src/sync.rs:250-268 | a message that ever arrived is still held at the end, or its note was purged |
| Replicas.Converges | crates/kiem-core/src/sync.rs:124-268 | a replica that got, change by change and in however many messages, what it lacked of every note nobody purged, and id by id every purge, holds exactly the unions of all changes of those notes, with matching columns, and no row of a purged one; in any order and among any old messages |
| Replicas.ConvergesIff | crates/kiem-core/src/sync.rs:124-268 | it ends with exactly what was held and purged anywhere iff it got all of that: the condition is exact |
| Replicas.ReplicasAgree | crates/kiem-core/src/store/purge.rs:1-8 | hence any two replicas that miss nothing hold the same notes, documents and columns, and a purge anywhere beats every concurrent edit |
| Replicas.FullExchangeExists | crates/kiem-core/src/sync.rs:111-120 | from every mesh some run without edits leaves every replica missing nothing, so they can always be brought to agree |
| Replicas.ReachableMesh | crates/kiem-core/src/store/mod.rs:36-50 | what convergence assumes holds in every state any run reaches from empty replicas |
| Fences.BlocksMatch | crates/kiem-core/src/content/mod.rs:230-258 | the scan finds a leftmost non-overlapping matching of openers with their first exact-length closers |
| Fences.MatchingIsUnique | crates/kiem-core/src/content/mod.rs:230-258 | that declarative matching is unique, so the scan computes it |
| Fences.OpenFenceIs | crates/kiem-core/src/content/mod.rs:230-258 | a line opens a fence iff it starts with a full run of at least three of one mark, which is that run |
| Fences.ClosingIs | crates/kiem-core/src/content/mod.rs:230-258 | a line closes it iff its run is exactly as long and only whitespace follows |
| Fences.FencedCodeRanges | crates/kiem-core/src/content/mod.rs:230-258 | the loop returns the ranges of those blocks in order |
| Fences.FencedRangesApart | crates/kiem-core/src/content/mod.rs:230-258 | fenced ranges are in bounds, sorted and disjoint |
| Frontmatter.BlockText | crates/kiem-core/src/content/mod.rs:230-258 | a block's range holds exactly its lines, from the opener to the closer |
| Tags.ExtractTagsLoop | crates/kiem-core/src/content/mod.rs:64-99 | the loop returns the distinct names of the matches outside code that follow whitespace, in first-seen order |
| Tags.SpansAre | crates/kiem-core/src/content/mod.rs:260-290 | the inline code spans, told without the scan: each from a backtick that starts one to the next backtick, left to right, none missed |
| UncoveredTags.CodeIs | crates/kiem-core/src/content/mod.rs:213-290 | what the scanners take for code, told without them: the texts of the blocks in the one matching of fences there is, and the inline spans |
| UncoveredTags.ExtractedIs | crates/kiem-core/src/content/mod.rs:64-99 | a tag is extracted iff somewhere in the text, newlines normalised, stands a hash, a letter and the longest run of tag scalars spelling it, at the start or behind whitespace, and no code has a scalar of it |
| UncoveredTags.ExtractedInOrder | crates/kiem-core/src/content/mod.rs:64-99 | the tags come in the order they are first seen, each once; with the line above that fixes the list |
| Tags.EndsAreNewlines | crates/kiem-core/src/content/mod.rs:178-184 | before tags and titles are looked for, each CRLF, lone carriage return or newline becomes one newline, wherever it stands; a text without carriage returns stays as it is (`NormalizeWithoutCr`) |
| Tags.EnsureTagExact | crates/kiem-core/src/project.rs:48-54 | for every body and valid tag the extracted tags after stamping are those before, followed by the tag if it was not there |
| Tags.StampedIs | crates/kiem-core/src/project.rs:48-54 | stamping, told without itself: the body as it is if it has the tag; else its trailing whitespace makes room for an empty line and the tag, and nothing else changes |
| Tags.StampedLines | crates/kiem-core/src/project.rs:48-54 | a new tag of one line gets a line of its own behind an empty one, after the lines of the body up to its last scalar that is not whitespace |
| Tags.EnsureTagIdempotent | crates/kiem-core/src/project.rs:48-54 | stamping twice is stamping once |
| Tags.EnsuredIffValid | crates/kiem-core/src/project.rs:45-54 | stamping makes the tag extractable iff it has the grammar of a tag |
| Tags.TagNamesConcat | crates/kiem-core/src/content/mod.rs:213-290 | text without code marks appended after blanks disturbs no tag and no code range before it |
| RemoveTag.RemoveTagFrom | crates/kiem-core/src/content/edits.rs:128-183 | returns exactly the scalars outside the union of the removal ranges |
| RemoveTag.Merge | crates/kiem-core/src/content/edits.rs:169-178 | merging gives sorted, disjoint ranges with the same union |
| RemoveTag.CutAll | crates/kiem-core/src/content/edits.rs:179-182 | cutting last to first leaves what lies outside all ranges |
| RemoveTag.RemovalShape | crates/kiem-core/src/content/edits.rs:149-166 | each range holds its occurrence and besides it only whitespace, within bounds |
| RemoveTag.RemovalIs | crates/kiem-core/src/content/edits.rs:149-166 | what goes with an occurrence, told without the editor: alone on its line, exactly that line and its newline; else the blank behind it, or the one before it if there is none behind, or nothing |
| RemoveTag.CutOnce | crates/kiem-core/src/content/edits.rs:149-166 | that describes one range only |
| RemoveTag.RemovalSparesCode | crates/kiem-core/src/content/edits.rs:146-166 | no removal range touches a code range |
| RemoveTag.RemovalsInOrder | crates/kiem-core/src/content/edits.rs:169-178 | ranges start in order, which the one-pass merge relies on |
| RemoveTag.RemovedExactly | crates/kiem-core/src/content/edits.rs:125-183 | every counted occurrence goes entirely, only whitespace goes with them, and no scalar of code goes |
| UncoveredTags.LeftIsWithout | crates/kiem-core/src/content/edits.rs:125-183 | the body left holds, in order, exactly the scalars outside the cuts of the occurrences of the tag, told without editor and scanners |
| SlidCode.LinesAfterRemoval | crates/kiem-core/src/content/edits.rs:149-183 | line by line: the lines holding only the tag are gone with their newlines, and no empty line takes their place (the last line, which has none, is left empty); lines without the tag are as they were |
| RemoveTag.RemovalCanUncoverTag | crates/kiem-core/src/content/edits.rs:125-183 | removal does not always remove the tag from the extracted tags: `#a#a` keeps it |
| UncoveredTags.TagsAfterRemoval | crates/kiem-core/src/content/edits.rs:125-183 | the extracted tags after a removal, for every body, tag and name: those of the matches of the body that did not count as the tag removed and now stand at the start or behind whitespace, outside the code of what is left |
| UncoveredTags.TagSurvivesIff | crates/kiem-core/src/content/edits.rs:125-183 | in a body without code marks the tag survives its own removal iff some occurrence that did not count, for want of whitespace before it, has whitespace or nothing as the last kept scalar before it |
| UncoveredTags.RemovalCanMoveFences | crates/kiem-core/src/content/edits.rs:125-183 | with code marks there is a second way: cutting `#a ` in front of tildes opens a fence there, and a `#a` that was code is not code any more |
| SlidCode.CodeSlides | crates/kiem-core/src/content/mod.rs:213-290 | if every line that lost something opens and closes what it did before, no code mark is cut, newlines go with whole lines only and inline code keeps some of its text, the code ranges of what is left are those of the body, slid along |
| SlidCode.TagsOutsideCode | crates/kiem-core/src/content/edits.rs:125-183 | the tags after a removal, told from the body and its own code ranges, when the lines that lose something keep their fences: those of the matches outside code that did not count as the tag removed and now stand at the start or behind whitespace |
| SlidCode.TagSurvivesOutsideCodeIff | crates/kiem-core/src/content/edits.rs:125-183 | under that condition, code marks or not, the tag survives its own removal iff an occurrence outside code that did not count, for want of whitespace before it, comes free |
| OtherTags.OtherTagsStay | crates/kiem-core/src/content/edits.rs:125-183 | under that condition a removal takes no other tag from the note |
| OtherTags.RemovalCanHideTag | crates/kiem-core/src/content/edits.rs:125-183 | without it one can: cutting ` #a` behind tildes leaves a bare fence, which closes what was open, and the note loses its tag `b` too |
| Todos.ExtractTodoItems | crates/kiem-core/src/content/edits.rs:30-44 | the loop numbers all checkbox lines in order |
| Todos.FlagIffOpenItem | crates/kiem-core/src/content/mod.rs:141-150 | the Todo flag is set iff some extracted item is unchecked |
| Todos.RewriteTodoLine | crates/kiem-core/src/content/edits.rs:48-74 | the loop rewrites the addressed checkbox line only, or fails with the count iff there is none |
| Todos.CheckedItems | crates/kiem-core/src/content/edits.rs:78-84 | checking an item changes only its state among all extracted items |
| Todos.CheckedSet | crates/kiem-core/src/store/todos.rs:28-43 | checking any list of indices fails iff one is out of range, else changes exactly those states, in whatever order |
| Todos.CheckTodos | crates/kiem-core/src/store/todos.rs:28-43 | the loop over the indices computes that |
| TodoTags.CheckingKeepsTags | crates/kiem-core/src/store/todos.rs:28-43 | checking or unchecking any items of any body leaves its derived tags as they were, so it never trips the guard on the last tag |
| TodoText.CheckedText | crates/kiem-core/src/content/edits.rs:48-84 | among all lines one scalar changes, the mark in that item's box |
| TodoText.RenamedText | crates/kiem-core/src/content/edits.rs:89-103 | among all lines only what follows that item's box changes, and its line ending stays |
| TodoText.CleanTextIs | crates/kiem-core/src/content/edits.rs:89-103 | the text put there has the scalars asked for, each line terminator a blank, and no whitespace at either end |
| TodoText.AppendedText | crates/kiem-core/src/content/edits.rs:110-123 | a new item is one line more, behind the last checkbox line or, without one, at the end, empty lines there dropped |
| Todos.RenamedItems | crates/kiem-core/src/content/edits.rs:89-103 | renaming changes only that item's text |
| Todos.AppendedItem | crates/kiem-core/src/content/edits.rs:110-123 | appending one line adds exactly one unchecked item at the next index |
| Splice.MakeSplice | crates/kiem-core/src/content/edits.rs:202-223 | none iff the bodies are equal; applied to the old body it gives the new; no splice that does so deletes or inserts fewer scalars |
| Splice.LongestIsMinimal | crates/kiem-core/src/content/edits.rs:199-223 | trimming the common prefix, then suffix, is minimal among all single splices |
| Splice.ReplacedLines | crates/kiem-core/src/content/edits.rs:240-264 | accepts exactly the line ranges that exist and replaces exactly those lines |
| Derivation.FindTitle | crates/kiem-core/src/content/mod.rs:27-43 | the title is the first line that is no table row, divider or blank, without its heading marker, and empty iff there is none |
| Derivation.TitleShape | crates/kiem-core/src/content/mod.rs:27-58 | a derived title is one line without blanks around it |
| Derivation.TitleIs | crates/kiem-core/src/content/mod.rs:27-58 | the title, told without the scan: the trimmed text of the first line that is not blank, a table row or a divider, without one to six hashes and a blank in front; empty without such a line |
| Derivation.WithBodyReplaces | crates/kiem-core/src/store/write.rs:225-237 | an edited note has the new body, the title, tags and status of that body, the new stamp, and every other field of the note read |
| Derivation.DerivedOnce | crates/kiem-core/src/store/mod.rs:224-262 | two notes of one body have the same title, tags and status, whether created or edited |
| Frontmatter.ParseFrontmatterStatus | crates/kiem-core/src/content/mod.rs:110-132 | the scan returns the status of the last `status:` line of a fence that opens at the first line and ends, and the text after it; or no status and the whole body; both told from the lines and unique |
| Frontmatter.DerivedFromWhole | crates/kiem-core/src/content/mod.rs:110-132 | with no hash and no code mark in the fence, tags derived from the rest are those of the whole body |
| Frontmatter.PlainPrefix | crates/kiem-core/src/content/mod.rs:213-290 | plain lines in front of a text neither add nor hide tags |
| Frontmatter.EnsuredIsDerivedIff | crates/kiem-core/src/project.rs:48-54 | a valid tag is derived from the stamped body iff the body did not show it in its fence alone |
| Project.SlugifyLoop | crates/kiem-core/src/project.rs:26-43 | the loop gives the lowered name with separators as bars, everything else dropped, runs of bars collapsed and the ends trimmed, which is a slug by shape |
| Project.SlugifyCollapses | crates/kiem-core/src/project.rs:22-43 | the one-pass recursion is that chain of separate passes |
| Project.SlugifyFixes | crates/kiem-core/src/project.rs:26-43 | a name is left alone iff it is a slug: tag scalars only, no doubled, leading or trailing `_` |
| Project.SlugifyIdempotent | crates/kiem-core/src/project.rs:26-43 | slugs of slugs are themselves |
| Project.ToTagIdempotent | crates/kiem-core/src/project.rs:12-20 | project tags are fixed points |
| Project.ProjectTagRoundTrip | crates/kiem-core/src/project.rs:8-54 | a stamped project tag extracts to itself from any body |
| Project.FolderParts | crates/kiem-core/src/transfer.rs:98-105 | the folders of a slug are non-empty and without slashes, there are none iff it is slashes alone, and joined they are the slug unless it has an empty component |
| Project.FolderRoundTrip | crates/kiem-core/src/transfer.rs:98-105 | the export folder of a slug maps back to its tag iff the slug is canonical, has no empty component and no tag prefix of its own |
| Project.TagForIsClean | crates/kiem-core/src/transfer.rs:255-276 | importing a folder gives a valid tag without empty components, or fails exactly when there is none |
| Transfer.TypeReadBack | crates/kiem-core/src/transfer.rs:316-357 | export then import yields the type the fence declared, else the trimmed first line of the note's type |
| Transfer.TypeRoundTrip | crates/kiem-core/src/transfer.rs:313-357 | the exact inverse: with no declared type, a one-line type comes back iff it is trimmed |
| Transfer.IndentedTypeIsLost | crates/kiem-core/src/transfer.rs:322-337 | the claimed inverse fails for an indented `type:` line, for every type |
| Transfer.ExportKeepsNote | crates/kiem-core/src/transfer.rs:316-337 | export loses nothing: the lines of the exported text are those of the body with the announced lines added in one place, and taking them out gives the body back; a whole fence in front where there was none, one `type:` line under the opening dashes of a fence, nothing if it declares a type |
| Transfer.TypeInIs | crates/kiem-core/src/transfer.rs:340-357 | the type read is the trimmed rest of the first unindented `type:` line behind the opening dashes and before the next, and none without one |
| Import.ImportFiles | crates/kiem-core/src/transfer.rs:182-246 | tags resolved for all files first, then one pass in one bulk with per-tag duplicate sets; it fails, and keeps nothing, iff a folder gives no tag or a file cannot be read |
| ImportLedger.ImportIsLedger | crates/kiem-core/src/transfer.rs:182-246 | exactly which files become notes, told without running it: those not blank whose stamped body no live note of their tag had when the tag was first met and no earlier file of the tag has; each a live note of that body, with the tags and type it shows, in order, behind the notes there were |
| Import.ImportAgain | crates/kiem-core/src/transfer.rs:147-151 | importing the same files again creates nothing iff every non-blank file's body was already under its tag or derives it, duplicates and all project sources included |
| Import.ImportAgainIsNothing | crates/kiem-core/src/transfer.rs:147-151 | in particular when no file shows its tag inside its fence alone |
| Import.PlainFenceShows | crates/kiem-core/src/transfer.rs:147-151 | which is so for every file whose fence holds no hash, backtick or tilde |
| Import.FencedTagIsImportedAgain | crates/kiem-core/src/transfer.rs:211-231 | the promise fails for a tag that only a fence shows: such a file is imported twice |
| Frames.WriteFrame | crates/kiem-sync/src/session.rs:391-406 | writes the encoding, or nothing and an error iff a length is over its limit |
| Frames.ReadFrame | crates/kiem-sync/src/session.rs:408-418 | reads one frame from the front of the stream or fails as the format demands |
| Frames.EncodeDecoded | crates/kiem-sync/src/session.rs:408-440 | what decodes was encoded so: one encoding per frame, and accepted lengths are within their limits |
| Frames.HighestByteFirst | crates/kiem-sync/src/session.rs:391-406 | length fields put the highest byte first: byte strings order as the lengths do |
| Frames.ReadAll | crates/kiem-sync/src/session.rs:408-418 | reading until an error gives the frames and the error of the whole stream |
| Frames.StreamRoundTrip | crates/kiem-sync/src/session.rs:388-418 | any concatenation of written frames reads back as exactly those frames in order |
| Frames.CutStream | crates/kiem-sync/src/session.rs:388-418 | every prefix of it reads as its longest list of complete frames, then ends |
| Frames.CompleteIsLongest | crates/kiem-sync/src/session.rs:388-418 | that list is the longest that fits |
| Lifecycle.RunKeepsInv | apple/Kiem iOS/Models/KiemModel+Sync.swift:128-201 | what every interleaving of starts, stops, queue blocks and late failures keeps |
| Lifecycle.DrainedAgrees | apple/Kiem iOS/Models/KiemModel+Sync.swift:655-691 | with queue and failure handlers drained, the mesh runs iff `isSyncRunning` |
| Lifecycle.StartRuns | apple/Kiem iOS/Models/KiemModel+Sync.swift:128-184 | a start that nothing stops and no failure handler reverts keeps running, and once drained the mesh runs |
| Lifecycle.StopStops | apple/Kiem iOS/Models/KiemModel+Sync.swift:185-201 | a stop that no start follows stays stopped, whatever else is on its way, and once drained no mesh runs |
| Lifecycle.StoppedMeshIsDoomed | apple/Kiem iOS/Models/KiemModel+Sync.swift:185-201 | at any moment a mesh outliving its stop request has a stop waiting behind it |
| Lifecycle.WorkShrinks | apple/Kiem iOS/Models/KiemModel+Sync.swift:158-201 | every queue or handler step brings the end nearer, and one is possible until then |
| Lifecycle.Drains | apple/Kiem iOS/Models/KiemModel+Sync.swift:158-201 | from every state some run without starts, stops and failures drains queue and handlers |
| Lifecycle.KiemModel.StartSync | apple/Kiem iOS/Models/KiemModel+Sync.swift:128-184 | starting is one step of that machine |
| Lifecycle.KiemModel.StopSync | apple/Kiem iOS/Models/KiemModel+Sync.swift:192-201 | so is stopping |
| Lifecycle.KiemModel.RunBlock | apple/Kiem iOS/Models/KiemModel+Sync.swift:171-173 | so is the start of a queue block, with its check of the generation |
| Lifecycle.KiemModel.FinishArming | crates/kiem-ffi/src/sync.rs:33-54 | so is starting the mesh, a no-op while one runs |
| Lifecycle.KiemModel.RunRevert | apple/Kiem iOS/Models/KiemModel+Sync.swift:175-183 | so is the failure handler |

## Left out

- The insides of Automerge, autosurgeon, SQLite, tantivy and iroh: libraries; they appear as change sets, atomic statements, a map with a buffered batch and byte streams.
- Byte counts and Bloom filters of sync messages: they belong to the library.
- Failing SQL statements and documents that fail to load: stored bytes come from saved documents; `bulk` has its failing COMMIT.
- The order of rows in listings, and timestamps compared as time: the code compares their text.
- NoteStore.NoteStore.PutDoc: asks that a received document holds changes of one note only; a peer merging two notes into one document is not modelled.
- NoteStore.NoteStore.CreateNote: the variant that also takes a note type is left out; it differs in that one field.
- SyncEngine.SyncEngine.ReceiveMessage: asks that a message holds changes of the note it is about, or purges alone; and, as in the program, that the engine is not called from inside a `bulk`, where adopting a purge set would fail.
- NoteStore.NoteStore.EditBody: `add_tag`, `remove_tag`, `edit_lines` and the todo operations share one method; without a version they re-read the row before writing, so text others wrote in between is replaced, as in the source.
- SlidCode.TagsOutsideCode: for bodies whose line endings are plain, that is without a carriage return that stands alone; `UncoveredTags.TagsAfterRemoval` covers the others, where such a carriage return ends a line for extraction and not for removal.
- OtherTags.OtherTagsStay: for the same bodies.
- NoteStore.NoteStore.Mutate: the closures it is called with are a datatype of the three changes the program makes.
- Import.ImportFiles: what a file holds, or that it cannot be read, is a parameter; walking directories and progress calls are left out; the store is a list of notes, and authors, ids and timestamps are left out.
- Lifecycle.DrainedAgrees: the 64-bit generation counter does not wrap.
- Frames.ReadFrame: document ids are byte strings with a validity predicate for UTF-8 as a parameter.
- `list_tags`, `unchecked_todo_items` and the other read loops of queries.rs: they would only add easy members.
- Search ranking, snippets and query parsing: library behaviour.
- QUIC connections, dialing, relay tickets, the control socket, pairing and the known-peers file: transport plumbing and short invariants next to the above.
- Views, the command line, JSON printing, FFI mirrors, backups and file permissions: user interface and thin I/O wrappers.
