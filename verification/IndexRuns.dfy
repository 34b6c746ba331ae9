/**
 The index over whole runs (search.rs, store/): any sequence of one connection's operations, while
 no other connection takes a turn and no foreign process holds the writer. What a run may do is read
 off the sequence alone: no immediate write and no rebuild while a deferred batch is open.
 */
module IndexRuns {
  import opened Text
  import opened Documents
  import opened Connections
  import opened SearchIndex
  import opened NoteStore

  datatype Job =
    | Create(body: string, author: string)
    | Alter(id: NoteId, change: NoteChange)                         // pin, trash, restore, retype
    | Rewrite(id: NoteId, body: string)                             // `update_note`
    | RewriteVersion(id: NoteId, body: string, version: Doc)
    | EditText(id: NoteId, edit: BodyEdit)                          // tags, lines, todo items
    | EditVersion(id: NoteId, first: nat, last: nat, text: string, version: Doc)
    | Receive(doc: Doc, defer: bool)                                // `put_doc`
    | AdoptPurges(doc: Doc)
    | EmptyTrash(hash: nat)
    | DeleteTag(tag: string, hash: nat)
    | Flush
    | Begin                                                         // the two ends of `bulk`
    | End(workOk: bool, commitOk: bool)

  /** Where a run may be: whether a batch can be open, and whether it is inside a bulk. */
  datatype Mode = Mode(open: bool, bulk: bool)

  /** Inside a bulk the index is set aside, so nothing opens or closes a batch. */
  function After(m: Mode, job: Job): Mode {
    match job
    case Receive(_, true) => m.(open := m.open || !m.bulk)
    case Flush => m.(open := m.open && m.bulk)
    case AdoptPurges(_) => m.(open := m.open && m.bulk)
    case Begin => m.(bulk := true)
    case End(_, _) => m.(bulk := false)
    case _ => m
  }

  /** Only the syncing connection receives, and what it receives is a document of one note. */
  ghost predicate Receivable(lib: Crdt, conn: Conn, job: Job) {
    && (job.Receive? || job.AdoptPurges? ==> conn == SYNC)
    && (job.Receive? && Hydrates(job.doc) ==> OfNote(job.doc, lib.view(job.doc).id))
  }

  /** No immediate write and no rebuild while a batch may be open; a bulk ends where one has begun. */
  predicate InOrder(m: Mode, job: Job) {
    match job
    case Receive(_, true) => true
    case AdoptPurges(_) => true
    case EmptyTrash(_) => true
    case DeleteTag(_, _) => true
    case Flush => true
    case Begin => true
    case End(workOk, commitOk) => m.bulk && (m.open ==> !(workOk && commitOk))
    case _ => m.open ==> m.bulk
  }

  ghost predicate Orderly(lib: Crdt, conn: Conn, m: Mode, jobs: seq<Job>)
    decreases |jobs|
  {
    jobs != [] ==>
      Receivable(lib, conn, jobs[0]) && InOrder(m, jobs[0]) && Orderly(lib, conn, After(m, jobs[0]), jobs[1..])
  }

  /** Edits, purges and flushes need no care: without deferred receipts no batch is ever open. */
  lemma {:induction false} EditsAreOrderly(lib: Crdt, conn: Conn, jobs: seq<Job>)
    requires forall k | 0 <= k < |jobs| :: !jobs[k].Begin? && !jobs[k].End? && !(jobs[k].Receive? && jobs[k].defer)
    requires forall k | 0 <= k < |jobs| :: Receivable(lib, conn, jobs[k])
    ensures Orderly(lib, conn, Mode(false, false), jobs)
  {
    hide Receivable;
    if jobs != [] { EditsAreOrderly(lib, conn, jobs[1..]); }
  }

  /** What the sync ticker does is in order: any deferred receipts, then a flush, then what was in order before. */
  lemma {:induction false} TickIsOrderly(lib: Crdt, conn: Conn, open: bool, docs: seq<Doc>, rest: seq<Job>)
    requires conn == SYNC && forall k | 0 <= k < |docs| :: Receivable(lib, conn, Receive(docs[k], true))
    requires Orderly(lib, conn, Mode(false, false), rest)
    ensures Orderly(lib, conn, Mode(open, false), Receipts(docs) + [Flush] + rest)
    decreases |docs|
  {
    hide Receivable;
    if docs == [] {
      assert (Receipts(docs) + [Flush] + rest)[1..] == rest;
      assert Receivable(lib, conn, Flush) by { FlushIsNoReceipt(lib, conn); }
    } else {
      TickIsOrderly(lib, conn, true, docs[1..], rest);
      assert (Receipts(docs) + [Flush] + rest)[1..] == Receipts(docs[1..]) + [Flush] + rest;
    }
  }

  function Receipts(docs: seq<Doc>): seq<Job> {
    seq(|docs|, k requires 0 <= k < |docs| => Receive(docs[k], true))
  }

  lemma FlushIsNoReceipt(lib: Crdt, conn: Conn)
    ensures Receivable(lib, conn, Flush)
  {
  }

  function AfterAll(m: Mode, jobs: seq<Job>): Mode
    decreases |jobs|
  {
    if jobs == [] then m else AfterAll(After(m, jobs[0]), jobs[1..])
  }

  /** No foreign process holds the writer, and a batch is open only if it may be. */
  ghost predicate Free(index: Index?, open: bool)
    reads index
  {
    index != null ==> !index.lockedElsewhere && (!open ==> index.pendingWriter.None?)
  }

  /** The index in use is in step with the rows; the one a bulk set aside, with the rows as they were. */
  ghost predicate Tracks(store: NoteStore, m: Mode)
    reads store, store.search, store.parked
  {
    && store.Valid() && store.schedule == [] && store.savepoint.Some? == m.bulk
    && if m.bulk then store.ParkedInStep() && Free(store.parked, m.open)
       else store.InStep() && Free(store.search, m.open)
  }

  predicate Writes(job: Job) {
    || job.Create? || job.Alter? || job.Rewrite? || job.RewriteVersion? || job.EditText? || job.EditVersion?
    || job.Receive?
  }

  predicate Purges(job: Job) {
    job.AdoptPurges? || job.EmptyTrash? || job.DeleteTag?
  }

  method DoWrite(store: NoteStore, job: Job) returns (ghost others: seq<Action>)
    requires store.Valid() && Writes(job) && Receivable(store.lib, store.conn, job)
    modifies store`sys, store`schedule, store.search
    ensures store.Valid() && store.Indexes(others, job.Receive? && job.defer)
    ensures store.conn == SYNC && !job.Receive? ==> Evolves(old(store.sys), store.sys)
  {
    hide Lawful, Inv, InTurn, Run, Evolves, LiveEntries, EditGoes, Waited, Commits, Refused;
    var now := DrawStamp(store.sys.stamps);
    match job
    case Create(body, author) =>
      var r;
      r, others := store.CreateNote(body, author, now);
    case Alter(id, change) =>
      var r;
      ghost var base;
      r, others, base := store.Mutate(id, change, now);
    case Rewrite(id, body) =>
      var r;
      ghost var base;
      r, others, base := store.UpdateNote(id, body, now);
    case RewriteVersion(id, body, version) =>
      var r;
      r, others := store.UpdateNoteIfVersion(id, body, version, now);
    case EditText(id, edit) =>
      var r;
      ghost var read, base;
      r, read, others, base := store.EditBody(id, edit, None, now);
    case EditVersion(id, first, last, text, version) =>
      var r;
      ghost var read, base;
      r, read, others, base := store.EditLines(id, Some(version), first, last, text, now);
    case Receive(doc, defer) =>
      var r;
      ghost var passes;
      r, others, passes := store.PutDoc(doc, defer);
  }

  method DoPurge(store: NoteStore, job: Job) returns (ghost others: seq<Action>)
    requires store.Valid() && Purges(job) && Receivable(store.lib, store.conn, job)
    modifies store`sys, store`schedule, store.search
    ensures store.Valid() && store.Unindexes(others)
    ensures job.AdoptPurges? && store.savepoint.None? ==> store.Writer().0.None?
    ensures store.conn == SYNC && !job.AdoptPurges? ==> Evolves(old(store.sys), store.sys)
  {
    hide Lawful, Inv, InTurn, Run, Evolves, LiveEntries, PurgedAll, Waited;
    var erased;
    ghost var selected, base;
    match job
    case AdoptPurges(doc) => erased, others := store.AdoptTombstoneDoc(doc);
    case EmptyTrash(hash) => erased, selected, others, base := store.PurgeDeleted(hash);
    case DeleteTag(tag, hash) => erased, selected, others, base := store.PurgeTag(tag, hash);
  }

  /** One operation, whichever it is, keeps track of the rows. */
  method Do(store: NoteStore, job: Job, ghost m: Mode)
    requires Tracks(store, m) && Receivable(store.lib, store.conn, job) && InOrder(m, job)
    modifies store, store.search, store.parked
    ensures Tracks(store, After(m, job)) && {store.search, store.parked} <= {old(store.search), old(store.parked), null}
  {
    hide Lawful, Inv, InTurn, LiveEntries;
    if Writes(job) {
      ghost var others := DoWrite(store, job);
    } else if Purges(job) {
      ghost var others := DoPurge(store, job);
    } else {
      match job
      case Flush => store.FlushSearchIndex();
      case Begin => var ok := store.BeginBulk();
      case End(workOk, commitOk) =>
        ghost var others;
        var ok;
        ok, others := store.EndBulk(workOk, commitOk);
    }
  }

  /**
   Over any orderly run of one connection's creations, edits, receipts, purges, adoptions, flushes and
   bulks, committed or rolled back, a search finds exactly the notes that are not in the trash, as they
   are, once the waiting writes are committed; fewer than 25 ever wait, and none while no batch is open.
   */
  method RunJobs(store: NoteStore, jobs: seq<Job>, ghost m: Mode)
    requires Tracks(store, m) && Orderly(store.lib, store.conn, m, jobs)
    modifies store, store.search, store.parked
    ensures Tracks(store, AfterAll(m, jobs))
    ensures store.search != null ==>
      && store.search.Contents() == LiveEntries(store.lib, store.sys.db)
      && store.search.pendingCount < DEFERRED_FLUSH_BATCH
      && (!AfterAll(m, jobs).open ==> store.search.committed == LiveEntries(store.lib, store.sys.db))
  {
    ghost var mode := m;
    hide LiveEntries, InOrder, Receivable, Tracks;
    for k := 0 to |jobs|
      invariant {store.search, store.parked} <= {old(store.search), old(store.parked), null}
      invariant Tracks(store, mode) && Orderly(store.lib, store.conn, mode, jobs[k..])
      invariant AfterAll(mode, jobs[k..]) == AfterAll(m, jobs)
    {
      assert jobs[k..][0] == jobs[k] && jobs[k..][1..] == jobs[k + 1..];
      Do(store, jobs[k], mode);
      mode := After(mode, jobs[k]);
    }
    Tracked(store, mode);
  }

  lemma Tracked(store: NoteStore, m: Mode)
    requires Tracks(store, m)
    ensures store.search != null ==>
      && store.search.Contents() == LiveEntries(store.lib, store.sys.db)
      && store.search.pendingCount < DEFERRED_FLUSH_BATCH
      && (!m.open ==> store.search.committed == LiveEntries(store.lib, store.sys.db))
  {
  }
}
