/**
 The full-text index (search.rs), a map from note ids to what is searchable of them. The writer
 lock is exclusive: while a deferred batch holds it, no other writer can be opened.
 */
module SearchIndex {
  import opened Text
  import opened Documents

  datatype Entry = Entry(title: string, body: string, tags: seq<string>)
  type Entries = map<NoteId, Entry>
  /** One uncommitted write: delete the id and, for `Put`, add it again. */
  datatype IndexOp = Put(id: NoteId, entry: Entry) | Drop(id: NoteId)

  const DEFERRED_FLUSH_BATCH := 25

  function EntryOf(f: Fields): Entry {
    Entry(f.title, f.body, f.tags)
  }

  function ApplyOp(m: Entries, op: IndexOp): Entries {
    match op case Put(id, entry) => m[id := entry] case Drop(id) => m - {id}
  }

  function Apply(m: Entries, ops: seq<IndexOp>): Entries {
    if ops == [] then m else ApplyOp(Apply(m, ops[..|ops| - 1]), ops[|ops| - 1])
  }

  lemma ApplyMore(m: Entries, ops: seq<IndexOp>, op: IndexOp)
    ensures Apply(m, ops + [op]) == ApplyOp(Apply(m, ops), op)
  {
    assert (ops + [op])[..|ops|] == ops;
  }

  class Index {
    var committed: Entries
    var pendingWriter: Option<seq<IndexOp>>
    var pendingCount: nat
    /** Another process holds the writer lock and does not let go of it in time. */
    var lockedElsewhere: bool

    ghost predicate Valid()
      reads this
    {
      && pendingCount < DEFERRED_FLUSH_BATCH
      && match pendingWriter case Some(ops) => pendingCount == |ops| case None => pendingCount == 0
    }

    /** What a search finds once everything deferred so far is committed. */
    ghost function Contents(): Entries
      reads this
    {
      match pendingWriter case Some(ops) => Apply(committed, ops) case None => committed
    }

    /** Whether a writer can be opened now. */
    predicate CanWrite()
      reads this
    {
      !lockedElsewhere && pendingWriter.None?
    }

    predicate CanDefer()
      reads this
    {
      !lockedElsewhere || pendingWriter.Some?
    }

    constructor ()
      ensures Valid() && Contents() == map[] && CanWrite()
    {
      committed, pendingWriter, pendingCount, lockedElsewhere := map[], None, 0, false;
    }

    method WriteNow(op: IndexOp) returns (ok: bool)
      requires Valid()
      modifies this`committed
      ensures Valid() && ok == CanWrite()
      ensures committed == if ok then ApplyOp(old(committed), op) else old(committed)
      ensures ok ==> Contents() == ApplyOp(old(Contents()), op)
    {
      ok := CanWrite();
      if ok { committed := ApplyOp(committed, op); }
    }

    method IndexNote(f: Fields) returns (ok: bool)
      requires Valid()
      modifies this`committed
      ensures Valid() && ok == CanWrite()
      ensures Contents() == if ok then old(Contents())[f.id := EntryOf(f)] else old(Contents())
    {
      ok := WriteNow(Put(f.id, EntryOf(f)));
    }

    method RemoveNote(id: NoteId) returns (ok: bool)
      requires Valid()
      modifies this`committed
      ensures Valid() && ok == CanWrite()
      ensures Contents() == if ok then old(Contents()) - {id} else old(Contents())
    {
      ok := WriteNow(Drop(id));
    }

    /** Everything deferred becomes visible, and the writer lock is released. */
    method Flush()
      requires pendingWriter.None? ==> pendingCount == 0
      modifies this`committed, this`pendingWriter, this`pendingCount
      ensures Valid() && pendingWriter.None?
      ensures committed == old(Contents()) && Contents() == old(Contents())
    {
      pendingCount := 0;
      if pendingWriter.Some? {
        committed := Apply(committed, pendingWriter.value);
        pendingWriter := None;
      }
    }

    /** Every 25th deferred write commits the batch, so fewer than 25 are ever left waiting. */
    method Defer(op: IndexOp) returns (ok: bool)
      requires Valid()
      modifies this`committed, this`pendingWriter, this`pendingCount
      ensures Valid() && ok == old(CanDefer()) && pendingCount < 25
      ensures !ok ==> pendingWriter == old(pendingWriter) && committed == old(committed)
      ensures Contents() == if ok then ApplyOp(old(Contents()), op) else old(Contents())
      ensures ok && old(pendingCount) == 24 ==> pendingWriter.None? && committed == Contents()
      ensures ok && old(pendingCount) < 24 ==>
        committed == old(committed) && pendingCount == old(pendingCount) + 1 && pendingWriter.Some?
    {
      ok := CanDefer();
      if ok {
        if pendingWriter.None? { pendingWriter := Some([]); }
        ApplyMore(committed, pendingWriter.value, op);
        pendingWriter := Some(pendingWriter.value + [op]);
        pendingCount := pendingCount + 1;
        if pendingCount >= DEFERRED_FLUSH_BATCH { Flush(); }
      }
    }

    method IndexNoteDeferred(f: Fields) returns (ok: bool)
      requires Valid()
      modifies this`committed, this`pendingWriter, this`pendingCount
      ensures Valid() && ok == old(CanDefer())
      ensures Contents() == if ok then old(Contents())[f.id := EntryOf(f)] else old(Contents())
      ensures !ok ==> pendingWriter == old(pendingWriter)
    {
      ok := Defer(Put(f.id, EntryOf(f)));
    }

    method RemoveNoteDeferred(id: NoteId) returns (ok: bool)
      requires Valid()
      modifies this`committed, this`pendingWriter, this`pendingCount
      ensures Valid() && ok == old(CanDefer())
      ensures Contents() == if ok then old(Contents()) - {id} else old(Contents())
      ensures !ok ==> pendingWriter == old(pendingWriter)
    {
      ok := Defer(Drop(id));
    }

    /** Replace the whole contents by the given notes. */
    method Rebuild(notes: Entries) returns (ok: bool)
      requires Valid()
      modifies this`committed
      ensures Valid() && ok == CanWrite()
      ensures Contents() == if ok then notes else old(Contents())
    {
      ok := CanWrite();
      if ok { committed := notes; }
    }
  }

  // ---- the index and the rows ----

  /** Title, body and tags of the notes that are not in the trash. */
  function LiveEntries(lib: Crdt, db: Db): Entries {
    map id | id in db.notes && !db.notes[id].columns.deleted ::
      var n := lib.view(db.notes[id].doc);
      Entry(n.title, n.body, n.tags)
  }

  function Reindexed(m: Entries, id: NoteId, f: Fields): Entries {
    if f.deleted then m - {id} else m[id := EntryOf(f)]
  }

  /** Reindexing the one note that was written keeps the index in step with the rows. */
  lemma RowReindexed(lib: Crdt, db: Db, id: NoteId, row: Row)
    requires row.columns == ColumnsOf(lib.view(row.doc))
    ensures LiveEntries(lib, db.(notes := db.notes[id := row]))
         == Reindexed(LiveEntries(lib, db), id, lib.view(row.doc))
  {
  }

  lemma PurgedReindexed(lib: Crdt, db: Db, ids: set<NoteId>, tombstones: Doc)
    ensures LiveEntries(lib, PurgeRows(db, ids, tombstones)) == LiveEntries(lib, db) - ids
  {
  }

  /**
   Two connections write a row one after the other, and index what each wrote in the other order: the
   index stays in step exactly when both wrote the same title, body and tags.
   */
  lemma LateReindexIsStale(lib: Crdt, db: Db, id: NoteId, first: Row, second: Row)
    requires first.columns == ColumnsOf(lib.view(first.doc)) && second.columns == ColumnsOf(lib.view(second.doc))
    requires !first.columns.deleted && !second.columns.deleted
    ensures var f, g := lib.view(first.doc), lib.view(second.doc);
      var between := db.(notes := db.notes[id := first]);
      var after := between.(notes := between.notes[id := second]);
      var indexed := Reindexed(Reindexed(LiveEntries(lib, db), id, g), id, f);
      indexed == LiveEntries(lib, after) <==> EntryOf(f) == EntryOf(g)
  {
    var f, g := lib.view(first.doc), lib.view(second.doc);
    var between := db.(notes := db.notes[id := first]);
    RowReindexed(lib, db, id, first);
    RowReindexed(lib, between, id, second);
    LastWins(LiveEntries(lib, db), id, EntryOf(f), EntryOf(g));
    hide LiveEntries, EntryOf;
  }

  lemma LastWins(m: Entries, id: NoteId, a: Entry, b: Entry)
    ensures var late: Entries, right: Entries := m[id := b], m[id := a];
      late[id := a] == right[id := b] <==> a == b
  {
    var late: Entries := m[id := b];
    var right: Entries := m[id := a];
    var x: Entries, y: Entries := late[id := a], right[id := b];
    assert x == right && y == late;
    assert x[id] == a && y[id] == b;
  }
}
