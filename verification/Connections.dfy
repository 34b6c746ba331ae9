/**
 One database file, many connections (store/write.rs, store/purge.rs). Each connection runs small
 programs whose SQL statements are separate steps, interleaved in any order. Connection 0 belongs
 to the one process that may sync (kiem-sync's mesh lock); every other connection edits and purges.
 */
module Connections {
  import opened Text
  import opened Documents

  type Conn = nat

  const SYNC: Conn := 0

  /** Where a connection is between two statements. */
  datatype Program =
    | Idle
    | Editing(id: NoteId, base: Doc)                          // row read, compare-and-swap to come
    | Picked(ids: set<NoteId>)                                // ids selected, tombstones to be read
    | Purging(ids: set<NoteId>, base: Doc)                    // tombstones read, transaction to come
    | Putting(id: NoteId, doc: Doc)                           // top of the `put_doc` loop
    | Checking(id: NoteId, doc: Doc, stored: Option<Doc>)     // row read and merged
    | Writing(id: NoteId, doc: Doc, stored: Option<Doc>)      // not purged, write to come
    | Adopting(doc: Doc)                                      // peer's purges merged, transaction to come

  datatype Op =
    | Load(id: NoteId) | Save(change: Change) | Create(id: NoteId, change: Change)
    | PickTrash | PickTagged(tag: string) | ReadTombstones | Purge(change: Change)
    | StartPut(id: NoteId, doc: Doc) | ReadRow | CheckPurged | Write
    | ReadForAdopt(changes: Doc) | Adopt

  datatype Action = Action(conn: Conn, op: Op)

  /** `seen`: ids in use anywhere, so never those of a new note. `stamps`: timestamps ever written. */
  datatype System = System(db: Db, programs: map<Conn, Program>, seen: set<NoteId>, stamps: set<Stamp>)

  /** A new database: no rows, nothing purged, nobody at work. */
  const EMPTY := System(Db(map[], {}, None), map[], {}, {})

  predicate IsSync(op: Op) {
    op.StartPut? || op.ReadRow? || op.CheckPurged? || op.Write? || op.ReadForAdopt? || op.Adopt?
  }

  function ProgramOf(s: System, conn: Conn): Program {
    if conn in s.programs then s.programs[conn] else Idle
  }

  function Next(s: System, conn: Conn, p: Program): System {
    s.(programs := s.programs[conn := p])
  }

  // ---- the statements of each program; one that is not enabled does nothing ----

  function StepLoad(s: System, conn: Conn, id: NoteId): System {
    if ProgramOf(s, conn).Idle? && id in s.db.notes then Next(s, conn, Editing(id, s.db.notes[id].doc)) else s
  }

  predicate MaySave(lib: Crdt, s: System, p: Program, change: Change) {
    p.Editing? && change.Edit? && change.note == p.id && lib.view(p.base + {change}).modifiedAt !in s.stamps
  }

  function StepSave(lib: Crdt, s: System, conn: Conn, change: Change): System {
    var p := ProgramOf(s, conn);
    if !MaySave(lib, s, p, change) then s
    else
      var doc := p.base + {change};
      Next(s, conn, Idle).(db := UpdateWhere(lib, s.db, p.id, p.base, doc),
                           stamps := s.stamps + {lib.view(doc).modifiedAt})
  }

  predicate MayCreate(lib: Crdt, s: System, id: NoteId, change: Change) {
    id !in s.seen && change.Edit? && change.note == id && change.creates
    && lib.view({change}).modifiedAt !in s.stamps
  }

  function StepCreate(lib: Crdt, s: System, conn: Conn, id: NoteId, change: Change): System {
    if !ProgramOf(s, conn).Idle? || !MayCreate(lib, s, id, change) then s
    else Next(s, conn, Idle).(db := InsertOrIgnore(lib, s.db, id, {change}), seen := s.seen + {id},
                              stamps := s.stamps + {lib.view({change}).modifiedAt})
  }

  function Trashed(db: Db): set<NoteId> {
    set id | id in db.notes && db.notes[id].columns.deleted
  }

  function WithTag(db: Db, tag: string): set<NoteId> {
    set id | id in db.notes && tag in db.notes[id].columns.tags
  }

  function StepPick(s: System, conn: Conn, ids: set<NoteId>): System {
    if ProgramOf(s, conn).Idle? && ids != {} then Next(s, conn, Picked(ids)) else s
  }

  function TombstoneDoc(db: Db): Doc {
    match db.tombstones case Some(d) => d case None => {}
  }

  function StepReadTombstones(s: System, conn: Conn): System {
    var p := ProgramOf(s, conn);
    if p.Picked? then Next(s, conn, Purging(p.ids, TombstoneDoc(s.db))) else s
  }

  function StepPurge(s: System, conn: Conn, change: Change): System {
    var p := ProgramOf(s, conn);
    if p.Purging? && change.Erase? && change.ids == p.ids then
      Next(s, conn, Idle).(db := PurgeRows(s.db, p.ids, p.base + {change}))
    else s
  }

  function StepStartPut(s: System, conn: Conn, id: NoteId, doc: Doc): System {
    if ProgramOf(s, conn).Idle? && OfNote(doc, id) && Hydrates(doc) then
      Next(s, conn, Putting(id, doc)).(seen := s.seen + {id})
    else s
  }

  function Merged(stored: Option<Doc>, doc: Doc): Doc {
    match stored case Some(row) => row + doc case None => doc
  }

  function StepReadRow(s: System, conn: Conn): System {
    var p := ProgramOf(s, conn);
    if !p.Putting? then s
    else
      var stored := SelectDoc(s.db, p.id);
      Next(s, conn, Checking(p.id, Merged(stored, p.doc), stored))
  }

  function StepCheckPurged(s: System, conn: Conn): System {
    var p := ProgramOf(s, conn);
    if !p.Checking? then s
    else Next(s, conn, if p.id in s.db.purged then Idle else Writing(p.id, p.doc, p.stored))
  }

  predicate Persists(db: Db, id: NoteId, stored: Option<Doc>) {
    match stored case Some(base) => Updates(db, id, base) case None => id !in db.notes
  }

  function Persisted(lib: Crdt, db: Db, id: NoteId, stored: Option<Doc>, doc: Doc): Db {
    match stored case Some(base) => UpdateWhere(lib, db, id, base, doc) case None => InsertOrIgnore(lib, db, id, doc)
  }

  function StepWrite(lib: Crdt, s: System, conn: Conn): System {
    var p := ProgramOf(s, conn);
    if !p.Writing? then s
    else if Persists(s.db, p.id, p.stored) then
      Next(s, conn, Idle).(db := Persisted(lib, s.db, p.id, p.stored, p.doc),
                           stamps := s.stamps + {lib.view(p.doc).modifiedAt})
    else Next(s, conn, Putting(p.id, p.doc))
  }

  predicate AllErase(d: Doc) {
    forall c | c in d :: c.Erase?
  }

  function StepReadForAdopt(s: System, conn: Conn, changes: Doc): System {
    if ProgramOf(s, conn).Idle? && AllErase(changes) then
      var doc := TombstoneDoc(s.db) + changes;
      Next(s, conn, Adopting(doc)).(seen := s.seen + Erased(doc))
    else s
  }

  function StepAdopt(s: System, conn: Conn): System {
    var p := ProgramOf(s, conn);
    if p.Adopting? then Next(s, conn, Idle).(db := PurgeRows(s.db, Erased(p.doc), p.doc)) else s
  }

  function Step(lib: Crdt, s: System, a: Action): System {
    match a.op
    case Load(id) => StepLoad(s, a.conn, id)
    case Save(change) => StepSave(lib, s, a.conn, change)
    case Create(id, change) => StepCreate(lib, s, a.conn, id, change)
    case PickTrash => StepPick(s, a.conn, Trashed(s.db))
    case PickTagged(tag) => StepPick(s, a.conn, WithTag(s.db, tag))
    case ReadTombstones => StepReadTombstones(s, a.conn)
    case Purge(change) => StepPurge(s, a.conn, change)
    case StartPut(id, doc) => StepStartPut(s, a.conn, id, doc)
    case ReadRow => StepReadRow(s, a.conn)
    case CheckPurged => StepCheckPurged(s, a.conn)
    case Write => StepWrite(lib, s, a.conn)
    case ReadForAdopt(changes) => StepReadForAdopt(s, a.conn, changes)
    case Adopt => StepAdopt(s, a.conn)
  }

  function Run(lib: Crdt, s: System, actions: seq<Action>): System
    decreases |actions|
  {
    if actions == [] then s else Run(lib, Step(lib, s, actions[0]), actions[1..])
  }

  // ---- what every step keeps ----

  /** Rows, purged ids and tombstones agree with each other. */
  ghost predicate DbOk(lib: Crdt, s: System) {
    && ColumnsMatch(lib, s.db)
    && s.db.notes.Keys !! s.db.purged
    && s.db.notes.Keys + s.db.purged <= s.seen
    && Tombstoned(s.db) <= s.db.purged
    && forall id | id in s.db.notes :: s.db.notes[id].columns.modifiedAt in s.stamps
  }

  /** A note that is neither stored nor purged. */
  predicate Absent(db: Db, id: NoteId) {
    id !in db.notes && id !in db.purged
  }

  ghost predicate ProgramOk(s: System, conn: Conn, p: Program) {
    match p
    case Idle => true
    case Editing(id, base) => OfNote(base, id) && Hydrates(base)
    case Picked(ids) => ids <= s.db.notes.Keys + s.db.purged
    case Purging(ids, base) => ids <= s.db.notes.Keys + s.db.purged && Erased(base) <= s.db.purged
    case Putting(id, doc) => conn == SYNC && DocOk(s, id, doc)
    case Checking(id, doc, stored) =>
      conn == SYNC && DocOk(s, id, doc) && (if stored.Some? then stored.value <= doc else id !in s.db.notes)
    case Writing(id, doc, stored) =>
      conn == SYNC && DocOk(s, id, doc) && (if stored.Some? then stored.value <= doc else Absent(s.db, id))
    case Adopting(doc) => conn == SYNC && Erased(doc) <= s.seen
  }

  ghost predicate DocOk(s: System, id: NoteId, doc: Doc) {
    id in s.seen && OfNote(doc, id) && Hydrates(doc)
  }

  ghost predicate ProgramsOk(s: System) {
    forall conn | conn in s.programs :: ProgramOk(s, conn, s.programs[conn])
  }

  ghost predicate Inv(lib: Crdt, s: System) {
    DbOk(lib, s) && ProgramsOk(s)
  }

  /** Only connection 0 syncs. */
  ghost predicate OneMesh(actions: seq<Action>) {
    forall k | 0 <= k < |actions| :: IsSync(actions[k].op) ==> actions[k].conn == SYNC
  }

  /** A row's history only grows, until its id is purged for good. */
  ghost predicate Grows(a: Db, b: Db) {
    && a.purged <= b.purged
    && forall id | id in a.notes :: id in b.purged || (id in b.notes && a.notes[id].doc <= b.notes[id].doc)
  }

  /** What any other connection's program may rely on when connection `conn` takes a step. */
  ghost predicate Safe(s: System, t: System, conn: Conn) {
    && Grows(s.db, t.db)
    && s.seen <= t.seen && s.stamps <= t.stamps
    && (conn != SYNC ==> forall id | id in s.seen && Absent(s.db, id) :: Absent(t.db, id))
    && (conn != SYNC ==> forall id | id in s.seen && id !in s.db.notes :: id !in t.db.notes)
    && forall other | other != conn && other in t.programs ::
         other in s.programs && t.programs[other] == s.programs[other]
  }

  lemma ProgramStays(s: System, t: System, conn: Conn, other: Conn)
    requires Safe(s, t, conn) && other != conn && other in t.programs
    requires ProgramOk(s, other, ProgramOf(s, other))
    ensures ProgramOk(t, other, ProgramOf(t, other))
  {
    hide OfNote, Hydrates;
    GrowsKeys(s.db, t.db);
  }

  lemma GrowsKeys(a: Db, b: Db)
    requires Grows(a, b)
    ensures a.notes.Keys + a.purged <= b.notes.Keys + b.purged
  {
  }

  lemma InvFrom(lib: Crdt, s: System, t: System, conn: Conn)
    requires Inv(lib, s) && Safe(s, t, conn) && DbOk(lib, t) && ProgramOk(t, conn, ProgramOf(t, conn))
    ensures Inv(lib, t)
  {
    hide DbOk, ProgramOk, Safe;
    forall other | other in t.programs ensures ProgramOk(t, other, t.programs[other]) {
      if other != conn {
        OthersStay(s, t, conn, other);
        ProgramStays(s, t, conn, other);
      }
    }
  }

  lemma OthersStay(s: System, t: System, conn: Conn, other: Conn)
    requires Safe(s, t, conn) && other != conn && other in t.programs
    ensures other in s.programs && s.programs[other] == t.programs[other]
  {
  }

  ghost predicate Good(lib: Crdt, s: System, t: System, conn: Conn) {
    Safe(s, t, conn) && DbOk(lib, t) && ProgramOk(t, conn, ProgramOf(t, conn))
  }

  lemma SameDbIsGood(lib: Crdt, s: System, t: System, conn: Conn, p: Program)
    requires Inv(lib, s) && t == Next(s, conn, p) && ProgramOk(t, conn, p)
    ensures Good(lib, s, t, conn)
  {
    hide RowMatches, ProgramsOk, ProgramOk;
  }

  lemma SameIsGood(lib: Crdt, s: System, conn: Conn)
    requires Inv(lib, s)
    ensures Good(lib, s, s, conn)
  {
    hide RowMatches, OfNote, Hydrates;
  }

  lemma LoadIsGood(lib: Crdt, s: System, conn: Conn, id: NoteId)
    requires Inv(lib, s)
    ensures Good(lib, s, StepLoad(s, conn, id), conn)
  {
    SameIsGood(lib, s, conn);
    if ProgramOf(s, conn).Idle? && id in s.db.notes {
      assert RowMatches(lib, id, s.db.notes[id]);
      hide OfNote, Hydrates;
      SameDbIsGood(lib, s, StepLoad(s, conn, id), conn, Editing(id, s.db.notes[id].doc));
    }
  }

  lemma PickIsGood(lib: Crdt, s: System, conn: Conn, ids: set<NoteId>)
    requires Inv(lib, s) && ids <= s.db.notes.Keys
    ensures Good(lib, s, StepPick(s, conn, ids), conn)
  {
    hide Inv, Good;
    SameIsGood(lib, s, conn);
    if ProgramOf(s, conn).Idle? && ids != {} { SameDbIsGood(lib, s, StepPick(s, conn, ids), conn, Picked(ids)); }
  }

  lemma ReadTombstonesIsGood(lib: Crdt, s: System, conn: Conn)
    requires Inv(lib, s)
    ensures Good(lib, s, StepReadTombstones(s, conn), conn)
  {
    SameIsGood(lib, s, conn);
    var p := ProgramOf(s, conn);
    if p.Picked? {
      assert ProgramOk(s, conn, p);
      hide Good, ColumnsMatch;
      SameDbIsGood(lib, s, StepReadTombstones(s, conn), conn, Purging(p.ids, TombstoneDoc(s.db)));
    }
  }

  lemma ReadRowIsGood(lib: Crdt, s: System, conn: Conn)
    requires Inv(lib, s)
    ensures Good(lib, s, StepReadRow(s, conn), conn)
  {
    SameIsGood(lib, s, conn);
    var p := ProgramOf(s, conn);
    if p.Putting? {
      assert ProgramOk(s, conn, p);
      var stored := SelectDoc(s.db, p.id);
      if stored.Some? {
        assert RowMatches(lib, p.id, s.db.notes[p.id]);
        MergedOfNote(stored.value, p.doc, p.id);
        HydratesMore(p.doc, stored.value + p.doc);
      }
      hide Good, ColumnsMatch, OfNote, Hydrates;
      SameDbIsGood(lib, s, StepReadRow(s, conn), conn, Checking(p.id, Merged(stored, p.doc), stored));
    }
  }

  lemma CheckPurgedIsGood(lib: Crdt, s: System, conn: Conn)
    requires Inv(lib, s)
    ensures Good(lib, s, StepCheckPurged(s, conn), conn)
  {
    SameIsGood(lib, s, conn);
    var p := ProgramOf(s, conn);
    if p.Checking? {
      assert ProgramOk(s, conn, p);
      hide Good, ColumnsMatch, OfNote, Hydrates;
      SameDbIsGood(lib, s, StepCheckPurged(s, conn), conn,
                   if p.id in s.db.purged then Idle else Writing(p.id, p.doc, p.stored));
    }
  }

  lemma StartPutIsGood(lib: Crdt, s: System, conn: Conn, id: NoteId, doc: Doc)
    requires Inv(lib, s) && conn == SYNC
    ensures Good(lib, s, StepStartPut(s, conn, id, doc), conn)
  {
    hide RowMatches, OfNote, Hydrates;
  }

  lemma ReadForAdoptIsGood(lib: Crdt, s: System, conn: Conn, changes: Doc)
    requires Inv(lib, s) && conn == SYNC
    ensures Good(lib, s, StepReadForAdopt(s, conn, changes), conn)
  {
    hide RowMatches, OfNote, Hydrates, AllErase, Erased;
  }

  /** One row of one note changes, to a document that holds the old one. */
  ghost predicate WritesRow(lib: Crdt, s: System, t: System, conn: Conn, id: NoteId) {
    && id in t.db.notes && RowMatches(lib, id, t.db.notes[id])
    && t.db == s.db.(notes := s.db.notes[id := t.db.notes[id]])
    && (if id in s.db.notes then s.db.notes[id].doc <= t.db.notes[id].doc else Absent(s.db, id))
    && id in t.seen && s.seen <= t.seen
    && t.stamps == s.stamps + {t.db.notes[id].columns.modifiedAt}
    && t.programs == s.programs[conn := Idle]
  }

  lemma WritesRowIsGood(lib: Crdt, s: System, t: System, conn: Conn, id: NoteId)
    requires Inv(lib, s) && WritesRow(lib, s, t, conn, id)
    requires conn != SYNC ==> id !in s.seen || id in s.db.notes
    ensures Good(lib, s, t, conn)
  {
    hide DbOk, WritesRow, Safe;
    WritesRowOk(lib, s, t, conn, id);
    WritesRowIsSafe(lib, s, t, conn, id);
    WriterIdles(lib, s, t, conn, id);
  }

  lemma WritesRowIsSafe(lib: Crdt, s: System, t: System, conn: Conn, id: NoteId)
    requires WritesRow(lib, s, t, conn, id)
    requires conn != SYNC ==> id !in s.seen || id in s.db.notes
    ensures Safe(s, t, conn)
  {
    hide RowMatches;
  }

  lemma WriterIdles(lib: Crdt, s: System, t: System, conn: Conn, id: NoteId)
    requires WritesRow(lib, s, t, conn, id)
    ensures ProgramOf(t, conn) == Idle
  {
    hide RowMatches;
  }

  lemma WritesRowOk(lib: Crdt, s: System, t: System, conn: Conn, id: NoteId)
    requires DbOk(lib, s) && WritesRow(lib, s, t, conn, id)
    ensures DbOk(lib, t)
  {
    hide RowMatches;
  }

  lemma SaveIsGood(lib: Crdt, s: System, conn: Conn, change: Change)
    requires Inv(lib, s)
    ensures Good(lib, s, StepSave(lib, s, conn, change), conn)
  {
    SameIsGood(lib, s, conn);
    var p := ProgramOf(s, conn);
    if MaySave(lib, s, p, change) {
      assert ProgramOk(s, conn, p);
      var t, doc := StepSave(lib, s, conn, change), p.base + {change};
      SavedDoc(p.base, p.id, change);
      if Updates(s.db, p.id, p.base) {
        hide Good, Inv, OfNote, Hydrates;
        assert WritesRow(lib, s, t, conn, p.id) by { hide ColumnsOf; KeysSeen(lib, s); }
        WritesRowIsGood(lib, s, t, conn, p.id);
      } else {
        MoreStamps(lib, s, t, conn);
      }
    }
  }

  lemma SavedDoc(base: Doc, id: NoteId, change: Change)
    requires OfNote(base, id) && Hydrates(base) && change.Edit? && change.note == id
    ensures OfNote(base + {change}, id) && Hydrates(base + {change})
  {
  }

  lemma KeysSeen(lib: Crdt, s: System)
    requires Inv(lib, s)
    ensures s.db.notes.Keys <= s.seen
  {
  }

  lemma MoreStamps(lib: Crdt, s: System, t: System, conn: Conn)
    requires Inv(lib, s) && t == Next(s, conn, Idle).(stamps := t.stamps) && s.stamps <= t.stamps
    ensures Good(lib, s, t, conn)
  {
    hide RowMatches, ProgramsOk;
  }

  lemma CreateIsGood(lib: Crdt, s: System, conn: Conn, id: NoteId, change: Change)
    requires Inv(lib, s)
    ensures Good(lib, s, StepCreate(lib, s, conn, id, change), conn)
  {
    SameIsGood(lib, s, conn);
    if ProgramOf(s, conn).Idle? && MayCreate(lib, s, id, change) {
      var t := StepCreate(lib, s, conn, id, change);
      KeysSeen(lib, s);
      assert Absent(s.db, id);
      hide Inv, Good;
      assert WritesRow(lib, s, t, conn, id) by { hide ColumnsOf; }
      WritesRowIsGood(lib, s, t, conn, id);
    }
  }

  lemma WriteIsGood(lib: Crdt, s: System, conn: Conn)
    requires Inv(lib, s)
    ensures Good(lib, s, StepWrite(lib, s, conn), conn)
  {
    SameIsGood(lib, s, conn);
    var p := ProgramOf(s, conn);
    if p.Writing? {
      assert ProgramOk(s, conn, p);
      var t := StepWrite(lib, s, conn);
      hide OfNote, Hydrates;
      if Persists(s.db, p.id, p.stored) {
        hide Inv, Good;
        assert WritesRow(lib, s, t, conn, p.id) by { hide ColumnsOf; }
        WritesRowIsGood(lib, s, t, conn, p.id);
      } else {
        SameDbIsGood(lib, s, t, conn, Putting(p.id, p.doc));
      }
    }
  }

  lemma PurgeRowsIsGood(lib: Crdt, s: System, t: System, conn: Conn, ids: set<NoteId>, doc: Doc)
    requires Inv(lib, s) && t == Next(s, conn, Idle).(db := PurgeRows(s.db, ids, doc))
    requires ids <= s.seen && Erased(doc) <= s.db.purged + ids
    requires conn != SYNC ==> ids <= s.db.notes.Keys + s.db.purged
    ensures Good(lib, s, t, conn)
  {
    hide RowMatches, ProgramsOk, Erased;
  }

  lemma PurgeIsGood(lib: Crdt, s: System, conn: Conn, change: Change)
    requires Inv(lib, s)
    ensures Good(lib, s, StepPurge(s, conn, change), conn)
  {
    SameIsGood(lib, s, conn);
    var p := ProgramOf(s, conn);
    if p.Purging? && change.Erase? && change.ids == p.ids {
      assert ProgramOk(s, conn, p);
      ErasedUnion(p.base, {change});
      assert Erased({change}) == p.ids;
      hide Good, RowMatches, Erased;
      PurgeRowsIsGood(lib, s, StepPurge(s, conn, change), conn, p.ids, p.base + {change});
    }
  }

  lemma AdoptIsGood(lib: Crdt, s: System, conn: Conn)
    requires Inv(lib, s)
    ensures Good(lib, s, StepAdopt(s, conn), conn)
  {
    SameIsGood(lib, s, conn);
    var p := ProgramOf(s, conn);
    if p.Adopting? {
      assert ProgramOk(s, conn, p);
      hide Good, Inv, Erased;
      PurgeRowsIsGood(lib, s, StepAdopt(s, conn), conn, Erased(p.doc), p.doc);
    }
  }

  lemma StepIsGood(lib: Crdt, s: System, a: Action)
    requires Inv(lib, s) && (IsSync(a.op) ==> a.conn == SYNC)
    ensures Good(lib, s, Step(lib, s, a), a.conn)
  {
    hide Inv, Good, StepLoad, StepSave, StepCreate, StepPick, StepReadTombstones, StepPurge;
    hide StepStartPut, StepReadRow, StepCheckPurged, StepWrite, StepReadForAdopt, StepAdopt;
    match a.op
    case Load(id) => LoadIsGood(lib, s, a.conn, id);
    case Save(change) => SaveIsGood(lib, s, a.conn, change);
    case Create(id, change) => CreateIsGood(lib, s, a.conn, id, change);
    case PickTrash => PickIsGood(lib, s, a.conn, Trashed(s.db));
    case PickTagged(tag) => PickIsGood(lib, s, a.conn, WithTag(s.db, tag));
    case ReadTombstones => ReadTombstonesIsGood(lib, s, a.conn);
    case Purge(change) => PurgeIsGood(lib, s, a.conn, change);
    case StartPut(id, doc) => StartPutIsGood(lib, s, a.conn, id, doc);
    case ReadRow => ReadRowIsGood(lib, s, a.conn);
    case CheckPurged => CheckPurgedIsGood(lib, s, a.conn);
    case Write => WriteIsGood(lib, s, a.conn);
    case ReadForAdopt(changes) => ReadForAdoptIsGood(lib, s, a.conn, changes);
    case Adopt => AdoptIsGood(lib, s, a.conn);
  }

  lemma StepKeepsInv(lib: Crdt, s: System, a: Action)
    requires Inv(lib, s) && (IsSync(a.op) ==> a.conn == SYNC)
    ensures Inv(lib, Step(lib, s, a)) && Grows(s.db, Step(lib, s, a).db)
  {
    StepIsGood(lib, s, a);
    hide Step, Inv, DbOk, ProgramOk;
    InvFrom(lib, s, Step(lib, s, a), a.conn);
  }

  // ---- whole runs ----

  lemma GrowsTransitive(a: Db, b: Db, c: Db)
    requires Grows(a, b) && Grows(b, c)
    ensures Grows(a, c)
  {
  }

  /**
   Every interleaving of any number of connections keeps the columns equal to the documents, the
   purged ids without rows and the tombstones purged, and no row ever loses a change it held.
   */
  lemma {:induction false} RunKeepsInv(lib: Crdt, s: System, actions: seq<Action>)
    requires Inv(lib, s) && OneMesh(actions)
    ensures Inv(lib, Run(lib, s, actions)) && Grows(s.db, Run(lib, s, actions).db)
    decreases |actions|
  {
    hide Inv, Step, Grows;
    if actions == [] {
      GrowsRefl(s.db);
    } else {
      var t := Step(lib, s, actions[0]);
      StepKeepsInv(lib, s, actions[0]);
      RunKeepsInv(lib, t, actions[1..]);
      GrowsTransitive(s.db, t.db, Run(lib, s, actions).db);
    }
  }

  /** So the invariant holds in every state any run reaches from an empty database. */
  lemma ReachableInv(lib: Crdt, actions: seq<Action>)
    requires OneMesh(actions)
    ensures Inv(lib, EMPTY) && Inv(lib, Run(lib, EMPTY, actions))
  {
    assert Inv(lib, EMPTY);
    hide Inv, OneMesh;
    RunKeepsInv(lib, EMPTY, actions);
  }

  lemma GrowsRefl(db: Db)
    ensures Grows(db, db)
  {
  }

  /** A purged note never comes back, although `put_doc` checks and inserts in two statements. */
  lemma PurgedStaysGone(lib: Crdt, s: System, actions: seq<Action>, id: NoteId)
    requires Inv(lib, s) && OneMesh(actions) && id in s.db.purged
    ensures var t := Run(lib, s, actions); id in t.db.purged && id !in t.db.notes
  {
    RunKeepsInv(lib, s, actions);
    hide Run, ColumnsMatch, ProgramsOk;
  }

  lemma {:induction false} RunConcat(lib: Crdt, s: System, a: seq<Action>, b: seq<Action>)
    ensures Run(lib, s, a + b) == Run(lib, Run(lib, s, a), b)
    decreases |a|
  {
    hide Step;
    if a == [] {
      assert a + b == b;
    } else {
      assert (a + b)[1..] == a[1..] + b;
      RunConcat(lib, Step(lib, s, a[0]), a[1..], b);
    }
  }

  ghost predicate Others(actions: seq<Action>, conn: Conn) {
    forall k | 0 <= k < |actions| :: actions[k].conn != conn
  }

  lemma {:induction false} OthersKeepProgram(lib: Crdt, s: System, actions: seq<Action>, conn: Conn)
    requires Inv(lib, s) && OneMesh(actions) && Others(actions, conn)
    ensures ProgramOf(Run(lib, s, actions), conn) == ProgramOf(s, conn)
    decreases |actions|
  {
    if actions != [] {
      StepIsGood(lib, s, actions[0]);
      hide Step, Inv;
      assert ProgramOf(Step(lib, s, actions[0]), conn) == ProgramOf(s, conn) by {
        hide DbOk, Grows;
        StepKeepsOthers(lib, s, actions[0], conn);
      }
      StepKeepsInv(lib, s, actions[0]);
      OthersKeepProgram(lib, Step(lib, s, actions[0]), actions[1..], conn);
    }
  }

  lemma StepKeepsOthers(lib: Crdt, s: System, a: Action, conn: Conn)
    requires a.conn != conn
    ensures ProgramOf(Step(lib, s, a), conn) == ProgramOf(s, conn)
  {
    hide UpdateWhere, InsertOrIgnore, PurgeRows, Trashed, WithTag, Persisted, Persists;
    hide MaySave, MayCreate, Hydrates, OfNote;
  }

  /**
   A local edit never overwrites another: whatever the other connections did since the row was
   read, the edit lands only on the very document that was read, or changes nothing.
   */
  lemma EditLandsOnWhatWasRead(lib: Crdt, s: System, conn: Conn, id: NoteId, others: seq<Action>, change: Change)
    requires Inv(lib, s) && OneMesh(others) && Others(others, conn)
    requires ProgramOf(s, conn).Idle? && id in s.db.notes
    ensures var base := s.db.notes[id].doc;
      var t := Run(lib, Step(lib, s, Action(conn, Load(id))), others);
      var u := Step(lib, t, Action(conn, Save(change)));
      u.db == t.db || (&& SelectDoc(t.db, id) == Some(base)
                       && SelectDoc(u.db, id) == Some(base + {change})
                       && u.db == t.db.(notes := t.db.notes[id := u.db.notes[id]]))
    ensures var base := s.db.notes[id].doc;
      var t := Run(lib, Step(lib, s, Action(conn, Load(id))), others);
      MaySave(lib, t, Editing(id, base), change) && SelectDoc(t.db, id) == Some(base) ==>
        SelectDoc(Step(lib, t, Action(conn, Save(change))).db, id) == Some(base + {change})
  {
    var load := Action(conn, Load(id));
    StepKeepsInv(lib, s, load);
    var loaded := Step(lib, s, load);
    assert ProgramOf(loaded, conn) == Editing(id, s.db.notes[id].doc);
    hide Inv;
    OthersKeepProgram(lib, loaded, others, conn);
    hide Run, ColumnsOf, MaySave;
  }

  // ---- what runs of local connections leave to the one that syncs ----

  predicate IsLocal(a: Action) {
    a.conn != SYNC && !IsSync(a.op)
  }

  ghost predicate Local(actions: seq<Action>) {
    forall k | 0 <= k < |actions| :: IsLocal(actions[k])
  }

  function RowOf(db: Db, id: NoteId): Option<Row> {
    if id in db.notes then Some(db.notes[id]) else None
  }

  /** A row that is not as it was carries a stamp that had never been written. */
  ghost predicate FreshRows(s: System, t: System) {
    forall id | id in t.db.notes :: RowOf(s.db, id) == RowOf(t.db, id) || t.db.notes[id].columns.modifiedAt !in s.stamps
  }

  /** Ids known here get no row, and are not purged, behind the syncing connection's back. */
  ghost predicate KeepsAbsent(s: System, t: System) {
    && (forall id | id in s.seen && Absent(s.db, id) :: Absent(t.db, id))
    && (forall id | id in s.seen && id !in s.db.notes :: id !in t.db.notes)
  }

  ghost predicate Evolves(s: System, t: System) {
    Grows(s.db, t.db) && s.seen <= t.seen && s.stamps <= t.stamps && KeepsAbsent(s, t) && FreshRows(s, t)
  }

  lemma EvolvesRefl(s: System)
    ensures Evolves(s, s)
  {
  }

  lemma EvolvesTransitive(s: System, t: System, u: System)
    requires Evolves(s, t) && Evolves(t, u)
    ensures Evolves(s, u)
  {
    GrowsTransitive(s.db, t.db, u.db);
    FreshTransitive(s, t, u);
    AbsentTransitive(s, t, u);
    hide Grows, FreshRows, KeepsAbsent;
  }

  lemma FreshTransitive(s: System, t: System, u: System)
    requires FreshRows(s, t) && FreshRows(t, u) && s.stamps <= t.stamps
    ensures FreshRows(s, u)
  {
    forall id | id in u.db.notes
      ensures RowOf(s.db, id) == RowOf(u.db, id) || u.db.notes[id].columns.modifiedAt !in s.stamps
    {
      if RowOf(t.db, id) == RowOf(u.db, id) { assert id in t.db.notes; }
    }
  }

  lemma AbsentTransitive(s: System, t: System, u: System)
    requires KeepsAbsent(s, t) && KeepsAbsent(t, u) && s.seen <= t.seen
    ensures KeepsAbsent(s, u)
  {
  }

  lemma LocalStepIsFresh(lib: Crdt, s: System, a: Action)
    requires Inv(lib, s) && IsLocal(a)
    ensures FreshRows(s, Step(lib, s, a))
  {
    hide Inv, Trashed, WithTag, OfNote, Hydrates;
  }

  lemma LocalStepEvolves(lib: Crdt, s: System, a: Action)
    requires Inv(lib, s) && IsLocal(a)
    ensures Evolves(s, Step(lib, s, a)) && Inv(lib, Step(lib, s, a))
  {
    StepIsGood(lib, s, a);
    StepKeepsInv(lib, s, a);
    LocalStepIsFresh(lib, s, a);
    hide Step, Inv, DbOk, ProgramOk, FreshRows, Grows;
  }

  lemma {:induction false} LocalRunEvolves(lib: Crdt, s: System, actions: seq<Action>)
    requires Inv(lib, s) && Local(actions)
    ensures Evolves(s, Run(lib, s, actions)) && Inv(lib, Run(lib, s, actions))
    decreases |actions|
  {
    hide Inv, Step, Evolves;
    if actions == [] {
      EvolvesRefl(s);
    } else {
      var t := Step(lib, s, actions[0]);
      LocalStepEvolves(lib, s, actions[0]);
      LocalRunEvolves(lib, t, actions[1..]);
      EvolvesTransitive(s, t, Run(lib, s, actions));
    }
  }

  /** How many of the steps changed the row of a note. */
  function RowWrites(lib: Crdt, s: System, actions: seq<Action>, id: NoteId): nat
    decreases |actions|
  {
    if actions == [] then 0
    else
      var t := Step(lib, s, actions[0]);
      (if RowOf(t.db, id) == RowOf(s.db, id) then 0 else 1) + RowWrites(lib, t, actions[1..], id)
  }

  lemma {:induction false} RowWritesConcat(lib: Crdt, s: System, a: seq<Action>, b: seq<Action>, id: NoteId)
    ensures RowWrites(lib, s, a + b, id) == RowWrites(lib, s, a, id) + RowWrites(lib, Run(lib, s, a), b, id)
    decreases |a|
  {
    hide Step, RowOf;
    if a == [] {
      assert a + b == b;
    } else {
      assert (a + b)[1..] == a[1..] + b;
      RowWritesConcat(lib, Step(lib, s, a[0]), a[1..], b, id);
    }
  }

  lemma {:induction false} NoRowWrites(lib: Crdt, s: System, actions: seq<Action>, id: NoteId)
    requires RowWrites(lib, s, actions, id) == 0
    ensures RowOf(Run(lib, s, actions).db, id) == RowOf(s.db, id)
    decreases |actions|
  {
    hide Step, RowOf;
    if actions != [] { NoRowWrites(lib, Step(lib, s, actions[0]), actions[1..], id); }
  }

  // ---- where the guarantees stop ----

  lemma Run3(lib: Crdt, s: System, a: Action, b: Action, c: Action)
    ensures Run(lib, s, [a, b, c]) == Step(lib, Step(lib, Step(lib, s, a), b), c)
  {
    hide Step;
    assert [a, b, c][1..] == [b, c] && [b, c][1..] == [c] && [c][1..] == [];
    var s1 := Step(lib, s, a);
    assert Run(lib, s, [a, b, c]) == Run(lib, s1, [b, c]);
    assert Run(lib, s1, [b, c]) == Run(lib, Step(lib, s1, b), [c]);
  }

  function StartsPut(conn: Conn, id: NoteId, doc: Doc): seq<Action> {
    [Action(conn, StartPut(id, doc)), Action(conn, ReadRow), Action(conn, CheckPurged)]
  }

  function EmptiesTrash(conn: Conn, id: NoteId): seq<Action> {
    [Action(conn, PickTrash), Action(conn, ReadTombstones), Action(conn, Purge(Erase(0, {id})))]
  }

  lemma PutChecksAbsent(lib: Crdt, s: System, conn: Conn, id: NoteId, doc: Doc)
    requires OfNote(doc, id) && Hydrates(doc) && Absent(s.db, id) && ProgramOf(s, conn).Idle?
    ensures var t := Run(lib, s, StartsPut(conn, id, doc));
      t.db == s.db && t.programs == s.programs[conn := Writing(id, doc, None)]
  {
    Run3(lib, s, Action(conn, StartPut(id, doc)), Action(conn, ReadRow), Action(conn, CheckPurged));
    hide OfNote, Hydrates, Run;
  }

  lemma PurgesTheOne(lib: Crdt, s: System, conn: Conn, id: NoteId, row: Row)
    requires s.db == Db(map[id := row], {}, None) && row.columns.deleted && ProgramOf(s, conn).Idle?
    ensures var t := Run(lib, s, EmptiesTrash(conn, id));
      t.db == Db(map[], {id}, Some({Erase(0, {id})})) && t.programs == s.programs[conn := Idle]
  {
    Run3(lib, s, Action(conn, PickTrash), Action(conn, ReadTombstones), Action(conn, Purge(Erase(0, {id}))));
    assert Trashed(s.db) == {id};
    hide Run;
    var change := Erase(0, {id});
    assert {} + {change} == {change};
  }

  /** With a second syncing connection the check and the insert can straddle a purge. */
  lemma TwoMeshesResurrect(lib: Crdt, id: NoteId, doc: Doc)
    requires OfNote(doc, id) && Hydrates(doc) && lib.view(doc).deleted
    ensures var empty := EMPTY;
      var t := Run(lib, empty, StartsPut(0, id, doc) + StartsPut(1, id, doc) + [Action(1, Write)]
                               + EmptiesTrash(2, id) + [Action(0, Write)]);
      id in t.db.purged && id in t.db.notes
  {
    var s0 := EMPTY;
    var put0, put1, purge := StartsPut(0, id, doc), StartsPut(1, id, doc), EmptiesTrash(2, id);
    var write0, write1 := [Action(0, Write)], [Action(1, Write)];
    var s1 := Run(lib, s0, put0);
    var s2 := Run(lib, s1, put1);
    var s3 := Step(lib, s2, Action(1, Write));
    var s4 := Run(lib, s3, purge);
    PutChecksAbsent(lib, s0, 0, id, doc);
    PutChecksAbsent(lib, s1, 1, id, doc);
    assert s3.db == Db(map[id := NewRow(lib, doc)], {}, None);
    PurgesTheOne(lib, s3, 2, id, NewRow(lib, doc));
    assert id in Step(lib, s4, Action(0, Write)).db.notes;
    assert write0[1..] == [] && write1[1..] == [];
    assert Run(lib, s2, write1) == s3 && Run(lib, s4, write0) == Step(lib, s4, Action(0, Write));
    hide Step, Run, StartsPut, EmptiesTrash;
    RunConcat(lib, s0, put0, put1);
    RunConcat(lib, s0, put0 + put1, write1);
    RunConcat(lib, s0, put0 + put1 + write1, purge);
    RunConcat(lib, s0, put0 + put1 + write1 + purge, write0);
  }

  /**
   The tombstone document is replaced without a compare-and-swap: a purge keeps it equal to the
   purged ids exactly when every purge since it was read is in what was read or purged again.
   */
  lemma PurgeKeepsTombstonesIff(lib: Crdt, s: System, conn: Conn, change: Change)
    requires Inv(lib, s) && Tombstoned(s.db) == s.db.purged && ProgramOf(s, conn).Purging?
    requires change.Erase? && change.ids == ProgramOf(s, conn).ids
    ensures var p, t := ProgramOf(s, conn), Step(lib, s, Action(conn, Purge(change)));
      Tombstoned(t.db) == t.db.purged <==> s.db.purged <= Erased(p.base) + p.ids
  {
    var p := ProgramOf(s, conn);
    assert ProgramOk(s, conn, p);
    ErasedUnion(p.base, {change});
    assert Erased({change}) == p.ids;
    hide Erased, DbOk;
  }

  /** Adopting a peer's purges replaces the document just as blindly, with the same condition. */
  lemma AdoptKeepsTombstonesIff(lib: Crdt, s: System, conn: Conn)
    requires Inv(lib, s) && Tombstoned(s.db) == s.db.purged && ProgramOf(s, conn).Adopting?
    ensures var p, t := ProgramOf(s, conn), Step(lib, s, Action(conn, Adopt));
      Tombstoned(t.db) == t.db.purged <==> s.db.purged <= Erased(p.doc)
  {
    hide Erased, DbOk;
  }

  // ---- runs in which a purge drops out of the tombstone document ----

  /** A change that makes a new note, in the trash from the start. */
  predicate Discards(lib: Crdt, id: NoteId, change: Change) {
    change.Edit? && change.note == id && change.creates && lib.view({change}).deleted
  }

  function Discarded(lib: Crdt, s: System, id: NoteId, change: Change): System {
    s.(db := s.db.(notes := s.db.notes[id := NewRow(lib, {change})]), seen := s.seen + {id},
       stamps := s.stamps + {lib.view({change}).modifiedAt})
  }

  lemma CreateDiscards(lib: Crdt, s: System, conn: Conn, id: NoteId, change: Change)
    requires Discards(lib, id, change) && id !in s.seen && id !in s.db.notes && ProgramOf(s, conn).Idle?
    requires lib.view({change}).modifiedAt !in s.stamps
    ensures Step(lib, s, Action(conn, Create(id, change))) == Next(Discarded(lib, s, id, change), conn, Idle)
  {
  }

  /** The first half of Empty Trash, up to the tombstones being read. */
  function Starts(conn: Conn): seq<Action> {
    [Action(conn, PickTrash), Action(conn, ReadTombstones)]
  }

  lemma StartsPurge(lib: Crdt, s: System, conn: Conn, ids: set<NoteId>)
    requires ProgramOf(s, conn).Idle? && ids != {} && Trashed(s.db) == ids
    ensures Run(lib, s, Starts(conn)) == Next(s, conn, Purging(ids, TombstoneDoc(s.db)))
  {
    var pick, read := Action(conn, PickTrash), Action(conn, ReadTombstones);
    hide Trashed, TombstoneDoc;
    assert Step(lib, s, pick) == Next(s, conn, Picked(ids));
    assert Step(lib, Step(lib, s, pick), read)
        == Next(Next(s, conn, Picked(ids)), conn, Purging(ids, TombstoneDoc(s.db)));
    assert s.programs[conn := Picked(ids)][conn := Purging(ids, TombstoneDoc(s.db))]
        == s.programs[conn := Purging(ids, TombstoneDoc(s.db))];
    assert Starts(conn)[1..] == [read] && [read][1..] == [];
    hide Step, ProgramOf;
    assert Run(lib, Step(lib, s, pick), [read]) == Run(lib, Step(lib, Step(lib, s, pick), read), []);
  }

  lemma RunOne(lib: Crdt, s: System, a: Action)
    ensures Run(lib, s, [a]) == Step(lib, s, a)
  {
    hide Step;
    assert [a][1..] == [];
  }

  /** Two connections empty the trash; the first read the tombstones before the second purged. */
  function TwoPurges(a: NoteId, c: Change, b: NoteId, d: Change): seq<Action> {
    [Action(1, Create(a, c))] + Starts(1) + [Action(2, Create(b, d))] + Starts(2)
    + [Action(2, Purge(Erase(0, {a, b})))] + [Action(1, Purge(Erase(1, {a})))]
  }

  lemma TwoPurgesRun(lib: Crdt, s: System, a: NoteId, c: Change, b: NoteId, d: Change)
    ensures var s1 := Step(lib, s, Action(1, Create(a, c)));
      var s2 := Run(lib, s1, Starts(1));
      var s3 := Step(lib, s2, Action(2, Create(b, d)));
      var s4 := Run(lib, s3, Starts(2));
      var s5 := Step(lib, s4, Action(2, Purge(Erase(0, {a, b}))));
      Run(lib, s, TwoPurges(a, c, b, d)) == Step(lib, s5, Action(1, Purge(Erase(1, {a}))))
  {
    var p1, p3 := [Action(1, Create(a, c))], [Action(2, Create(b, d))];
    var p5, p6 := [Action(2, Purge(Erase(0, {a, b})))], [Action(1, Purge(Erase(1, {a})))];
    RunConcat(lib, s, p1 + Starts(1) + p3 + Starts(2) + p5, p6);
    RunConcat(lib, s, p1 + Starts(1) + p3 + Starts(2), p5);
    RunConcat(lib, s, p1 + Starts(1) + p3, Starts(2));
    RunConcat(lib, s, p1 + Starts(1), p3);
    RunConcat(lib, s, p1, Starts(1));
    hide Run, Step, Starts;
    forall t, act ensures Run(lib, t, [act]) == Step(lib, t, act) { RunOne(lib, t, act); }
  }

  /** Two local purges suffice for a purged note to be missing from the tombstone document. */
  lemma PurgesForget(lib: Crdt, a: NoteId, c: Change, b: NoteId, d: Change)
    requires a != b && Discards(lib, a, c) && Discards(lib, b, d)
    requires lib.view({c}).modifiedAt != lib.view({d}).modifiedAt
    ensures var t := Run(lib, EMPTY, TwoPurges(a, c, b, d));
      b in t.db.purged && b !in Tombstoned(t.db)
  {
    var s0 := EMPTY;
    TwoPurgesRun(lib, s0, a, c, b, d);
    CreateDiscards(lib, s0, 1, a, c);
    var s1 := Step(lib, s0, Action(1, Create(a, c)));
    assert s1.db.notes == map[a := NewRow(lib, {c})];
    StartsPurge(lib, s1, 1, {a});
    var s2 := Run(lib, s1, Starts(1));
    CreateDiscards(lib, s2, 2, b, d);
    var s3 := Step(lib, s2, Action(2, Create(b, d)));
    assert s3.db.notes == map[a := NewRow(lib, {c}), b := NewRow(lib, {d})];
    assert Trashed(s3.db) == {a, b};
    StartsPurge(lib, s3, 2, {a, b});
    hide Run, Starts, Trashed, Discards;
    var s4 := Run(lib, s3, Starts(2));
    var s5 := Step(lib, s4, Action(2, Purge(Erase(0, {a, b}))));
    assert s5.db.purged == {a, b} && ProgramOf(s5, 1) == Purging({a}, {});
    var s6 := Step(lib, s5, Action(1, Purge(Erase(1, {a}))));
    assert s6.db.tombstones == Some({} + {Erase(1, {a})});
  }

  /** A peer's purges, read before and adopted after a local purge. */
  function AdoptAround(z: NoteId, a: NoteId, c: Change): seq<Action> {
    [Action(0, ReadForAdopt({Erase(1, {z})}))] + [Action(1, Create(a, c))] + Starts(1)
    + [Action(1, Purge(Erase(0, {a})))] + [Action(0, Adopt)]
  }

  lemma AdoptAroundRun(lib: Crdt, s: System, z: NoteId, a: NoteId, c: Change)
    ensures var s1 := Step(lib, s, Action(0, ReadForAdopt({Erase(1, {z})})));
      var s2 := Step(lib, s1, Action(1, Create(a, c)));
      var s3 := Run(lib, s2, Starts(1));
      var s4 := Step(lib, s3, Action(1, Purge(Erase(0, {a}))));
      Run(lib, s, AdoptAround(z, a, c)) == Step(lib, s4, Action(0, Adopt))
  {
    var p1, p2 := [Action(0, ReadForAdopt({Erase(1, {z})}))], [Action(1, Create(a, c))];
    var p4, p5 := [Action(1, Purge(Erase(0, {a})))], [Action(0, Adopt)];
    RunConcat(lib, s, p1 + p2 + Starts(1) + p4, p5);
    RunConcat(lib, s, p1 + p2 + Starts(1), p4);
    RunConcat(lib, s, p1 + p2, Starts(1));
    RunConcat(lib, s, p1, p2);
    hide Run, Step, Starts;
    forall t, act ensures Run(lib, t, [act]) == Step(lib, t, act) { RunOne(lib, t, act); }
  }

  lemma ReadsPurge(lib: Crdt, s: System, z: NoteId)
    requires s == EMPTY
    ensures Step(lib, s, Action(0, ReadForAdopt({Erase(1, {z})})))
         == System(s.db, map[0 := Adopting({Erase(1, {z})})], {z}, {})
    ensures forall a | a != z :: a !in Erased({Erase(1, {z})})
  {
    assert {} + {Erase(1, {z})} == {Erase(1, {z})} && Erased({Erase(1, {z})}) == {z};
  }

  /** So does one local purge while the syncing connection adopts another. */
  lemma AdoptForgets(lib: Crdt, z: NoteId, a: NoteId, c: Change)
    requires a != z && Discards(lib, a, c)
    ensures var t := Run(lib, EMPTY, AdoptAround(z, a, c));
      a in t.db.purged && a !in Tombstoned(t.db)
  {
    var s0 := EMPTY;
    AdoptAroundRun(lib, s0, z, a, c);
    var s1 := Step(lib, s0, Action(0, ReadForAdopt({Erase(1, {z})})));
    ReadsPurge(lib, s0, z);
    hide Erased, StepReadForAdopt;
    CreateDiscards(lib, s1, 1, a, c);
    var s2 := Step(lib, s1, Action(1, Create(a, c)));
    assert s2.db.notes == map[a := NewRow(lib, {c})];
    assert Trashed(s2.db) == {a};
    StartsPurge(lib, s2, 1, {a});
    hide Run, Starts, Trashed, Discards;
    var s3 := Run(lib, s2, Starts(1));
    EndsPurge(lib, s3, 1, {a}, {}, Erase(0, {a}));
    var s4 := Step(lib, s3, Action(1, Purge(Erase(0, {a}))));
    EndsAdopt(lib, s4, 0, {Erase(1, {z})});
    hide Step;
    assert s4.db.purged == {a};
  }

  lemma EndsPurge(lib: Crdt, s: System, conn: Conn, ids: set<NoteId>, base: Doc, change: Change)
    requires ProgramOf(s, conn) == Purging(ids, base) && change.Erase? && change.ids == ids
    ensures Step(lib, s, Action(conn, Purge(change)))
         == Next(s, conn, Idle).(db := PurgeRows(s.db, ids, base + {change}))
  {
  }

  lemma EndsAdopt(lib: Crdt, s: System, conn: Conn, doc: Doc)
    requires ProgramOf(s, conn) == Adopting(doc)
    ensures Step(lib, s, Action(conn, Adopt)) == Next(s, conn, Idle).(db := PurgeRows(s.db, Erased(doc), doc))
  {
    hide Erased;
  }
}
