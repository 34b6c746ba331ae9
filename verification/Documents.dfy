/**
 Notes as replicated documents. A document is a finite set of changes and merging is union; the
 library that turns changes into a note is a parameter, and only two laws of it are used. The
 saved bytes of a document, and its heads, stand for the document itself.
 */
module Documents {
  import opened Text
  import Todos

  /** Stands for the UUID of a note. */
  type NoteId = nat
  /** An RFC 3339 timestamp, section 5.6. */
  type Stamp = string
  type Doc = set<Change>

  /** A hydrated note: metadata and body. */
  datatype Fields = Fields(id: NoteId, title: string, tags: seq<string>, author: string, noteType: string,
                           pinned: bool, deleted: bool, createdAt: Stamp, modifiedAt: Stamp,
                           status: Option<string>, body: string)

  datatype Change =
    | Edit(hash: nat, note: NoteId, creates: bool, content: Fields)
    | Erase(hash: nat, ids: set<NoteId>)

  /** `view` hydrates a document, `edit` is the change that reconciles it with a note. */
  datatype Crdt = Crdt(view: Doc -> Fields, edit: (Doc, Fields) -> Change)

  /** A document hydrates once the change that created its note is there. */
  predicate Hydrates(d: Doc) {
    exists c | c in d :: c.Edit? && c.creates
  }

  predicate OfNote(d: Doc, id: NoteId) {
    forall c | c in d :: c.Edit? && c.note == id
  }

  ghost predicate Editable(d: Doc, id: NoteId) {
    OfNote(d, id) && (d == {} || Hydrates(d))
  }

  ghost predicate ViewsOwnId(lib: Crdt) {
    forall d: Doc, id: NoteId | OfNote(d, id) && Hydrates(d) :: lib.view(d).id == id
  }

  /** What `reconcile` wrote is what `hydrate` reads. */
  ghost predicate ReadsEdits(lib: Crdt) {
    forall d: Doc, n: Fields | Editable(d, n.id) ::
      var c := lib.edit(d, n);
      c.Edit? && c.note == n.id && (d == {} ==> c.creates) && lib.view(d + {c}) == n
  }

  ghost predicate Lawful(lib: Crdt) {
    ViewsOwnId(lib) && ReadsEdits(lib)
  }

  lemma HydratesMore(d: Doc, e: Doc)
    requires d <= e && Hydrates(d)
    ensures Hydrates(e)
  {
  }

  lemma HydratesStill(d: Doc, e: Doc)
    requires d <= e
    ensures Hydrates(d) ==> Hydrates(e)
  {
  }

  lemma MergedOfNote(d: Doc, e: Doc, id: NoteId)
    requires OfNote(d, id) && OfNote(e, id)
    ensures OfNote(d + e, id)
  {
  }

  lemma ViewId(lib: Crdt, d: Doc, id: NoteId)
    requires Lawful(lib) && OfNote(d, id) && Hydrates(d)
    ensures lib.view(d).id == id
  {
    hide OfNote, Hydrates, ReadsEdits;
  }

  lemma ViewEdit(lib: Crdt, d: Doc, n: Fields)
    requires Lawful(lib) && Editable(d, n.id)
    ensures var c := lib.edit(d, n); c.Edit? && c.note == n.id && lib.view(d + {c}) == n
    ensures var e := d + {lib.edit(d, n)}; OfNote(e, n.id) && Hydrates(e)
  {
    hide ViewsOwnId;
    var c := lib.edit(d, n);
    assert c in d + {c};
  }

  // ---- there is such a library ----

  ghost predicate Latest(d: Doc, c: Change) {
    c in d && forall x | x in d :: x.hash <= c.hash
  }

  lemma {:induction false} LatestExists(d: Doc) returns (c: Change)
    requires d != {}
    ensures Latest(d, c)
    decreases |d|
  {
    var x :| x in d;
    if d - {x} == {} {
      assert d == (d - {x}) + {x};
      c := x;
    } else {
      var y := LatestExists(d - {x});
      c := if x.hash <= y.hash then y else x;
      assert forall z | z in d :: z == x || z in d - {x};
    }
  }

  ghost function LatestOf(d: Doc): (c: Change)
    requires d != {}
    ensures Latest(d, c)
  {
    assert exists c :: Latest(d, c) by { var c := LatestExists(d); }
    var c :| Latest(d, c);
    c
  }

  ghost function NextHash(d: Doc): nat {
    if d == {} then 0 else LatestOf(d).hash + 1
  }

  ghost function Owner(d: Doc): NoteId {
    if c :| c in d && c.Edit? then c.note else 0
  }

  ghost function LastWriterView(d: Doc): Fields {
    var blank := Fields(Owner(d), "", [], "", "", false, false, "", "", None, "");
    if d != {} && LatestOf(d).Edit? && LatestOf(d).content.id == Owner(d) then LatestOf(d).content else blank
  }

  /** The laws are consistent: a last-writer-wins document obeys them. */
  lemma LawfulLibraryExists() returns (lib: Crdt)
    ensures Lawful(lib)
  {
    lib := Crdt((d: Doc) => LastWriterView(d), (d: Doc, n: Fields) => Edit(NextHash(d), n.id, d == {}, n));
    forall d: Doc, id: NoteId | OfNote(d, id) && Hydrates(d) ensures lib.view(d).id == id {
      OwnerIs(d, id);
    }
    forall d: Doc, n: Fields | Editable(d, n.id)
      ensures var c := lib.edit(d, n);
        c.Edit? && c.note == n.id && (d == {} ==> c.creates) && lib.view(d + {c}) == n
    {
      LastEditWins(d, n);
    }
  }

  lemma OwnerIs(d: Doc, id: NoteId)
    requires OfNote(d, id) && d != {}
    ensures Owner(d) == id
  {
    var c :| c in d;
    assert c.Edit?;
  }

  lemma LastEditWins(d: Doc, n: Fields)
    requires OfNote(d, n.id)
    ensures LastWriterView(d + {Edit(NextHash(d), n.id, d == {}, n)}) == n
  {
    var c := Edit(NextHash(d), n.id, d == {}, n);
    OwnerIs(d + {c}, n.id);
    assert Latest(d + {c}, LatestOf(d + {c}));
    if d != {} { assert Latest(d, LatestOf(d)); }
    assert LatestOf(d + {c}) == c;
  }

  // ---- rows: the document and the columns denormalized from it ----

  datatype Columns = Columns(title: string, tags: seq<string>, noteType: string, pinned: bool, deleted: bool,
                             hasTodos: bool, modifiedAt: Stamp, status: Option<string>)
  datatype Row = Row(columns: Columns, author: string, createdAt: Stamp, doc: Doc)
  /** The three tables; `tombstones` is the synced document of purged ids. */
  datatype Db = Db(notes: map<NoteId, Row>, purged: set<NoteId>, tombstones: Option<Doc>)

  function ColumnsOf(f: Fields): Columns {
    Columns(f.title, f.tags, f.noteType, f.pinned, f.deleted, Todos.HasUncheckedTodos(f.body), f.modifiedAt, f.status)
  }

  /** The row's document is a note of that id, and its columns are those hydrated from it. */
  ghost predicate RowMatches(lib: Crdt, id: NoteId, row: Row) {
    OfNote(row.doc, id) && Hydrates(row.doc) && row.columns == ColumnsOf(lib.view(row.doc))
  }

  ghost predicate ColumnsMatch(lib: Crdt, db: Db) {
    forall id | id in db.notes :: RowMatches(lib, id, db.notes[id])
  }

  function NewRow(lib: Crdt, doc: Doc): Row {
    var f := lib.view(doc);
    Row(ColumnsOf(f), f.author, f.createdAt, doc)
  }

  /** `UPDATE` rewrites the columns and the document, never the author and the creation time. */
  function Rewritten(lib: Crdt, row: Row, doc: Doc): Row {
    Row(ColumnsOf(lib.view(doc)), row.author, row.createdAt, doc)
  }

  // ---- the statements, each atomic ----

  function SelectDoc(db: Db, id: NoteId): Option<Doc> {
    if id in db.notes then Some(db.notes[id].doc) else None
  }

  function SelectStamp(db: Db, id: NoteId): Option<Stamp> {
    if id in db.notes then Some(db.notes[id].columns.modifiedAt) else None
  }

  /** `UPDATE … WHERE id = ? AND doc = ?`: how many rows it changed decides. */
  predicate Updates(db: Db, id: NoteId, base: Doc) {
    id in db.notes && db.notes[id].doc == base
  }

  function UpdateWhere(lib: Crdt, db: Db, id: NoteId, base: Doc, doc: Doc): Db {
    if Updates(db, id, base) then db.(notes := db.notes[id := Rewritten(lib, db.notes[id], doc)]) else db
  }

  function InsertOrIgnore(lib: Crdt, db: Db, id: NoteId, doc: Doc): Db {
    if id in db.notes then db else db.(notes := db.notes[id := NewRow(lib, doc)])
  }

  /** One transaction: tombstone the ids, delete their rows, replace the tombstone document. */
  function PurgeRows(db: Db, ids: set<NoteId>, tombstones: Doc): Db {
    Db(db.notes - ids, db.purged + ids, Some(tombstones))
  }

  // ---- what a statement leaves of a row ----

  /** The columns say what the note says, and whether one of its task items is open. */
  ghost predicate Shows(c: Columns, f: Fields) {
    && c.title == f.title && c.tags == f.tags && c.noteType == f.noteType && c.status == f.status
    && c.pinned == f.pinned && c.deleted == f.deleted && c.modifiedAt == f.modifiedAt
    && (c.hasTodos <==> Todos.AnyOpenItem(Todos.Items(f.body)))
  }

  /** One row changed, to this document of this note; who wrote the note, and when, stays as it was. */
  ghost predicate RowReplaced(a: Db, b: Db, id: NoteId, doc: Doc, f: Fields) {
    && id in a.notes && id in b.notes && b == a.(notes := a.notes[id := b.notes[id]])
    && b.notes[id].doc == doc && Shows(b.notes[id].columns, f)
    && b.notes[id].author == a.notes[id].author && b.notes[id].createdAt == a.notes[id].createdAt
  }

  /** One row more, with this document of this note. */
  ghost predicate RowAdded(a: Db, b: Db, id: NoteId, doc: Doc, f: Fields) {
    && id !in a.notes && id in b.notes && b == a.(notes := a.notes[id := b.notes[id]])
    && b.notes[id].doc == doc && Shows(b.notes[id].columns, f)
    && b.notes[id].author == f.author && b.notes[id].createdAt == f.createdAt
  }

  lemma ColumnsShow(f: Fields)
    ensures Shows(ColumnsOf(f), f)
  {
    hide Todos.ItemsFrom, Todos.AnyOpenLine, Todos.AnyOpenItem;
    Todos.FlagIffOpenItem(Lines(f.body), 0);
  }

  lemma UpdateReplaces(lib: Crdt, db: Db, id: NoteId, base: Doc, doc: Doc)
    ensures if id in db.notes && db.notes[id].doc == base
            then RowReplaced(db, UpdateWhere(lib, db, id, base, doc), id, doc, lib.view(doc))
            else UpdateWhere(lib, db, id, base, doc) == db
  {
    hide ColumnsOf, Shows;
    ColumnsShow(lib.view(doc));
  }

  lemma InsertAdds(lib: Crdt, db: Db, id: NoteId, doc: Doc)
    ensures if id in db.notes then InsertOrIgnore(lib, db, id, doc) == db
            else RowAdded(db, InsertOrIgnore(lib, db, id, doc), id, doc, lib.view(doc))
  {
    hide ColumnsOf, Shows;
    ColumnsShow(lib.view(doc));
  }

  /** A received document joins the row's, or becomes a row; a purged note stays gone. */
  lemma PutJoins(lib: Crdt, db: Db, id: NoteId, doc: Doc)
    ensures var after := AtomicPut(lib, db, id, doc);
      if id in db.purged then after == db
      else if id in db.notes then RowReplaced(db, after, id, db.notes[id].doc + doc, lib.view(db.notes[id].doc + doc))
      else RowAdded(db, after, id, doc, lib.view(doc))
  {
    hide ColumnsOf, Shows;
    if id in db.notes { ColumnsShow(lib.view(db.notes[id].doc + doc)); }
    ColumnsShow(lib.view(doc));
  }

  /** Keys of the tombstone document: entries are only ever added, so they are those of its changes. */
  function Erased(d: Doc): set<NoteId> {
    set c, id | c in d && c.Erase? && id in c.ids :: id
  }

  function Tombstoned(db: Db): set<NoteId> {
    match db.tombstones case Some(d) => Erased(d) case None => {}
  }

  lemma ErasedUnion(d: Doc, e: Doc)
    ensures Erased(d + e) == Erased(d) + Erased(e)
  {
  }

  lemma EmptyErasesNone()
    ensures Erased({}) == {}
  {
  }

  // ---- receiving a document, as one step ----

  /** `put_doc`: merge into the row, or insert one, unless the id was purged. */
  function AtomicPut(lib: Crdt, db: Db, id: NoteId, doc: Doc): Db {
    if id in db.purged then db
    else if id in db.notes then
      db.(notes := db.notes[id := Rewritten(lib, db.notes[id], db.notes[id].doc + doc)])
    else db.(notes := db.notes[id := NewRow(lib, doc)])
  }

  lemma PutKeepsColumns(lib: Crdt, db: Db, id: NoteId, doc: Doc)
    requires ColumnsMatch(lib, db) && OfNote(doc, id) && Hydrates(doc)
    ensures ColumnsMatch(lib, AtomicPut(lib, db, id, doc))
  {
    hide ColumnsOf;
    if id in db.notes {
      MergedOfNote(db.notes[id].doc, doc, id);
      HydratesMore(doc, db.notes[id].doc + doc);
    }
  }
}
