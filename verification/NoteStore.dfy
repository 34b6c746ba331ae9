/**
 `NoteStore` (store/): one connection to the database file. Before each of its statements the
 other connections take whatever steps the schedule holds for that moment.
 */
module NoteStore {
  import opened Text
  import opened Documents
  import opened Connections
  import opened SearchIndex
  import Derivation
  import Frontmatter
  import Queries
  import Removal = RemoveTag
  import Splice
  import Tags
  import TodoTags
  import TodoText
  import Todos
  import Transfer
  import UncoveredTags

  datatype StoreError =
    | NotFound(id: NoteId)
    | VersionMismatch(id: NoteId, expected: Doc, found: Doc)
    | TagsWouldBeLost(id: NoteId, tags: seq<string>)
    | DuplicateId(id: NoteId)
    | DocumentError

  datatype Result<+T> = Ok(value: T) | Err(error: StoreError)

  // ---- one pass of the `put_doc` loop ----

  function RowDoc(db: Db, id: NoteId): Doc {
    if id in db.notes then db.notes[id].doc else {}
  }

  /** The candidate a pass starts from holds the received changes and nothing the row lacks. */
  ghost predicate Carries(db: Db, id: NoteId, received: Doc, doc: Doc) {
    received <= doc && (id in db.purged || doc <= received + RowDoc(db, id))
  }

  lemma CarriesLater(a: Db, b: Db, id: NoteId, received: Doc, doc: Doc)
    requires Grows(a, b) && Carries(a, id, received, doc)
    ensures Carries(b, id, received, doc)
  {
  }

  lemma CarriesMerged(db: Db, id: NoteId, received: Doc, doc: Doc)
    requires Carries(db, id, received, doc)
    ensures Carries(db, id, received, Merged(SelectDoc(db, id), doc))
  {
  }

  /** The system once these ids are in use, wherever they came from. */
  function Arrived(s: System, ids: set<NoteId>): System {
    s.(seen := s.seen + ids)
  }

  lemma ArrivedInv(lib: Crdt, s: System, ids: set<NoteId>)
    requires Inv(lib, s)
    ensures Inv(lib, Arrived(s, ids)) && Evolves(s, Arrived(s, ids))
  {
    hide RowMatches, OfNote, Hydrates, Erased;
    var t := Arrived(s, ids);
    forall conn | conn in t.programs ensures ProgramOk(t, conn, t.programs[conn]) {
      assert ProgramOk(s, conn, s.programs[conn]);
    }
  }

  function PutSystem(lib: Crdt, s: System, id: NoteId, doc: Doc): System {
    var db := AtomicPut(lib, s.db, id, doc);
    if id in s.db.purged then s
    else s.(db := db, stamps := s.stamps + {db.notes[id].columns.modifiedAt})
  }

  /** A pass whose write takes effect has put the received changes in one step, then. */
  lemma PassPuts(lib: Crdt, read: System, check: System, write: System, id: NoteId, received: Doc, doc: Doc)
    requires Inv(lib, read) && Inv(lib, write) && id in read.seen
    requires Evolves(read, check) && Evolves(check, write)
    requires Carries(read.db, id, received, doc) && id !in check.db.purged
    requires Persists(write.db, id, SelectDoc(read.db, id))
    requires OfNote(doc, id) && Hydrates(doc)
    ensures id !in write.db.purged
    ensures var merged := Merged(SelectDoc(read.db, id), doc);
      Persisted(lib, write.db, id, SelectDoc(read.db, id), merged) == AtomicPut(lib, write.db, id, received)
  {
    hide ColumnsOf, FreshRows, OfNote, Hydrates, ProgramsOk, ColumnsMatch;
    if id in read.db.notes {
      assert id in write.db.notes;
      assert RowDoc(read.db, id) + doc == write.db.notes[id].doc + received;
    } else {
      assert Absent(check.db, id);
      assert doc == received;
    }
  }

  lemma PutWritesRow(lib: Crdt, s: System, t: System, id: NoteId, doc: Doc)
    requires Inv(lib, s) && OfNote(doc, id) && Hydrates(doc) && id in s.seen && id !in s.db.purged
    requires t == PutSystem(lib, s, id, doc).(programs := s.programs[SYNC := Idle])
    ensures WritesRow(lib, s, t, SYNC, id)
  {
    PutKeepsColumns(lib, s.db, id, doc);
    assert RowMatches(lib, id, t.db.notes[id]);
    hide RowMatches, ProgramsOk, ColumnsOf;
  }

  lemma PutSystemInv(lib: Crdt, s: System, id: NoteId, doc: Doc)
    requires Inv(lib, s) && OfNote(doc, id) && Hydrates(doc) && id in s.seen && SYNC !in s.programs
    ensures Inv(lib, PutSystem(lib, s, id, doc))
  {
    if id !in s.db.purged {
      var u := PutSystem(lib, s, id, doc);
      var t := u.(programs := s.programs[SYNC := Idle]);
      PutWritesRow(lib, s, t, id, doc);
      hide WritesRow, OfNote, Hydrates, AtomicPut;
      WritesRowIsGood(lib, s, t, SYNC, id);
      InvFrom(lib, s, t, SYNC);
      FewerPrograms(lib, t, u);
    }
  }

  lemma FewerPrograms(lib: Crdt, t: System, u: System)
    requires Inv(lib, t) && u == t.(programs := u.programs)
    requires forall conn | conn in u.programs :: conn in t.programs && t.programs[conn] == u.programs[conn]
    ensures Inv(lib, u)
  {
    hide OfNote, Hydrates, ColumnsMatch, Erased;
    forall conn | conn in u.programs ensures ProgramOk(u, conn, u.programs[conn]) {
      assert ProgramOk(t, conn, t.programs[conn]);
    }
  }

  /** The new body is reached by one splice of the old one, which keeps the document's history. */
  method SpliceTo(was: string, newBody: string) returns (body: string)
    ensures body == newBody
  {
    var splice := Splice.MakeSplice(was, newBody);
    body := if splice.Some? then Splice.Apply(was, splice.value) else was;
  }

  // ---- the class ----

  /** Every turn is that of other connections, of which only connection 0 syncs. */
  ghost predicate InTurn(schedule: seq<seq<Action>>, conn: Conn) {
    forall k | 0 <= k < |schedule| :: OneMesh(schedule[k]) && Others(schedule[k], conn)
  }

  lemma OthersAreLocal(actions: seq<Action>)
    requires OneMesh(actions) && Others(actions, SYNC)
    ensures Local(actions)
  {
  }

  lemma {:induction false} RunSpares(lib: Crdt, s: System, actions: seq<Action>, conn: Conn)
    requires Others(actions, conn)
    ensures conn in Run(lib, s, actions).programs <==> conn in s.programs
    decreases |actions|
  {
    if actions != [] {
      StepSpares(lib, s, actions[0], conn);
      hide Step;
      RunSpares(lib, Step(lib, s, actions[0]), actions[1..], conn);
    }
  }

  lemma StepSpares(lib: Crdt, s: System, a: Action, conn: Conn)
    requires a.conn != conn
    ensures conn in Step(lib, s, a).programs <==> conn in s.programs
  {
    hide UpdateWhere, InsertOrIgnore, PurgeRows, Trashed, WithTag, MaySave, MayCreate;
  }

  /** What the loop of `put_doc` knows at its top: how it got here, and what the candidate is. */
  ghost predicate Looping(lib: Crdt, start: System, s: System, others: seq<Action>,
                          id: NoteId, received: Doc, doc: Doc) {
    && s == Run(lib, start, others) && Local(others)
    && Inv(lib, s) && Evolves(start, s) && SYNC !in s.programs
    && Carries(s.db, id, received, doc) && OfNote(doc, id) && Hydrates(doc) && id in s.seen
  }

  lemma LoopLater(lib: Crdt, start: System, s: System, others: seq<Action>, burst: seq<Action>,
                  id: NoteId, received: Doc, doc: Doc)
    requires Looping(lib, start, s, others, id, received, doc) && Local(burst)
    ensures Looping(lib, start, Run(lib, s, burst), others + burst, id, received, doc)
    ensures Evolves(s, Run(lib, s, burst))
    ensures RowWrites(lib, start, others + burst, id)
         == RowWrites(lib, start, others, id) + RowWrites(lib, s, burst, id)
  {
    LocalRunEvolves(lib, s, burst);
    RunSpares(lib, s, burst, SYNC);
    RunConcat(lib, start, others, burst);
    RowWritesConcat(lib, start, others, burst, id);
    EvolvesTransitive(start, s, Run(lib, s, burst));
    CarriesLater(s.db, Run(lib, s, burst).db, id, received, doc);
    hide Run, RowWrites, Inv, Carries, FreshRows, KeepsAbsent, Grows, OfNote, Hydrates;
  }

  lemma LoopMerged(lib: Crdt, start: System, s: System, others: seq<Action>, id: NoteId, received: Doc, doc: Doc)
    requires Looping(lib, start, s, others, id, received, doc)
    ensures Looping(lib, start, s, others, id, received, Merged(SelectDoc(s.db, id), doc))
  {
    CarriesMerged(s.db, id, received, doc);
    if id in s.db.notes {
      assert RowMatches(lib, id, s.db.notes[id]);
      MergedOfNote(s.db.notes[id].doc, doc, id);
      HydratesMore(doc, s.db.notes[id].doc + doc);
    }
    hide Run, Inv, Carries, Evolves, OfNote, Hydrates;
  }

  /** A write that found another row than was read is paid for by a step that changed the row. */
  lemma LostRacePaid(lib: Crdt, s: System, a: seq<Action>, b: seq<Action>, id: NoteId)
    requires !Persists(Run(lib, Run(lib, s, a), b).db, id, SelectDoc(s.db, id))
    ensures RowWrites(lib, s, a, id) + RowWrites(lib, Run(lib, s, a), b, id) >= 1
  {
    hide Run, RowWrites;
    if RowWrites(lib, s, a, id) == 0 { NoRowWrites(lib, s, a, id); }
    if RowWrites(lib, Run(lib, s, a), b, id) == 0 { NoRowWrites(lib, Run(lib, s, a), b, id); }
  }

  lemma LoopStarts(lib: Crdt, s: System, id: NoteId, received: Doc)
    requires Inv(lib, s) && SYNC !in s.programs && OfNote(received, id) && Hydrates(received) && id in s.seen
    ensures Looping(lib, s, s, [], id, received, received)
    ensures RowWrites(lib, s, [], id) == 0
  {
    EvolvesRefl(s);
    hide Inv, Evolves, OfNote, Hydrates;
  }

  /** The write of a pass, when it takes effect. */
  lemma PassWrites(lib: Crdt, start: System, read: System, check: System, write: System, others: seq<Action>,
                   id: NoteId, received: Doc, doc: Doc)
    requires Looping(lib, start, write, others, id, received, Merged(SelectDoc(read.db, id), doc))
    requires Inv(lib, read) && id in read.seen && Carries(read.db, id, received, doc)
    requires OfNote(doc, id) && Hydrates(doc)
    requires OfNote(received, id) && Hydrates(received)
    requires Evolves(read, check) && Evolves(check, write) && id !in check.db.purged
    requires Persists(write.db, id, SelectDoc(read.db, id))
    ensures var stored := SelectDoc(read.db, id);
      var merged := Merged(stored, doc);
      var put := PutSystem(lib, write, id, received);
      && put == write.(db := Persisted(lib, write.db, id, stored, merged),
                       stamps := write.stamps + {lib.view(merged).modifiedAt})
      && id in put.db.notes && put.db.notes[id].doc == merged && Inv(lib, put) && SYNC !in put.programs
      && PutOutcome(lib, start, write, put, id, received, lib.view(merged))
  {
    PassPuts(lib, read, check, write, id, received, doc);
    hide Inv, Evolves, Carries, OfNote, Hydrates, Run, ColumnsOf;
    PutSystemInv(lib, write, id, received);
    PutJoins(lib, write.db, id, received);
    hide RowReplaced, RowAdded;
    var merged := Merged(SelectDoc(read.db, id), doc);
    assert Persisted(lib, write.db, id, SelectDoc(read.db, id), merged).notes[id].doc == merged;
  }

  /** Since state `read` the row, then `stored`, was merged with the candidate, and others took steps. */
  ghost predicate ReadAs(lib: Crdt, read: System, s: System, since: seq<Action>, id: NoteId, received: Doc,
                         candidate: Doc, stored: Option<Doc>, doc: Doc) {
    && Inv(lib, read) && id in read.seen && Carries(read.db, id, received, candidate)
    && OfNote(candidate, id) && Hydrates(candidate)
    && stored == SelectDoc(read.db, id) && doc == Merged(stored, candidate)
    && s == Run(lib, read, since) && Evolves(read, s)
  }

  lemma LoopReads(lib: Crdt, start: System, s: System, others: seq<Action>, id: NoteId, received: Doc,
                  candidate: Doc, stored: Option<Doc>, doc: Doc)
    requires Looping(lib, start, s, others, id, received, candidate) && stored == SelectDoc(s.db, id)
    requires doc == if stored.Some? && stored.value != candidate then stored.value + candidate else candidate
    ensures Looping(lib, start, s, others, id, received, doc)
    ensures ReadAs(lib, s, s, [], id, received, candidate, stored, doc)
  {
    LoopMerged(lib, start, s, others, id, received, candidate);
    EvolvesRefl(s);
    hide Inv, Carries, Evolves, OfNote, Hydrates;
    assert doc == Merged(stored, candidate);
  }

  lemma ReadLater(lib: Crdt, read: System, s: System, since: seq<Action>, id: NoteId, received: Doc,
                  candidate: Doc, stored: Option<Doc>, doc: Doc)
    requires ReadAs(lib, read, read, [], id, received, candidate, stored, doc)
    requires s == Run(lib, read, since) && Evolves(read, s)
    ensures ReadAs(lib, read, s, since, id, received, candidate, stored, doc)
  {
    hide Run, Inv, Carries, Evolves, OfNote, Hydrates, Merged, SelectDoc;
  }

  lemma LoopPurged(lib: Crdt, start: System, s: System, others: seq<Action>, id: NoteId, received: Doc, doc: Doc,
                   note: Fields)
    requires Looping(lib, start, s, others, id, received, doc) && id in s.db.purged
    ensures PutOutcome(lib, start, Run(lib, start, others), s, id, received, note) && Local(others)
  {
    hide Run, Inv, Carries, OfNote, Hydrates, Evolves;
    PutPurged(lib, start, s, id, received, note);
  }

  /** The write of a pass takes effect: one atomic put, and the row it writes is a note of that id. */
  lemma LoopWrites(lib: Crdt, start: System, read: System, check: System, s: System, others: seq<Action>,
                   since: seq<Action>, id: NoteId, received: Doc, candidate: Doc, stored: Option<Doc>, doc: Doc)
    requires Lawful(lib) && Looping(lib, start, s, others, id, received, doc)
    requires ReadAs(lib, read, check, since, id, received, candidate, stored, doc)
    requires OfNote(received, id) && Hydrates(received)
    requires id !in check.db.purged && Evolves(check, s) && Persists(s.db, id, stored)
    ensures var t := s.(db := Persisted(lib, s.db, id, stored, doc), stamps := s.stamps + {lib.view(doc).modifiedAt});
      && Inv(lib, t) && SYNC !in t.programs && PutOutcome(lib, start, s, t, id, received, lib.view(doc))
      && LiveEntries(lib, t.db) == Reindexed(LiveEntries(lib, s.db), id, lib.view(doc))
    ensures lib.view(doc).id == id && s == Run(lib, start, others) && Local(others)
  {
    hide Run, Evolves, Carries, Inv, OfNote, Hydrates, Persists, Persisted, LiveEntries, Reindexed, PutOutcome;
    hide PutSystem;
    hide Lawful;
    ViewId(lib, doc, id);
    PassWrites(lib, start, read, check, s, others, id, received, candidate);
    WrittenInStep(lib, s.db, id, stored, doc);
  }

  /** The write of a pass finds another row: the others changed it since it was read. */
  lemma LostRace(lib: Crdt, read: System, check: System, s: System, since: seq<Action>, burst: seq<Action>,
                 id: NoteId, received: Doc, candidate: Doc, stored: Option<Doc>, doc: Doc)
    requires ReadAs(lib, read, check, since, id, received, candidate, stored, doc)
    requires s == Run(lib, check, burst) && !Persists(s.db, id, stored)
    ensures RowWrites(lib, read, since, id) + RowWrites(lib, check, burst, id) >= 1
    ensures since != [] || burst != []
  {
    hide Run, RowWrites, Inv, Carries, Evolves, Merged;
    LostRacePaid(lib, read, since, burst, id);
    NothingLost(lib, read, since, burst, id);
  }

  lemma Associative(a: seq<Action>, b: seq<Action>, c: seq<Action>)
    ensures a + b + c == a + (b + c)
  {
  }

  // ---- edits of a body that was read ----

  /** `add_tag`, `remove_tag`, `edit_lines`, `set_todos_checked`, `set_todo_text` and `add_todo`. */
  datatype BodyEdit =
    | PutTag(tag: string)
    | DropTag(tag: string)
    | PutLines(first: nat, last: nat, text: string)
    | CheckItems(indices: seq<nat>, checked: bool)
    | RenameItem(index: nat, text: string)
    | AddItem(text: string)

  /** The body after the edit, or nothing when a line or an item it names is not there. */
  function EditedBody(edit: BodyEdit, body: string): Option<string> {
    match edit
    case PutTag(tag) => Some(Tags.EnsureTag(body, tag))
    case DropTag(tag) => Some(Removal.Keep(body, 0, Removal.Removed(body, tag)))
    case PutLines(first, last, text) =>
      match Splice.ReplaceLines(body, first, last, text) { case Body(b) => Some(b) case Refused(_) => None }
    case CheckItems(indices, checked) =>
      match Todos.SetTodosChecked(body, indices, checked) { case Body(b) => Some(b) case Rejected(_) => None }
    case RenameItem(index, text) =>
      match Todos.SetTodoText(body, index, text) { case Body(b) => Some(b) case Rejected(_) => None }
    case AddItem(text) => Some(Todos.AppendTodo(body, text))
  }

  method RunEdit(edit: BodyEdit, body: string) returns (r: Option<string>)
    ensures r == EditedBody(edit, body)
  {
    hide Todos.SetTodosChecked, Todos.SetTodoText, Removal.Keep, Removal.Removed, Tags.EnsureTag, Splice.ReplaceLines;
    match edit
    case PutTag(tag) => r := Some(Tags.EnsureTag(body, tag));
    case DropTag(tag) =>
      var out := Removal.RemoveTagFrom(body, tag);
      r := Some(out);
    case PutLines(first, last, text) =>
      var lined := Splice.ReplaceLines(body, first, last, text);
      r := match lined { case Body(b) => Some(b) case Refused(_) => None };
    case CheckItems(indices, checked) =>
      var edited := Todos.CheckTodos(body, indices, checked);
      r := match edited { case Body(b) => Some(b) case Rejected(_) => None };
    case RenameItem(index, text) =>
      var edited := Todos.SetTodoText(body, index, text);
      r := match edited { case Body(b) => Some(b) case Rejected(_) => None };
    case AddItem(text) => r := Some(Todos.AppendTodo(body, text));
  }

  /** When such an operation goes through, undisturbed. */
  predicate EditGoes(lib: Crdt, db: Db, id: NoteId, edit: BodyEdit, expected: Option<Doc>) {
    && id in db.notes
    && (expected.Some? ==> db.notes[id].doc == expected.value)
    && var was := lib.view(db.notes[id].doc).body;
       match EditedBody(edit, was)
       case None => false
       case Some(body) =>
         || ((edit.PutTag? || edit.DropTag?) && body == was)
         || WouldReplace(lib, db, id, body, edit.DropTag?, expected)
  }

  // ---- local edits ----

  /** The body as one statement reads it. */
  function BodyAt(lib: Crdt, s: System, id: NoteId): string {
    if id in s.db.notes then lib.view(s.db.notes[id].doc).body else ""
  }

  /** Only other connections took steps between the two states. */
  ghost predicate Waited(lib: Crdt, start: System, s: System, others: seq<Action>, conn: Conn) {
    && s == Run(lib, start, others) && OneMesh(others) && Others(others, conn)
    && Grows(start.db, s.db) && (conn == SYNC ==> Evolves(start, s))
  }

  lemma WaitedRun(lib: Crdt, s: System, burst: seq<Action>, conn: Conn)
    requires Inv(lib, s) && OneMesh(burst) && Others(burst, conn) && conn !in s.programs
    ensures var t := Run(lib, s, burst); Waited(lib, s, t, burst, conn) && Inv(lib, t) && conn !in t.programs
  {
    RunSpares(lib, s, burst, conn);
    RunKeepsInv(lib, s, burst);
    if conn == SYNC {
      OthersAreLocal(burst);
      LocalRunEvolves(lib, s, burst);
    }
    hide Run, Inv, Evolves, Grows;
  }

  lemma WaitedMore(lib: Crdt, a: System, b: System, c: System, x: seq<Action>, y: seq<Action>, conn: Conn)
    requires Waited(lib, a, b, x, conn) && Waited(lib, b, c, y, conn)
    ensures Waited(lib, a, c, x + y, conn)
  {
    RunConcat(lib, a, x, y);
    GrowsTransitive(a.db, b.db, c.db);
    if conn == SYNC { EvolvesTransitive(a, b, c); }
    hide Run, Evolves, Grows;
  }

  lemma WaitedNot(lib: Crdt, s: System, conn: Conn)
    ensures Waited(lib, s, s, [], conn)
  {
    EvolvesRefl(s);
    GrowsRefl(s.db);
    hide Evolves, Grows;
  }

  function Committed(lib: Crdt, s: System, id: NoteId, base: Doc, note: Fields): System {
    s.(db := UpdateWhere(lib, s.db, id, base, base + {lib.edit(base, note)}), stamps := s.stamps + {note.modifiedAt})
  }

  /** The row that was read is still the row, and now holds one more change that makes it `note`. */
  ghost predicate Commits(lib: Crdt, before: System, after: System, id: NoteId, base: Doc, note: Fields) {
    && SelectDoc(before.db, id) == Some(base) && note.id == id
    && after == Committed(lib, before, id, base, note)
    && id in after.db.notes && base <= after.db.notes[id].doc && lib.view(after.db.notes[id].doc) == note
    && RowReplaced(before.db, after.db, id, base + {lib.edit(base, note)}, note)
    && after == before.(db := after.db, stamps := before.stamps + {note.modifiedAt})
  }

  lemma CommitKeeps(lib: Crdt, s: System, id: NoteId, base: Doc, note: Fields, conn: Conn)
    requires Lawful(lib) && Inv(lib, s) && conn !in s.programs
    requires SelectDoc(s.db, id) == Some(base) && note.id == id
    ensures var t := Committed(lib, s, id, base, note);
      && Commits(lib, s, t, id, base, note) && Inv(lib, t) && t.programs == s.programs
      && OfNote(base, id) && Hydrates(base)
  {
    var t := Committed(lib, s, id, base, note);
    assert RowMatches(lib, id, s.db.notes[id]);
    ViewEdit(lib, base, note);
    UpdateReplaces(lib, s.db, id, base, base + {lib.edit(base, note)});
    KeysSeen(lib, s);
    hide RowReplaced;
    var u := t.(programs := s.programs[conn := Idle]);
    hide Inv, Lawful, OfNote, Hydrates;
    assert WritesRow(lib, s, u, conn, id) by { hide ColumnsOf; }
    WritesRowIsGood(lib, s, u, conn, id);
    InvFrom(lib, s, u, conn);
    FewerPrograms(lib, u, t);
  }

  lemma CommitEvolves(lib: Crdt, start: System, s: System, id: NoteId, base: Doc, note: Fields)
    requires Evolves(start, s) && note.modifiedAt !in start.stamps
    requires Commits(lib, s, Committed(lib, s, id, base, note), id, base, note)
    requires Inv(lib, s)
    ensures Evolves(start, Committed(lib, s, id, base, note))
  {
    hide Inv;
    var t := Committed(lib, s, id, base, note);
    assert t.db.notes[id].columns.modifiedAt == note.modifiedAt;
    hide ColumnsOf;
    EvolvesMore(start, s, t, id);
  }

  lemma EvolvesMore(start: System, s: System, t: System, id: NoteId)
    requires Evolves(start, s) && id in s.db.notes && id in t.db.notes && s.db.notes[id].doc <= t.db.notes[id].doc
    requires t.db == s.db.(notes := s.db.notes[id := t.db.notes[id]]) && t.seen == s.seen && s.stamps <= t.stamps
    requires t.db.notes[id].columns.modifiedAt !in start.stamps
    ensures Evolves(start, t)
  {
    assert Grows(s.db, t.db);
    GrowsTransitive(start.db, s.db, t.db);
    assert FreshRows(start, t);
    hide Grows, FreshRows;
  }

  /** Why an edit was refused, as the rows are when the caller hears of it. */
  ghost predicate Refused(lib: Crdt, db: Db, id: NoteId, e: StoreError) {
    match e
    case NotFound(i) => i == id && id !in db.notes
    case VersionMismatch(i, expected, found) => i == id && SelectDoc(db, id) == Some(found) && found != expected
    case TagsWouldBeLost(i, tags) =>
      && i == id && id in db.notes && tags != []
      && exists rest :: Frontmatter.IsRest(lib.view(db.notes[id].doc).body, rest) && tags == Tags.ExtractTags(rest)
    case DuplicateId(_) => false
    case DocumentError => false
  }

  /** The version an edit asked for: the one it was given, or the one it read. */
  ghost predicate AskedFor(e: StoreError, expected: Option<Doc>, base: Doc) {
    e.VersionMismatch? ==> e.expected == if expected.Some? then expected.value else base
  }

  /**
   An edit of a body fails as a document error exactly if the note was there, on the version given,
   and the edit named a line or an item that was not.
   */
  ghost predicate Explained(db: Db, id: NoteId, body: Option<string>, expected: Option<Doc>, base: Doc,
                            r: Result<Fields>) {
    && (r.Err? && r.error.DocumentError?
        <==> id in db.notes && (expected.Some? ==> db.notes[id].doc == expected.value) && body.None?)
    && (r.Err? ==> AskedFor(r.error, expected, base))
  }

  /**
   What a local edit did, from before its first statement: it made the row that was read into
   `note`, or was refused and wrote nothing. With a stamp never used it was one more local step.
   */
  ghost predicate Edited(lib: Crdt, start: System, after: System, others: seq<Action>, conn: Conn,
                         id: NoteId, base: Doc, note: Fields, r: Result<Fields>) {
    var before := Run(lib, start, others);
    && Waited(lib, start, before, others, conn)
    && (conn == SYNC && note.modifiedAt !in start.stamps ==> Evolves(start, after))
    && match r
       case Ok(n) => n == note && Commits(lib, before, after, id, base, note)
       case Err(e) => after == before && Refused(lib, after.db, id, e)
  }

  /**
   What an operation did that read a note (after `read`), edited its body and wrote it back. It made
   the row, as `base`, into that note with `body` and all that derives from it; or `skip`ped an edit
   that changes nothing; or was refused. Only the first writes anything, and only to this row.
   */
  ghost predicate BodyStored(lib: Crdt, start: System, after: System, read: seq<Action>, others: seq<Action>,
                             conn: Conn, id: NoteId, base: Doc, body: string, skip: bool,
                             expected: Option<Doc>, now: Stamp, r: Result<Fields>) {
    var before := Run(lib, start, others);
    && read <= others
    && (conn == SYNC && now !in start.stamps ==> Evolves(start, after))
    && match r
       case Ok(n) =>
         && n.body == body && id in Run(lib, start, read).db.notes && (expected.Some? ==> base == expected.value)
         && if skip then after == before && SelectDoc(after.db, id) == Some(base) && n == lib.view(base)
            else n == Derivation.WithBody(lib.view(base), body, now) && Commits(lib, before, after, id, base, n)
                 && Derivation.BodyReplaced(lib.view(base), n, body, now)
       case Err(e) => after == before && (Refused(lib, after.db, id, e) || e.DocumentError?)
  }

  lemma EditStored(lib: Crdt, start: System, s: System, after: System, read: seq<Action>, others: seq<Action>,
                   conn: Conn, id: NoteId, base: Doc, body: string, expected: Option<Doc>, now: Stamp,
                   r: Result<Fields>)
    requires Waited(lib, start, s, read, conn) && id in s.db.notes && read <= others
    requires Edited(lib, start, after, others, conn, id, base, Derivation.WithBody(lib.view(base), body, now), r)
    requires r.Ok? && expected.Some? ==> base == expected.value
    ensures BodyStored(lib, start, after, read, others, conn, id, base, body, false, expected, now, r)
  {
    hide Run, Evolves, Refused, Commits, Derivation.BodyReplaced;
    Derivation.WithBodyReplaces(lib.view(base), body, now);
    hide Frontmatter.DerivedTags, Frontmatter.Rest, Frontmatter.Status, Derivation.DeriveTitle;
  }

  lemma NothingStored(lib: Crdt, start: System, s: System, read: seq<Action>, conn: Conn, id: NoteId, now: Stamp)
    requires Waited(lib, start, s, read, conn) && id in s.db.notes
    ensures var base := s.db.notes[id].doc;
      var n := lib.view(base);
      BodyStored(lib, start, s, read, read, conn, id, base, n.body, true, None, now, Ok(n))
  {
    hide Run, Evolves, Refused, Commits;
  }

  /** What `mutate` is called with (closures in the source). */
  datatype NoteChange = SetPinned(pinned: bool) | SetDeleted(deleted: bool) | SetType(noteType: string)

  /** The one field the change names and the stamp are new; a type is stored trimmed, and "note" for none. */
  ghost predicate ChangedOnly(change: NoteChange, was: Fields, n: Fields, now: Stamp) {
    && n.modifiedAt == now
    && n.id == was.id && n.title == was.title && n.tags == was.tags && n.author == was.author
    && n.createdAt == was.createdAt && n.status == was.status && n.body == was.body
    && n.pinned == (if change.SetPinned? then change.pinned else was.pinned)
    && n.deleted == (if change.SetDeleted? then change.deleted else was.deleted)
    && if !change.SetType? then n.noteType == was.noteType
       else if AllBlank(change.noteType) then n.noteType == "note"
       else n.noteType != "" && IsTrimAllOf(change.noteType, n.noteType)
  }

  lemma ChangesOnly(change: NoteChange, was: Fields, now: Stamp)
    ensures ChangedOnly(change, was, Changed(change, was, now), now) && Changed(change, was, now).id == was.id
  {
    hide IsWhitespace, IsTrimAllOf, Transfer.TrimAll, AllBlank;
    if change.SetType? {
      Transfer.TrimAllIs(change.noteType);
      Transfer.BlankTrims(change.noteType);
    }
  }

  function Changed(change: NoteChange, n: Fields, now: Stamp): Fields {
    match change
    case SetPinned(pinned) => n.(pinned := pinned, modifiedAt := now)
    case SetDeleted(deleted) => n.(deleted := deleted, modifiedAt := now)
    case SetType(noteType) =>
      var trimmed := Transfer.TrimAll(noteType);
      n.(noteType := if trimmed == "" then Derivation.DEFAULT_NOTE_TYPE else trimmed, modifiedAt := now)
  }

  class NoteStore {
    const lib: Crdt
    const conn: Conn
    var sys: System
    /** What the other connections do before each next statement of this one. */
    var schedule: seq<seq<Action>>
    var search: Index?
    /** Inside `bulk`: the state its transaction began from, and the index set aside meanwhile. */
    var savepoint: Option<System>
    var parked: Index?

    ghost predicate Valid()
      reads this, search, parked
    {
      && Lawful(lib) && Inv(lib, sys) && InTurn(schedule, conn) && conn !in sys.programs
      && (search != null ==> search.Valid())
      && (savepoint.Some? ==> BulkValid())
    }

    /** A connection to a database in any state it can be in, without a search index. */
    constructor Open(lib: Crdt, conn: Conn, sys: System, schedule: seq<seq<Action>>)
      requires Lawful(lib) && Inv(lib, sys) && conn !in sys.programs && InTurn(schedule, conn)
      ensures Valid() && this.lib == lib && this.conn == conn && this.sys == sys && this.schedule == schedule
      ensures search == null && savepoint == None && parked == null
    {
      this.lib, this.conn, this.sys, this.schedule := lib, conn, sys, schedule;
      search, savepoint, parked := null, None, null;
    }

    /** The same with the index that is kept beside the database. */
    constructor OpenDir(lib: Crdt, conn: Conn, sys: System, schedule: seq<seq<Action>>, index: Index)
      requires Lawful(lib) && Inv(lib, sys) && conn !in sys.programs && InTurn(schedule, conn) && index.Valid()
      ensures Valid() && this.lib == lib && this.conn == conn && this.sys == sys && this.schedule == schedule
      ensures search == index && savepoint == None && parked == null
      ensures index.Contents() == LiveEntries(lib, sys.db) ==> InStep()
    {
      this.lib, this.conn, this.sys, this.schedule := lib, conn, sys, schedule;
      search, savepoint, parked := index, None, null;
    }

    ghost predicate BulkValid()
      requires savepoint.Some?
      reads this, parked
    {
      && Inv(lib, savepoint.value) && conn !in savepoint.value.programs && search == null
      && (parked != null ==> parked.Valid())
    }

    /** The index that was set aside is in step with the rows as they were. */
    ghost predicate ParkedInStep()
      reads this, parked
    {
      savepoint.Some? && (parked != null ==> parked.Contents() == LiveEntries(lib, savepoint.value.db))
    }

    /** Searching finds exactly the notes that are not in the trash, as they are. */
    ghost predicate InStep()
      reads this, search
    {
      search != null ==> search.Contents() == LiveEntries(lib, sys.db)
    }

    predicate Indexable(defer: bool)
      reads this, search
    {
      search != null ==> if defer then search.CanDefer() else search.CanWrite()
    }

    /** No other connection will take a turn: none is due, or a transaction keeps them waiting. */
    ghost predicate Quiet()
      reads this
    {
      schedule == [] || savepoint.Some?
    }

    /** Who holds the writer of the index: an open batch of this connection, or a foreign process. */
    ghost function Writer(): (Option<seq<IndexOp>>, bool)
      reads this, search
    {
      if search == null then (None, false) else (search.pendingWriter, search.lockedElsewhere)
    }

    /** What an operation that writes a note does to the index. Where all was quiet nobody disturbed it. */
    twostate predicate Indexes(others: seq<Action>, defer: bool)
      reads this, search
    {
      && (old(Quiet()) ==> others == [] && schedule == old(schedule))
      && Writer().1 == old(Writer()).1 && (defer || Writer() == old(Writer()))
      && (others == [] && old(InStep()) && old(Indexable(defer)) ==> InStep())
    }

    /** What an operation that erases notes does to the index. */
    twostate predicate Unindexes(others: seq<Action>)
      reads this, search
    {
      && (old(Quiet()) ==> others == [] && schedule == old(schedule))
      && Writer().1 == old(Writer()).1 && (old(Writer()).0.None? ==> Writer().0.None?)
      && (others == [] && old(InStep()) && !old(Writer()).1 ==> InStep())
    }

    /** Undisturbed, and with no foreign writer, the index stays in step with the rows. */
    twostate predicate StaysInStep()
      reads this, search
    {
      && (old(schedule) == [] ==> schedule == []) && Writer().1 == old(Writer()).1
      && (old(schedule) == [] && old(InStep()) && !old(Writer()).1 ==> InStep())
    }

    /** The other connections' turn; inside a transaction they wait. */
    method Interfere() returns (ghost burst: seq<Action>)
      requires InTurn(schedule, conn)
      modifies this`sys, this`schedule
      ensures sys == Run(lib, old(sys), burst)
      ensures OneMesh(burst) && Others(burst, conn) && InTurn(schedule, conn)
      ensures |schedule| <= |old(schedule)| && (burst != [] ==> |schedule| < |old(schedule)|)
      ensures old(Quiet()) ==> burst == [] && schedule == old(schedule)
    {
      burst := [];
      if schedule != [] && savepoint.None? {
        var turn := schedule[0];
        burst := turn;
        sys := Run(lib, sys, turn);
        schedule := schedule[1..];
      }
    }

    /** The index follows one note that was just written; a failing index write is only logged. */
    method Reindex(f: Fields, defer: bool)
      requires search != null ==> search.Valid()
      modifies search
      ensures search != null ==> search.Valid()
      ensures search != null ==>
        (search.Contents() == if old(Indexable(defer)) then Reindexed(old(search.Contents()), f.id, f)
                              else old(search.Contents()))
      ensures Writer().1 == old(Writer()).1 && (defer || Writer() == old(Writer()))
    {
      if search != null {
        var ok;
        if f.deleted && defer { ok := search.RemoveNoteDeferred(f.id); }
        else if f.deleted { ok := search.RemoveNote(f.id); }
        else if defer { ok := search.IndexNoteDeferred(f); }
        else { ok := search.IndexNote(f); }
      }
    }

    /** `Interfere` inside the loop of `PutDoc`. */
    method Wait(ghost start: System, ghost others: seq<Action>, id: NoteId, ghost received: Doc, doc: Doc)
      returns (ghost burst: seq<Action>)
      requires Valid() && conn == SYNC && Looping(lib, start, sys, others, id, received, doc)
      modifies this`sys, this`schedule
      ensures Valid() && sys == Run(lib, old(sys), burst) && Looping(lib, start, sys, others + burst, id, received, doc)
      ensures Evolves(old(sys), sys)
      ensures RowWrites(lib, start, others + burst, id)
           == RowWrites(lib, start, others, id) + RowWrites(lib, old(sys), burst, id)
      ensures |schedule| <= |old(schedule)| && (burst != [] ==> |schedule| < |old(schedule)|)
      ensures burst == [] ==> sys == old(sys)
      ensures old(Quiet()) ==> burst == [] && schedule == old(schedule)
    {
      burst := Interfere();
      OthersAreLocal(burst);
      LoopLater(lib, start, old(sys), others, burst, id, received, doc);
      hide Run, RowWrites, Inv, Evolves, Local, OneMesh;
    }

    /** One pass of the `put_doc` loop: read and merge, check, write. `None` if the write found another row. */
    method Pass(ghost start: System, ghost others: seq<Action>, id: NoteId, ghost received: Doc, candidate: Doc,
                defer: bool)
      returns (note: Option<Fields>, doc: Doc, ghost burst: seq<Action>)
      requires Valid() && conn == SYNC && Looping(lib, start, sys, others, id, received, candidate)
      requires OfNote(received, id) && Hydrates(received)
      modifies this`sys, this`schedule, search
      ensures Valid()
      ensures note.Some? ==> PutOutcome(lib, start, Run(lib, start, others + burst), sys, id, received, note.value)
      ensures note.None? ==> Looping(lib, start, sys, others + burst, id, received, doc) && |schedule| < |old(schedule)|
      ensures RowWrites(lib, start, others + burst, id)
           >= RowWrites(lib, start, others, id) + if note.None? then 1 else 0
      ensures note.None? || Local(others + burst)
      ensures note.None? ==> burst != [] && Writer() == old(Writer())
      ensures old(Quiet()) ==> burst == [] && schedule == old(schedule)
      ensures note.Some? ==> Indexes(burst, defer)
      ensures |schedule| <= |old(schedule)|
    {
      hide Hydrates, OfNote, Inv, Run, RowWrites, Evolves, InTurn, Local, Carries, Looping, ReadAs;
      hide LiveEntries, PutOutcome, OneMesh, Others, Lawful, Merged, SelectDoc;
      burst := Wait(start, others, id, received, candidate);
      ghost var read := sys;
      var stored := SelectDoc(sys.db, id);
      doc := if stored.Some? && stored.value != candidate then stored.value + candidate else candidate;
      LoopReads(lib, start, sys, others + burst, id, received, candidate, stored, doc);
      ghost var second := Wait(start, others + burst, id, received, doc);
      Associative(others, burst, second);
      burst := burst + second;
      if id in sys.db.purged {
        LoopPurged(lib, start, sys, others + burst, id, received, doc, lib.view(doc));
        return Some(lib.view(doc)), doc, burst;
      }
      ReadLater(lib, read, sys, second, id, received, candidate, stored, doc);
      ghost var third;
      note, third := WriteOrLose(start, others + burst, id, received, candidate, read, second, stored, doc, defer);
      Associative(others, burst, third);
      burst := burst + third;
    }

    /** The write that ends a pass, on the row as it was in state `read`. `None` if it found another row. */
    method WriteOrLose(ghost start: System, ghost others: seq<Action>, id: NoteId, ghost received: Doc,
                       ghost candidate: Doc, ghost read: System, ghost since: seq<Action>,
                       stored: Option<Doc>, doc: Doc, defer: bool)
      returns (note: Option<Fields>, ghost burst: seq<Action>)
      requires Valid() && conn == SYNC && Looping(lib, start, sys, others, id, received, doc)
      requires OfNote(received, id) && Hydrates(received) && id !in sys.db.purged
      requires ReadAs(lib, read, sys, since, id, received, candidate, stored, doc)
      modifies this`sys, this`schedule, search
      ensures Valid()
      ensures note.Some? ==>
        && PutOutcome(lib, start, Run(lib, start, others + burst), sys, id, received, note.value)
        && Local(others + burst) && Indexes(burst, defer)
      ensures note.None? ==>
        && Looping(lib, start, sys, others + burst, id, received, doc) && Writer() == old(Writer())
        && (since != [] || burst != [])
      ensures RowWrites(lib, start, others + burst, id) + RowWrites(lib, read, since, id)
           >= RowWrites(lib, start, others, id) + if note.None? then 1 else 0
      ensures |schedule| <= |old(schedule)| && (burst != [] ==> |schedule| < |old(schedule)|)
      ensures old(Quiet()) ==> burst == [] && schedule == old(schedule)
    {
      hide Hydrates, OfNote, Inv, Run, RowWrites, Evolves, InTurn, Persists, Persisted, Local, Carries, Looping, ReadAs;
      hide LiveEntries, Reindexed, PutOutcome, OneMesh, Others, Lawful, PutSystem;
      ghost var check := sys;
      burst := Wait(start, others, id, received, doc);
      if Persists(sys.db, id, stored) {
        LoopWrites(lib, start, read, check, sys, others + burst, since, id, received, candidate, stored, doc);
        Write(id, stored, doc, defer);
        return Some(lib.view(doc)), burst;
      }
      LostRace(lib, read, check, sys, since, burst, id, received, candidate, stored, doc);
      note := None;
    }

    /** The statement that writes the row, and the index after it. */
    method Write(id: NoteId, stored: Option<Doc>, doc: Doc, defer: bool)
      requires search != null ==> search.Valid()
      modifies this`sys, search
      ensures sys == old(sys).(db := Persisted(lib, old(sys).db, id, stored, doc),
                               stamps := old(sys).stamps + {lib.view(doc).modifiedAt})
      ensures search != null ==> search.Valid()
      ensures search != null && old(Indexable(defer)) ==>
        search.Contents() == Reindexed(old(search.Contents()), lib.view(doc).id, lib.view(doc))
      ensures Writer().1 == old(Writer()).1 && (defer || Writer() == old(Writer()))
    {
      var note := lib.view(doc);
      sys := sys.(db := Persisted(lib, sys.db, id, stored, doc), stamps := sys.stamps + {note.modifiedAt});
      Reindex(note, defer);
    }

    /** Ids that reach this system from elsewhere are in use from then on: no new note will draw them. */
    method Arrive(ids: set<NoteId>)
      requires Valid()
      modifies this`sys
      ensures Valid() && sys == Arrived(old(sys), ids)
    {
      ArrivedInv(lib, sys, ids);
      hide Inv;
      sys := Arrived(sys, ids);
    }

    /**
     Receiving a document from sync, as one atomic merge into the row as the last interference left
     it. Every extra pass of the loop is paid for by another connection's write to this very row.
     */
    method PutDoc(received: Doc, defer: bool)
      returns (r: Result<Fields>, ghost others: seq<Action>, ghost passes: nat)
      requires Valid() && conn == SYNC
      requires Hydrates(received) ==> OfNote(received, lib.view(received).id)
      modifies this`sys, this`schedule, search
      ensures Valid() && Local(others)
      ensures r.Ok? <==> Hydrates(received)
      ensures r.Err? ==> sys == old(sys) && r.error == DocumentError
      ensures r.Ok? ==>
        var id := lib.view(received).id;
        var start := Arrived(old(sys), {id});
        && PutOutcome(lib, start, Run(lib, start, others), sys, id, received, r.value)
        && passes <= 1 + RowWrites(lib, start, others, id)
      ensures Indexes(others, defer)
    {
      others, passes := [], 0;
      if !Hydrates(received) { return Err(DocumentError), others, passes; }
      var id := lib.view(received).id;
      Arrive({id});
      ghost var start := sys;
      var doc, note := received, None;
      LoopStarts(lib, sys, id, received);
      hide Hydrates, OfNote, Inv, Run, RowWrites, Evolves, InTurn, Local, Looping, PutOutcome, LiveEntries;
      while note.None?
        invariant Valid()
        invariant note.None? ==> Looping(lib, start, sys, others, id, received, doc)
        invariant note.Some? ==> PutOutcome(lib, start, Run(lib, start, others), sys, id, received, note.value)
        invariant passes <= RowWrites(lib, start, others, id) + if note.None? then 0 else 1
        invariant note.Some? ==> Local(others) && Indexes(others, defer)
        invariant note.None? ==> Writer() == old(Writer())
        invariant passes == 0 ==> note.None? && others == [] && schedule == old(schedule)
        invariant passes == 0 ==> (old(InStep()) ==> InStep()) && (old(Indexable(defer)) ==> Indexable(defer))
        invariant passes > 0 && note.None? ==> others != [] && !old(Quiet())
        decreases |schedule| + if note.None? then 1 else 0
      {
        ghost var burst;
        note, doc, burst := Pass(start, others, id, received, doc, defer);
        others, passes := others + burst, passes + 1;
      }
      r := Ok(note.value);
    }

    // ---- local edits ----

    method Turn() returns (ghost burst: seq<Action>)
      requires Valid()
      modifies this`sys, this`schedule
      ensures Valid() && Waited(lib, old(sys), sys, burst, conn)
      ensures burst == [] ==> sys == old(sys)
      ensures |schedule| <= |old(schedule)| && (burst != [] ==> old(schedule) != [])
      ensures old(Quiet()) ==> burst == [] && schedule == old(schedule)
    {
      burst := Interfere();
      WaitedRun(lib, old(sys), burst, conn);
      hide Run, Inv, Waited, Others, OneMesh;
    }

    /**
     The compare-and-swap that ends every local edit: it lands only on the very document that was
     read, and a refusal names a document that is not the one expected.
     */
    method Persist(id: NoteId, base: Doc, note: Fields, ghost start: System)
      returns (r: Result<Fields>, ghost others: seq<Action>)
      requires Valid() && SelectDoc(sys.db, id) == Some(base) && note.id == id
      modifies this`sys, this`schedule, search
      ensures Valid()
      ensures Waited(lib, old(sys), Run(lib, old(sys), others), others, conn)
      ensures match r
        case Ok(n) => n == note && Commits(lib, Run(lib, old(sys), others), sys, id, base, note)
        case Err(e) => sys == Run(lib, old(sys), others) && e == WhyRefused(sys.db, id, base)
                       && Refused(lib, sys.db, id, e)
      ensures others == [] ==> r.Ok?
      ensures Indexes(others, false)
      ensures conn == SYNC && Evolves(start, old(sys)) && note.modifiedAt !in start.stamps ==> Evolves(start, sys)
    {
      hide Lawful, InTurn;
      hide Run, Inv, Evolves, Grows, LiveEntries, Reindexed, Committed, Commits, Refused, Waited, OneMesh, Others;
      others := Turn();
      ReadState(lib, old(sys), sys, others, conn);
      if Updates(sys.db, id, base) {
        CommitLands(lib, start, old(sys), sys, others, id, base, note, conn);
        sys := Committed(lib, sys, id, base, note);
        Reindex(note, false);
        return Ok(note), others;
      }
      ghost var lost, first := sys, others;
      others := Turn();
      CommitFails(lib, start, old(sys), lost, sys, first, others, id, base, conn);
      others := first + others;
      ReadState(lib, old(sys), sys, others, conn);
      r := Err(WhyRefused(sys.db, id, base));
    }

    method Mutate(id: NoteId, change: NoteChange, now: Stamp)
      returns (r: Result<Fields>, ghost others: seq<Action>, ghost base: Doc)
      requires Valid()
      modifies this`sys, this`schedule, search
      ensures Valid() && Edited(lib, old(sys), sys, others, conn, id, base, Changed(change, lib.view(base), now), r)
      ensures r.Ok? ==> ChangedOnly(change, lib.view(base), r.value, now)
      ensures r.Err? ==> AskedFor(r.error, None, base) && !r.error.TagsWouldBeLost?
      ensures others == [] ==> (r.Ok? <==> id in old(sys).db.notes)
      ensures Indexes(others, false)
    {
      hide ChangedOnly, Changed;
      hide Lawful, InTurn, OneMesh, Others, Edited, Run, Inv, Evolves, Grows, LiveEntries, Waited, Commits;
      others := Turn();
      base := {};
      if id !in sys.db.notes {
        RefusedEarly(lib, old(sys), sys, others, conn, id, base, Changed(change, lib.view(base), now), NotFound(id));
        return Err(NotFound(id)), others, base;
      }
      base := sys.db.notes[id].doc;
      RowViews(lib, sys, id);
      var note := Changed(change, lib.view(sys.db.notes[id].doc), now);
      ChangesOnly(change, lib.view(base), now);
      r, others := PersistAfter(old(sys), others, id, sys.db.notes[id].doc, note);
    }

    /** `Persist` after the statement that read the row, seen from before that statement. */
    method PersistAfter(ghost start: System, ghost waited: seq<Action>, id: NoteId, base: Doc, note: Fields)
      returns (r: Result<Fields>, ghost others: seq<Action>)
      requires Valid() && SelectDoc(sys.db, id) == Some(base) && note.id == id
      requires Waited(lib, start, sys, waited, conn)
      modifies this`sys, this`schedule, search
      ensures Valid() && Edited(lib, start, sys, others, conn, id, base, note, r)
      ensures waited <= others && Indexes(others[|waited|..], false)
      ensures r.Err? ==> r.error == WhyRefused(sys.db, id, base) && Refused(lib, sys.db, id, r.error)
      ensures (others == [] ==> r.Ok?) && (r.Ok? ==> r.value == note)
    {
      ghost var read := sys;
      hide Run, Inv, Evolves, Grows, LiveEntries, Commits, Refused;
      r, others := Persist(id, base, note, start);
      WaitedMore(lib, start, read, Run(lib, read, others), waited, others, conn);
      others := waited + others;
    }

    /**
     Replace a body: stored is exactly the requested body with everything derived from it, on the
     version the caller read if it named one, and never by dropping the note's last tag unasked.
     `start` and `waited` say what already happened in the operation this is part of.
     */
    method WriteBodyInner(ghost start: System, ghost waited: seq<Action>, id: NoteId, newBody: string,
                          allowUntagged: bool, expected: Option<Doc>, now: Stamp)
      returns (r: Result<Fields>, ghost others: seq<Action>, ghost base: Doc)
      requires Valid() && Waited(lib, start, sys, waited, conn)
      modifies this`sys, this`schedule, search
      ensures Valid()
      ensures Edited(lib, start, sys, others, conn, id, base, Derivation.WithBody(lib.view(base), newBody, now), r)
      ensures r.Ok? ==>
        MayReplace(lib.view(base).body, newBody, allowUntagged) && (expected.Some? ==> base == expected.value)
      ensures r.Ok? ==> Derivation.BodyReplaced(lib.view(base), r.value, newBody, now)
      ensures r.Err? && r.error.TagsWouldBeLost? ==>
        SelectDoc(sys.db, id) == Some(base) && !MayReplace(lib.view(base).body, newBody, allowUntagged)
      ensures r.Err? ==> Refused(lib, sys.db, id, r.error) && AskedFor(r.error, expected, base)
      ensures waited <= others && Indexes(others[|waited|..], false)
      ensures others == [] ==> (r.Ok? <==> WouldReplace(lib, old(sys).db, id, newBody, allowUntagged, expected))
    {
      hide Frontmatter.DerivedTags, Derivation.WithBody, Run, Inv, Evolves, Grows, LiveEntries, Commits, Waited;
      hide Lawful, InTurn, OneMesh, Others, Edited, Tags.Normalize, Refusal, WouldReplace, MayReplace, Refused;
      hide Derivation.BodyReplaced;
      ghost var burst := Turn();
      WaitedMore(lib, start, old(sys), sys, waited, burst, conn);
      others, base := waited + burst, if id in sys.db.notes then sys.db.notes[id].doc else {};
      var refusal := Refusal(lib, sys.db, id, newBody, allowUntagged, expected);
      RefusalIff(lib, sys.db, id, newBody, allowUntagged, expected);
      if refusal.Some? {
        r := Err(refusal.value);
        RefusedEarly(lib, start, sys, others, conn, id, base,
                     Derivation.WithBody(lib.view(base), newBody, now), refusal.value);
        return;
      }
      var found := sys.db.notes[id].doc;
      var n := lib.view(found);
      var body := SpliceTo(n.body, newBody);
      RowViews(lib, sys, id);
      SameId(n, body, now);
      Derivation.WithBodyReplaces(n, newBody, now);
      r, others := PersistAfter(start, others, id, found, Derivation.WithBody(n, body, now));
    }

    method UpdateNote(id: NoteId, body: string, now: Stamp)
      returns (r: Result<Fields>, ghost others: seq<Action>, ghost base: Doc)
      requires Valid()
      modifies this`sys, this`schedule, search
      ensures Valid()
      ensures Edited(lib, old(sys), sys, others, conn, id, base, Derivation.WithBody(lib.view(base), body, now), r)
      ensures r.Ok? ==> MayReplace(lib.view(base).body, body, false)
      ensures r.Err? ==> AskedFor(r.error, None, base)
      ensures r.Ok? ==> Derivation.BodyReplaced(lib.view(base), r.value, body, now)
      ensures others == [] ==> (r.Ok? <==> WouldReplace(lib, old(sys).db, id, body, false, None))
      ensures Indexes(others, false)
    {
      WaitedNot(lib, sys, conn);
      r, others, base := WriteBodyInner(sys, [], id, body, false, None, now);
    }

    /** The editor's write: it commits only onto the version its caller read. */
    method UpdateNoteIfVersion(id: NoteId, body: string, expected: Doc, now: Stamp)
      returns (r: Result<Fields>, ghost others: seq<Action>)
      requires Valid()
      modifies this`sys, this`schedule, search
      ensures Valid()
      ensures match r
        case Ok(n) => n == Derivation.WithBody(lib.view(expected), body, now)
                      && Commits(lib, Run(lib, old(sys), others), sys, id, expected, n)
                      && Derivation.BodyReplaced(lib.view(expected), n, body, now)
        case Err(e) => sys == Run(lib, old(sys), others) && Refused(lib, sys.db, id, e)
                       && AskedFor(e, Some(expected), expected)
      ensures others == [] ==> (r.Ok? <==> WouldReplace(lib, old(sys).db, id, body, false, Some(expected)))
      ensures conn == SYNC && now !in old(sys).stamps ==> Evolves(old(sys), sys)
      ensures Indexes(others, false)
    {
      hide Commits, Run, Refused, Waited, Evolves, Derivation.BodyReplaced;
      WaitedNot(lib, sys, conn);
      ghost var base;
      r, others, base := WriteBodyInner(sys, [], id, body, false, Some(expected), now);
    }

    /** `get_note`: one statement. */
    method GetNote(id: NoteId) returns (r: Option<Fields>, ghost read: seq<Action>)
      requires Valid()
      modifies this`sys, this`schedule
      ensures Valid() && Waited(lib, old(sys), sys, read, conn)
      ensures (read == [] ==> sys == old(sys)) && (old(Quiet()) ==> read == [] && schedule == old(schedule))
      ensures r == if id in sys.db.notes then Some(lib.view(sys.db.notes[id].doc)) else None
    {
      read := Turn();
      r := if id in sys.db.notes then Some(lib.view(sys.db.notes[id].doc)) else None;
    }

    method GetDocBytes(id: NoteId) returns (r: Option<Doc>, ghost read: seq<Action>)
      requires Valid()
      modifies this`sys, this`schedule
      ensures Valid() && Waited(lib, old(sys), sys, read, conn) && r == SelectDoc(sys.db, id)
      ensures (read == [] ==> sys == old(sys)) && (old(Quiet()) ==> read == [] && schedule == old(schedule))
    {
      read := Turn();
      r := SelectDoc(sys.db, id);
    }

    method GetModifiedAt(id: NoteId) returns (r: Option<Stamp>, ghost read: seq<Action>)
      requires Valid()
      modifies this`sys, this`schedule
      ensures Valid() && Waited(lib, old(sys), sys, read, conn) && r == SelectStamp(sys.db, id)
      ensures (read == [] ==> sys == old(sys)) && (old(Quiet()) ==> read == [] && schedule == old(schedule))
    {
      read := Turn();
      r := SelectStamp(sys.db, id);
    }

    method TombstoneDocBytes() returns (r: Option<Doc>, ghost read: seq<Action>)
      requires Valid()
      modifies this`sys, this`schedule
      ensures Valid() && Waited(lib, old(sys), sys, read, conn) && r == sys.db.tombstones
      ensures (read == [] ==> sys == old(sys)) && (old(Quiet()) ==> read == [] && schedule == old(schedule))
    {
      read := Turn();
      r := sys.db.tombstones;
    }

    method ListAllIds() returns (ids: set<NoteId>, ghost read: seq<Action>)
      requires Valid()
      modifies this`sys, this`schedule
      ensures Valid() && Waited(lib, old(sys), sys, read, conn) && ids == sys.db.notes.Keys
      ensures old(Quiet()) ==> read == [] && schedule == old(schedule)
    {
      read := Turn();
      ids := sys.db.notes.Keys;
    }

    /** The second half of an operation that edits the body it has read; an unchanged body may be left alone. */
    method StoreBody(ghost start: System, ghost read: seq<Action>, id: NoteId, body: string,
                     allowUntagged: bool, maySkip: bool, expected: Option<Doc>, now: Stamp)
      returns (r: Result<Fields>, ghost others: seq<Action>, ghost base: Doc)
      requires Valid() && Waited(lib, start, sys, read, conn) && id in sys.db.notes && (maySkip ==> expected.None?)
      modifies this`sys, this`schedule, search
      ensures Valid()
      ensures BodyStored(lib, start, sys, read, others, conn, id, base, body,
                         maySkip && BodyAt(lib, old(sys), id) == body, expected, now, r)
      ensures read <= others && Indexes(others[|read|..], false)
      ensures r.Err? ==> Refused(lib, sys.db, id, r.error) && AskedFor(r.error, expected, base)
      ensures others == [] ==> (r.Ok? <==> (maySkip && BodyAt(lib, old(sys), id) == body)
                                           || WouldReplace(lib, old(sys).db, id, body, allowUntagged, expected))
    {
      var n := lib.view(sys.db.notes[id].doc);
      if maySkip && n.body == body {
        NothingStored(lib, start, sys, read, conn, id, now);
        return Ok(n), read, sys.db.notes[id].doc;
      }
      hide Waited, Edited, BodyStored, Run, Derivation.WithBody, LiveEntries, Inv, Lawful, InTurn, OneMesh, Others;
      ghost var s := sys;
      r, others, base := WriteBodyInner(start, read, id, body, allowUntagged, expected, now);
      EditStored(lib, start, s, sys, read, others, conn, id, base, body, expected, now, r);
    }

    /**
     The operations that read a note, edit its body and write it back. Only `edit_lines` may be
     given the version its caller read, and only the two tag operations skip an edit of nothing.
     */
    method EditBody(id: NoteId, edit: BodyEdit, expected: Option<Doc>, now: Stamp)
      returns (r: Result<Fields>, ghost read: seq<Action>, ghost others: seq<Action>, ghost base: Doc)
      requires Valid() && (expected.Some? ==> edit.PutLines?)
      modifies this`sys, this`schedule, search
      ensures Valid()
      ensures var was := BodyAt(lib, Run(lib, old(sys), read), id);
        var body := EditedBody(edit, was);
        && BodyStored(lib, old(sys), sys, read, others, conn, id, base, if body.Some? then body.value else "",
                      (edit.PutTag? || edit.DropTag?) && body == Some(was), expected, now, r)
        && Explained(Run(lib, old(sys), read).db, id, body, expected, base, r) && (body.None? ==> r.Err?)
      ensures read <= others
      ensures others == [] ==> (r.Ok? <==> EditGoes(lib, old(sys).db, id, edit, expected))
      ensures Indexes(others, false)
    {
      hide BodyStored, LiveEntries, Inv, EditedBody, Waited, Run, WouldReplace, Evolves, EditGoes;
      hide Lawful, InTurn, OneMesh, Others;
      var note;
      note, read := GetNote(id);
      base := {};
      EditGoesIff(lib, old(sys).db, id, edit, expected);
      ReadState(lib, old(sys), sys, read, conn);
      if note.None? {
        EditRefused(lib, old(sys), sys, read, conn, id, edit, expected, now, NotFound(id));
        return Err(NotFound(id)), read, read, base;
      }
      var found := sys.db.notes[id].doc;
      if expected.Some? && expected.value != found {
        var conflict := VersionMismatch(id, expected.value, found);
        EditRefused(lib, old(sys), sys, read, conn, id, edit, expected, now, conflict);
        return Err(conflict), read, read, base;
      }
      var body := RunEdit(edit, note.value.body);
      if body.None? {
        EditRefused(lib, old(sys), sys, read, conn, id, edit, expected, now, DocumentError);
        return Err(DocumentError), read, read, base;
      }
      var maySkip := edit.PutTag? || edit.DropTag?;
      r, others, base := StoreBody(old(sys), read, id, body.value, edit.DropTag?, maySkip, expected, now);
    }

    /** The tags of the body gain this one, last, if it was not among them. */
    method AddTag(id: NoteId, tag: string, now: Stamp)
      returns (r: Result<Fields>, ghost read: seq<Action>, ghost others: seq<Action>, ghost base: Doc)
      requires Valid()
      modifies this`sys, this`schedule, search
      ensures Valid()
      ensures var was := BodyAt(lib, Run(lib, old(sys), read), id);
        var body := Tags.EnsureTag(was, tag);
        && BodyStored(lib, old(sys), sys, read, others, conn, id, base, body, body == was, None, now, r)
        && Explained(Run(lib, old(sys), read).db, id, Some(body), None, base, r)
        && (r.Ok? ==> Tags.IsStamped(was, tag, r.value.body))
        && (r.Ok? && Tags.ValidTag(tag) ==>
            Tags.ExtractTags(r.value.body)
            == if tag in Tags.ExtractTags(was) then Tags.ExtractTags(was) else Tags.ExtractTags(was) + [tag])
        && (r.Ok? && Tags.ValidTag(tag) && body != was ==> tag in r.value.tags)
      ensures others == [] ==> (r.Ok? <==> EditGoes(lib, old(sys).db, id, PutTag(tag), None))
      ensures Indexes(others, false)
    {
      hide BodyStored, Inv, Run, Tags.EnsureTag, Tags.ExtractTags, Tags.ValidTag, Tags.IsStamped, LiveEntries, EditGoes;
      r, read, others, base := EditBody(id, PutTag(tag), None, now);
      ghost var was := BodyAt(lib, Run(lib, old(sys), read), id);
      ghost var body := Tags.EnsureTag(was, tag);
      StoredBody(lib, old(sys), sys, read, others, conn, id, base, body, body == was, None, now, r);
      Tags.StampedIs(was, tag);
      if Tags.ValidTag(tag) {
        Tags.EnsureTagExact(was, tag);
        if body != was {
          Stamped(was, tag);
          StoredTags(lib, old(sys), sys, read, others, conn, id, base, body, None, now, r);
        }
      }
    }

    /** The body outside the removal ranges is stored, even if that leaves the note untagged. */
    method RemoveTag(id: NoteId, tag: string, now: Stamp)
      returns (r: Result<Fields>, ghost read: seq<Action>, ghost others: seq<Action>, ghost base: Doc)
      requires Valid()
      modifies this`sys, this`schedule, search
      ensures Valid()
      ensures var was := BodyAt(lib, Run(lib, old(sys), read), id);
        var body := Removal.Keep(was, 0, Removal.Removed(was, tag));
        && BodyStored(lib, old(sys), sys, read, others, conn, id, base, body, body == was, None, now, r)
        && Explained(Run(lib, old(sys), read).db, id, Some(body), None, base, r)
        && (r.Ok? ==> UncoveredTags.IsWithout(was, tag, r.value.body))
      ensures others == [] ==> (r.Ok? <==> id in old(sys).db.notes)
      ensures Indexes(others, false)
    {
      hide BodyStored, Inv, Run, LiveEntries, UncoveredTags.IsWithout, Removal.Removed, Removal.Keep;
      r, read, others, base := EditBody(id, DropTag(tag), None, now);
      ghost var was := BodyAt(lib, Run(lib, old(sys), read), id);
      ghost var body := Removal.Keep(was, 0, Removal.Removed(was, tag));
      StoredBody(lib, old(sys), sys, read, others, conn, id, base, body, body == was, None, now, r);
      UncoveredTags.LeftIsWithout(was, tag);
    }

    /** Exactly the named lines, which must exist, are replaced, on the version given if one is. */
    method EditLines(id: NoteId, expected: Option<Doc>, first: nat, last: nat, text: string, now: Stamp)
      returns (r: Result<Fields>, ghost read: seq<Action>, ghost others: seq<Action>, ghost base: Doc)
      requires Valid()
      modifies this`sys, this`schedule, search
      ensures Valid()
      ensures var was := BodyAt(lib, Run(lib, old(sys), read), id);
        var ls, body := Lines(was), EditedBody(PutLines(first, last, text), was);
        && BodyStored(lib, old(sys), sys, read, others, conn, id, base, if body.Some? then body.value else "",
                      false, expected, now, r)
        && Explained(Run(lib, old(sys), read).db, id, body, expected, base, r)
        && (body.Some? <==> 1 <= first <= last <= |ls|) && (r.Ok? ==> body.Some?)
        && (r.Ok? && text != "" ==> Lines(r.value.body) == ls[..first - 1] + Lines(text) + ls[last..])
        && (r.Ok? && text == "" && last - first + 1 < |ls| ==> Lines(r.value.body) == ls[..first - 1] + ls[last..])
        && (r.Ok? && text == "" && last - first + 1 == |ls| ==> r.value.body == "")
      ensures others == [] ==> (r.Ok? <==> EditGoes(lib, old(sys).db, id, PutLines(first, last, text), expected))
      ensures Indexes(others, false)
    {
      hide Inv, Run, LiveEntries, Refused, Lines, BodyStored, EditGoes;
      r, read, others, base := EditBody(id, PutLines(first, last, text), expected, now);
      ghost var was := BodyAt(lib, Run(lib, old(sys), read), id);
      ghost var body := EditedBody(PutLines(first, last, text), was);
      if body.Some? {
        StoredBody(lib, old(sys), sys, read, others, conn, id, base, body.value, false, expected, now, r);
      }
      Splice.ReplacedLines(was, first, last, text);
    }

    /** Exactly the states of the given items change, and it fails when one of them is not there. */
    method SetTodosChecked(id: NoteId, indices: seq<nat>, checked: bool, now: Stamp)
      returns (r: Result<Fields>, ghost read: seq<Action>, ghost others: seq<Action>, ghost base: Doc)
      requires Valid()
      modifies this`sys, this`schedule, search
      ensures Valid()
      ensures var was := BodyAt(lib, Run(lib, old(sys), read), id);
        var items, body := Todos.Items(was), EditedBody(CheckItems(indices, checked), was);
        && BodyStored(lib, old(sys), sys, read, others, conn, id, base, if body.Some? then body.value else "",
                      false, None, now, r)
        && Explained(Run(lib, old(sys), read).db, id, body, None, base, r)
        && (body.Some? <==> forall k | k in indices :: k < |items|)
        && (r.Ok? ==>
            && body.Some?
            && Todos.Items(r.value.body) == Todos.MarkItems(items, Todos.ToSet(indices), checked)
            && var ls, lt := Lines(was), Lines(r.value.body);
            && |lt| == |ls|
            && (forall k | 0 <= k < |ls| :: TodoText.LineChecked(ls, k, indices, checked, lt[k]))
            && r.value.tags == Frontmatter.DerivedTags(was))
      ensures others == [] ==>
        (r.Ok? <==> && id in old(sys).db.notes
                    && forall k | k in indices :: k < |Todos.Items(BodyAt(lib, old(sys), id))|)
      ensures Indexes(others, false)
    {
      hide Inv, Run, LiveEntries, BodyStored, Frontmatter.DerivedTags;
      hide Todos.Items, Todos.SetTodosChecked, Todos.MarkItems, TodoText.LineChecked, Lines;
      r, read, others, base := EditBody(id, CheckItems(indices, checked), None, now);
      ghost var was := BodyAt(lib, Run(lib, old(sys), read), id);
      ghost var body := EditedBody(CheckItems(indices, checked), was);
      Todos.CheckedSet(was, indices, checked);
      TodoText.CheckedSetText(was, indices, checked);
      TodoTags.CheckingKeepsTags(was, indices, checked);
      RunNothing(lib, old(sys), read);
      if body.Some? {
        StoredBody(lib, old(sys), sys, read, others, conn, id, base, body.value, false, None, now, r);
        StoredTags(lib, old(sys), sys, read, others, conn, id, base, body.value, None, now, r);
      }
      assert forall k | k in indices :: k in Todos.ToSet(indices);
    }

    method SetTodoText(id: NoteId, index: nat, text: string, now: Stamp)
      returns (r: Result<Fields>, ghost read: seq<Action>, ghost others: seq<Action>, ghost base: Doc)
      requires Valid()
      modifies this`sys, this`schedule, search
      ensures Valid()
      ensures var was := BodyAt(lib, Run(lib, old(sys), read), id);
        var items, body := Todos.Items(was), EditedBody(RenameItem(index, text), was);
        && BodyStored(lib, old(sys), sys, read, others, conn, id, base, if body.Some? then body.value else "",
                      false, None, now, r)
        && Explained(Run(lib, old(sys), read).db, id, body, None, base, r)
        && (body.Some? <==> index < |items|)
        && (r.Ok? ==>
            && body.Some?
            && Todos.Items(r.value.body) == items[index := items[index].(text := Todos.CleanText(text))]
            && TodoText.ItemRenamed(Lines(was), index, text, Lines(r.value.body)))
      ensures others == [] ==> (r.Ok? <==> EditGoes(lib, old(sys).db, id, RenameItem(index, text), None))
      ensures Indexes(others, false)
    {
      hide Inv, Run, LiveEntries, Todos.Items, Todos.SetTodoText, Todos.CleanText, BodyStored, EditGoes;
      hide TodoText.ItemRenamed, Lines;
      r, read, others, base := EditBody(id, RenameItem(index, text), None, now);
      ghost var was := BodyAt(lib, Run(lib, old(sys), read), id);
      ghost var body := EditedBody(RenameItem(index, text), was);
      Todos.RenamedItems(was, index, text);
      if body.Some? {
        TodoText.RenamedLines(was, index, text);
        StoredBody(lib, old(sys), sys, read, others, conn, id, base, body.value, false, None, now, r);
      }
    }

    method AddTodo(id: NoteId, text: string, now: Stamp)
      returns (r: Result<Fields>, ghost read: seq<Action>, ghost others: seq<Action>, ghost base: Doc)
      requires Valid()
      modifies this`sys, this`schedule, search
      ensures Valid()
      ensures var was := BodyAt(lib, Run(lib, old(sys), read), id);
        && BodyStored(lib, old(sys), sys, read, others, conn, id, base, Todos.AppendTodo(was, text),
                      false, None, now, r)
        && Explained(Run(lib, old(sys), read).db, id, Some(Todos.AppendTodo(was, text)), None, base, r)
        && (r.Ok? && OneLine(text) ==>
            Todos.Items(r.value.body)
            == Todos.Items(was) + [Todos.TodoItem(|Todos.Items(was)|, StripCr(Todos.ItemText(text)), false)]
            && exists t :: TodoText.IsItemText(text, t)
                           && TodoText.ItemAdded(Lines(was), "- [ ] " + t, Lines(r.value.body)))
      ensures others == [] ==> (r.Ok? <==> EditGoes(lib, old(sys).db, id, AddItem(text), None))
      ensures Indexes(others, false)
    {
      hide BodyStored, Inv, Run, LiveEntries, Todos.Items, Todos.AppendTodo, Todos.ItemText, StripCr, EditGoes;
      hide TodoText.IsItemText, TodoText.ItemAdded, Lines;
      r, read, others, base := EditBody(id, AddItem(text), None, now);
      ghost var was := BodyAt(lib, Run(lib, old(sys), read), id);
      StoredBody(lib, old(sys), sys, read, others, conn, id, base, Todos.AppendTodo(was, text), false, None, now, r);
      if OneLine(text) {
        Todos.AppendedItem(was, text);
        TodoText.AppendedText(was, text);
      }
    }

    // ---- creating, purging ----

    /**
     `insert_note`: one `INSERT OR IGNORE`, refused when the id has a row. It does not ask whether the
     id was purged: such a note comes back, and the store is no longer what its other operations need.
     */
    method InsertNote(note: Fields) returns (r: Result<Fields>)
      requires Valid()
      modifies this`sys, search
      ensures r == if note.id in old(sys).db.notes then Err(DuplicateId(note.id)) else Ok(note)
      ensures sys == if r.Ok? then Created(lib, old(sys), note) else old(sys)
      ensures r.Ok? ==> RowAdded(old(sys).db, sys.db, note.id, {lib.edit({}, note)}, note)
      ensures r.Ok? ==> note.id in sys.db.notes && lib.view(sys.db.notes[note.id].doc) == note
      ensures Writer() == old(Writer()) && (old(InStep()) && old(Indexable(false)) ==> InStep())
      ensures note.id !in old(sys).seen || note.id in old(sys).db.notes ==> Valid()
      ensures r.Ok? && note.id in old(sys).db.purged ==> !Inv(lib, sys)
    {
      hide Inv, Lawful, InTurn, LiveEntries, Reindexed, Created, OneMesh, Others, RowAdded;
      if note.id in sys.db.notes { return Err(DuplicateId(note.id)); }
      InsertsRow(lib, sys, note);
      if note.id !in sys.seen { CreateKeeps(lib, sys, note, conn); }
      if note.id in sys.db.purged { BroughtBack(lib, Created(lib, sys, note), note.id); }
      if note.deleted { NotLive(lib, sys.db, note); }
      sys := Created(lib, sys, note);
      if !note.deleted { Reindex(note, false); }
      r := Ok(note);
    }

    /** `create_note`: a fresh UUID, and metadata derived from the body. */
    method CreateNote(body: string, author: string, now: Stamp) returns (r: Result<Fields>, ghost others: seq<Action>)
      requires Valid()
      modifies this`sys, this`schedule, search
      ensures Valid() && Waited(lib, old(sys), Run(lib, old(sys), others), others, conn)
      ensures r.Ok? && r.value == Derivation.NewNote(r.value.id, body, author, now)
      ensures Derivation.IsNew(r.value, r.value.id, body, author, now)
      ensures var before, note := Run(lib, old(sys), others), r.value;
        && note.id !in before.seen && sys == Created(lib, before, note)
        && RowAdded(before.db, sys.db, note.id, {lib.edit({}, note)}, note)
        && note.id in sys.db.notes && lib.view(sys.db.notes[note.id].doc) == note
      ensures conn == SYNC && now !in old(sys).stamps ==> Evolves(old(sys), sys)
      ensures Indexes(others, false)
    {
      hide Lawful, InTurn, OneMesh, Others, Inv, LiveEntries, Waited, Run, Derivation.NewNote, Evolves, Created;
      hide Derivation.IsNew, RowAdded;
      others := Turn();
      ReadState(lib, old(sys), sys, others, conn);
      var id := DrawId(sys.seen);
      var note := Derivation.NewNote(id, body, author, now);
      NewNoteShape(id, body, author, now);
      Derivation.NewNoteIsNew(id, body, author, now);
      CreateKeeps(lib, sys, note, conn);
      CreateEvolves(lib, old(sys), sys, others, note, conn);
      KeysSeen(lib, sys);
      r := InsertNote(note);
    }

    /**
     `purge_rows`: one transaction, which cannot begin inside another, then the index. Without a
     foreign writer the index loses exactly the purged ids and nothing stays deferred.
     */
    method PurgeRowsNow(ids: set<NoteId>, tombstones: Doc) returns (erased: Option<nat>)
      requires search != null ==> search.Valid()
      modifies this`sys, search
      ensures sys == if savepoint.Some? then old(sys) else old(sys).(db := PurgeRows(old(sys).db, ids, tombstones))
      ensures erased == if savepoint.Some? then None else Some(|ids * old(sys).db.notes.Keys|)
      ensures search != null ==> search.Valid()
      ensures savepoint.None? ==> Writer().0.None?
      ensures Unindexes([])
    {
      if savepoint.Some? { return None; }
      PurgedReindexed(lib, sys.db, ids, tombstones);
      hide LiveEntries;
      var db, count;
      db, count := EraseAll(sys.db, ids);
      sys := sys.(db := db.(tombstones := Some(tombstones)));
      if search != null { DropFromIndex(search, ids); }
      erased := Some(count);
    }

    /**
     `purge_ids`. The tombstones are read, and replaced later without a compare-and-swap: they stay
     equal to the purged ids exactly when no other purge slipped in between.
     */
    method PurgeIds(ids: set<NoteId>, hash: nat)
      returns (erased: Option<nat>, ghost others: seq<Action>, ghost base: Doc)
      requires Valid() && ids <= sys.db.notes.Keys + sys.db.purged
      modifies this`sys, this`schedule, search
      ensures Valid() && Waited(lib, old(sys), Run(lib, old(sys), others), others, conn)
      ensures PurgedAll(lib, old(sys), sys, ids, others, hash, base, savepoint.Some?, erased)
      ensures conn == SYNC ==> Evolves(old(sys), sys)
      ensures others == [] && Tombstoned(old(sys).db) == old(sys).db.purged ==> Tombstoned(sys.db) == sys.db.purged
      ensures Unindexes(others)
    {
      hide LiveEntries, Lawful, InTurn, OneMesh, Others, Inv;
      others, base, erased := [], {}, Some(0);
      WaitedNot(lib, sys, conn);
      if ids == {} {
        assert ids * sys.db.notes.Keys == {};
        EvolvesRefl(sys);
        return;
      }
      hide Run, Inv, Waited, LiveEntries, Erased, Evolves, Grows, Tombstoned, InTurn, PurgeOutcome, PurgedAll;
      ghost var first := Turn();
      base := TombstoneDoc(sys.db);
      erased, others := ReplaceTombstones(old(sys), first, ids, TombstoneDoc(sys.db), hash);
    }

    /** The transaction that ends a purge, on the tombstones as they were read. */
    method ReplaceTombstones(ghost start: System, ghost first: seq<Action>, ids: set<NoteId>, base: Doc, hash: nat)
      returns (erased: Option<nat>, ghost others: seq<Action>)
      requires Valid() && Inv(lib, start) && Waited(lib, start, sys, first, conn) && base == TombstoneDoc(sys.db)
      requires ids != {} && ids <= start.db.notes.Keys + start.db.purged
      modifies this`sys, this`schedule, search
      ensures Valid() && Waited(lib, start, Run(lib, start, others), others, conn)
      ensures PurgedAll(lib, start, sys, ids, others, hash, base, savepoint.Some?, erased)
      ensures conn == SYNC ==> Evolves(start, sys)
      ensures first <= others && Unindexes(others[|first|..])
      ensures others == [] && Tombstoned(start.db) == start.db.purged ==> Tombstoned(sys.db) == sys.db.purged
    {
      hide Run, Inv, Waited, LiveEntries, Erased, Evolves, Grows, Tombstoned, InTurn, PurgeOutcome;
      ghost var read := sys;
      ghost var second := Turn();
      others := first + second;
      PurgeStep(lib, start, read, sys, first, second, ids, Erase(hash, ids), conn);
      hide PurgeRows, TombstoneDoc;
      erased := PurgeRowsNow(ids, base + {Erase(hash, ids)});
    }

    /** Empty Trash: what was in the trash at the first statement is gone for good, and nothing else. */
    method PurgeDeleted(hash: nat)
      returns (erased: Option<nat>, ghost selected: seq<Action>, ghost others: seq<Action>, ghost base: Doc)
      requires Valid()
      modifies this`sys, this`schedule, search
      ensures Valid() && selected <= others
      ensures var ids := Trashed(Run(lib, old(sys), selected).db);
        PurgedAll(lib, old(sys), sys, ids, others, hash, base, savepoint.Some?, erased)
      ensures savepoint.None? ==>
        Erases(lib, Run(lib, old(sys), selected).db, Run(lib, old(sys), others).db, sys.db, {Queries.Trash})
      ensures savepoint.None? && others == [] ==>
        Queries.List(sys.db, Queries.Trash) == map[]
      ensures conn == SYNC ==> Evolves(old(sys), sys)
      ensures Unindexes(others)
    {
      hide Inv, Run, Evolves, Grows, InTurn, PurgedAll, LiveEntries, Lawful, OneMesh, Others, Erases;
      hide ColumnsMatch, Queries.List;
      ghost var start := sys;
      selected := Turn();
      var ids := Trashed(sys.db);
      ghost var more;
      ghost var mid := sys;
      erased, more, base := PurgeIds(ids, hash);
      others := selected + more;
      PurgedFromStart(lib, start, mid, sys, ids, selected, more, hash, base, savepoint.Some?, erased);
      if savepoint.None? {
        TrashIsWanted(lib, mid);
        PurgeErases(lib, start, mid.db, sys, ids, others, hash, base, erased, {Queries.Trash});
        if others == [] {
          UndisturbedRun(lib, start, selected, others);
          NoneListed(lib, sys, mid.db, {Queries.Trash}, Queries.Trash);
        }
      }
      if conn == SYNC { EvolvesTransitive(start, mid, sys); }
    }

    /** Delete Project: every note carrying the tag, trashed ones included. */
    method PurgeTag(tag: string, hash: nat)
      returns (erased: Option<nat>, ghost selected: seq<Action>, ghost others: seq<Action>, ghost base: Doc)
      requires Valid()
      modifies this`sys, this`schedule, search
      ensures Valid() && selected <= others
      ensures var ids := WithTag(Run(lib, old(sys), selected).db, tag);
        PurgedAll(lib, old(sys), sys, ids, others, hash, base, savepoint.Some?, erased)
      ensures savepoint.None? ==>
        Erases(lib, Run(lib, old(sys), selected).db, Run(lib, old(sys), others).db, sys.db,
               {Queries.Tagged(tag), Queries.TrashedTagged(tag)})
      ensures savepoint.None? && others == [] ==>
        Queries.List(sys.db, Queries.Tagged(tag)) == map[] && Queries.List(sys.db, Queries.TrashedTagged(tag)) == map[]
      ensures conn == SYNC ==> Evolves(old(sys), sys)
      ensures Unindexes(others)
    {
      hide Inv, Run, Evolves, Grows, InTurn, PurgedAll, LiveEntries, Lawful, OneMesh, Others, Erases;
      hide ColumnsMatch, Queries.List;
      ghost var start := sys;
      selected := Turn();
      var ids := WithTag(sys.db, tag);
      ghost var more;
      ghost var mid := sys;
      erased, more, base := PurgeIds(ids, hash);
      others := selected + more;
      PurgedFromStart(lib, start, mid, sys, ids, selected, more, hash, base, savepoint.Some?, erased);
      if savepoint.None? {
        ghost var filters := {Queries.Tagged(tag), Queries.TrashedTagged(tag)};
        TaggedIsWanted(lib, mid, tag);
        PurgeErases(lib, start, mid.db, sys, ids, others, hash, base, erased, filters);
        if others == [] {
          UndisturbedRun(lib, start, selected, others);
          NoneListed(lib, sys, mid.db, filters, Queries.Tagged(tag));
          NoneListed(lib, sys, mid.db, filters, Queries.TrashedTagged(tag));
        }
      }
      if conn == SYNC { EvolvesTransitive(start, mid, sys); }
    }

    /** A peer's purges: every id they list is erased here and the document kept as it is. */
    method AdoptTombstoneDoc(doc: Doc) returns (erased: Option<nat>, ghost others: seq<Action>)
      requires Valid() && conn == SYNC
      modifies this`sys, this`schedule, search
      ensures Valid()
      ensures var start := Arrived(old(sys), Erased(doc));
        var before := Run(lib, start, others);
        && Waited(lib, start, before, others, conn)
        && sys == (if savepoint.Some? then before else before.(db := PurgeRows(before.db, Erased(doc), doc)))
        && erased == if savepoint.Some? then None else Some(|Erased(doc) * before.db.notes.Keys|)
      ensures Unindexes(others) && (savepoint.None? ==> Writer().0.None?)
    {
      hide Run, Inv, Waited, LiveEntries, Erased, InTurn, Lawful, PurgeRows, OneMesh, Others;
      Arrive(Erased(doc));
      ghost var start := sys;
      others := Turn();
      ReadState(lib, start, sys, others, conn);
      SeenGrows(lib, start, sys, others, conn);
      PurgeInv(lib, sys, Erased(doc), doc, conn);
      erased := PurgeRowsNow(Erased(doc), doc);
    }

    // ---- bulk: one transaction, one index rebuild ----

    /** `BEGIN IMMEDIATE`: fails inside a transaction; the index is set aside. */
    method BeginBulk() returns (ok: bool)
      requires Valid()
      modifies this`savepoint, this`parked, this`search
      ensures Valid() && (ok <==> old(savepoint).None?)
      ensures ok ==> savepoint == Some(sys) && parked == old(search) && search == null
      ensures ok && old(InStep()) ==> ParkedInStep()
      ensures !ok ==> savepoint == old(savepoint) && parked == old(parked) && search == old(search)
    {
      ok := savepoint.None?;
      if ok {
        savepoint := Some(sys);
        parked, search := search, null;
      }
    }

    /** The body of one listed note, read in a statement of its own. */
    method ReadEntry(ghost start: System, ghost others: seq<Action>, ghost n: nat, listed: Db, entries: Entries,
                     id: NoteId)
      returns (r: Option<Entries>, ghost burst: seq<Action>)
      requires Valid() && Waited(lib, start, sys, others, conn) && id in LiveEntries(lib, listed)
      requires Listed(lib, start, others, n, listed) && ReadBodies(lib, start, others, n, listed, entries)
      modifies this`sys, this`schedule
      ensures Valid() && Waited(lib, start, sys, others + burst, conn)
      ensures Listed(lib, start, others + burst, n, listed) && (burst == [] ==> sys == old(sys))
      ensures r.None? ==> others + burst != []
      ensures r.Some? ==> r.value.Keys == entries.Keys + {id}
      ensures r.Some? ==> ReadBodies(lib, start, others + burst, n, listed, r.value)
      ensures old(Quiet()) ==> burst == [] && schedule == old(schedule)
    {
      hide Run, Inv, Waited, LiveEntries, InTurn, Lawful, OneMesh, Others, ReadBodies;
      burst := Turn();
      WaitedMore(lib, start, old(sys), sys, others, burst, conn);
      ListedIsLive(lib, listed, id);
      ReadLaterStill(lib, start, others, burst, n, listed, entries);
      if id !in sys.db.notes {
        GoneSince(lib, start, sys, others + burst, conn, n, listed, id);
        return None, burst;
      }
      ReadOne(lib, start, sys, others + burst, conn, n, listed, entries, id);
      r := Some(entries[id := ListedEntry(lib, listed, sys.db, id)]);
    }

    /**
     `rebuild_search_index`: the live notes are listed in one statement and their bodies read one by
     one, so another connection may write between. It fails when a listed note is gone by then.
     */
    method RebuildSearchIndex() returns (ok: bool, ghost others: seq<Action>)
      requires Valid()
      modifies this`sys, this`schedule, search
      ensures Valid() && Waited(lib, old(sys), sys, others, conn)
      ensures Writer() == old(Writer()) && (old(Quiet()) ==> others == [] && schedule == old(schedule))
      ensures ok ==> search != null && old(Indexable(false)) && Rebuilt(lib, old(sys), others, search.Contents())
      ensures !ok && search != null ==> search.Contents() == old(search.Contents())
      ensures others == [] ==> (ok <==> search != null && old(Indexable(false))) && (ok ==> InStep())
    {
      hide Run, Inv, Waited, LiveEntries, InTurn, Lawful, OneMesh, Others, Listed, ReadBodies, Rebuilt;
      others := [];
      WaitedNot(lib, sys, conn);
      if search == null { return false, others; }
      ghost var start := sys;
      var entries;
      entries, others := ReadEntries();
      if entries.None? { return false, others; }
      if others == [] { QuietRebuild(lib, start, entries.value); }
      ok := search.Rebuild(entries.value);
    }

    /** The live notes, listed and then read one by one; nothing if one of them is gone by then. */
    method ReadEntries() returns (r: Option<Entries>, ghost others: seq<Action>)
      requires Valid()
      modifies this`sys, this`schedule
      ensures Valid() && Waited(lib, old(sys), sys, others, conn) && (others == [] ==> sys == old(sys))
      ensures r.None? ==> others != []
      ensures r.Some? ==> Rebuilt(lib, old(sys), others, r.value)
      ensures old(Quiet()) ==> others == [] && schedule == old(schedule)
    {
      hide Run, Inv, Waited, LiveEntries, InTurn, Lawful, OneMesh, Others, Listed, ReadBodies, Rebuilt, Splits;
      ghost var start := sys;
      others := Turn();
      ghost var n := |others|;
      var listed := sys.db;
      var rest := LiveEntries(lib, listed).Keys;
      var entries: Entries := map[];
      NothingRead(lib, start, sys, others, conn, listed);
      ghost var live := rest;
      assert entries.Keys == {};
      SplitsEnds(live, {});
      while rest != {}
        invariant Valid() && Waited(lib, start, sys, others, conn) && (others == [] ==> sys == start)
        invariant Listed(lib, start, others, n, listed) && ReadBodies(lib, start, others, n, listed, entries)
        invariant Splits(live, entries.Keys, rest)
        invariant old(Quiet()) ==> others == [] && schedule == old(schedule)
        decreases |rest|
      {
        var id :| id in rest;
        SplitsMore(live, entries.Keys, rest, id);
        var read;
        ghost var burst;
        read, burst := ReadEntry(start, others, n, listed, entries, id);
        others := others + burst;
        if read.None? { return None, others; }
        entries, rest := read.value, rest - {id};
      }
      SplitsEnds(live, entries.Keys);
      AllRead(lib, start, others, n, listed, entries);
      r := Some(entries);
    }

    /** Commit and rebuild the index, or roll everything back. */
    method EndBulk(workOk: bool, commitOk: bool) returns (ok: bool, ghost others: seq<Action>)
      requires Valid() && savepoint.Some?
      modifies this`sys, this`schedule, this`savepoint, this`search, this`parked, parked
      ensures Valid() && savepoint.None? && search == old(parked) && parked == null
      ensures var ended := if workOk && commitOk then old(sys) else old(savepoint).value;
        && Waited(lib, ended, sys, others, conn)
        && (ok && search != null ==> Rebuilt(lib, ended, others, search.Contents()))
        && (!ok && search != null ==> search.Contents() == old(parked.Contents()))
      ensures old(schedule) == [] ==> others == [] && schedule == []
      ensures ok ==> workOk && commitOk && (search != null ==> old(parked.CanWrite()))
      ensures others == [] && workOk && commitOk && (search != null ==> old(parked.CanWrite())) ==> ok
      ensures others == [] && ok ==> InStep()
      ensures !(workOk && commitOk) ==> others == [] && (old(ParkedInStep()) ==> InStep())
      ensures search != null ==> Writer() == (old(parked.pendingWriter), old(parked.lockedElsewhere))
    {
      hide Run, Inv, Waited, LiveEntries, InTurn, Lawful, OneMesh, Others, Rebuilt;
      search, parked := parked, null;
      ok, others := workOk && commitOk, [];
      if !ok { sys := savepoint.value; }
      savepoint := None;
      WaitedNot(lib, sys, conn);
      if ok && search != null { ok, others := RebuildSearchIndex(); }
    }

    method FlushSearchIndex()
      requires Valid()
      modifies search
      ensures Valid() && (old(InStep()) ==> InStep())
      ensures Writer() == (None, old(Writer()).1)
      ensures search != null ==> search.committed == old(search.Contents())
    {
      if search != null { search.Flush(); }
    }
  }

  // ---- rebuilding the index while others write ----

  /** The rows as they were when the live notes were listed, after `n` steps of the others. */
  ghost predicate Listed(lib: Crdt, start: System, others: seq<Action>, n: nat, listed: Db) {
    n <= |others| && listed == Run(lib, start, others[..n]).db
  }

  /** The body is that of the note at some moment since it was listed. */
  ghost predicate BodySince(lib: Crdt, start: System, others: seq<Action>, n: nat, id: NoteId, body: string) {
    exists k | n <= k <= |others| ::
      var s := Run(lib, start, others[..k]);
      id in s.db.notes && body == lib.view(s.db.notes[id].doc).body
  }

  /** Title and tags as listed, the body as read later. */
  function ListedEntry(lib: Crdt, listed: Db, now: Db, id: NoteId): Entry
    requires id in listed.notes && id in now.notes
  {
    Entry(listed.notes[id].columns.title, lib.view(now.notes[id].doc).body, listed.notes[id].columns.tags)
  }

  ghost predicate ReadBodies(lib: Crdt, start: System, others: seq<Action>, n: nat, listed: Db, entries: Entries) {
    forall id | id in entries ::
      && id in listed.notes && BodySince(lib, start, others, n, id, entries[id].body)
      && entries[id].title == listed.notes[id].columns.title && entries[id].tags == listed.notes[id].columns.tags
  }

  /** What a rebuild leaves in the index: the notes live at one moment, with bodies of later moments. */
  ghost predicate Rebuilt(lib: Crdt, start: System, others: seq<Action>, entries: Entries) {
    exists n: nat, listed: Db ::
      && Listed(lib, start, others, n, listed) && entries.Keys == LiveEntries(lib, listed).Keys
      && ReadBodies(lib, start, others, n, listed, entries)
  }

  lemma NothingRead(lib: Crdt, start: System, s: System, others: seq<Action>, conn: Conn, listed: Db)
    requires Waited(lib, start, s, others, conn) && listed == s.db
    ensures Listed(lib, start, others, |others|, listed) && ReadBodies(lib, start, others, |others|, listed, map[])
  {
    hide Run;
    assert others[..|others|] == others;
  }

  lemma ReadLaterStill(lib: Crdt, start: System, others: seq<Action>, burst: seq<Action>, n: nat, listed: Db,
                       entries: Entries)
    requires Listed(lib, start, others, n, listed) && ReadBodies(lib, start, others, n, listed, entries)
    ensures Listed(lib, start, others + burst, n, listed)
    ensures ReadBodies(lib, start, others + burst, n, listed, entries)
  {
    hide Run;
    forall k | 0 <= k <= |others| ensures (others + burst)[..k] == others[..k] {}
    forall id | id in entries ensures BodySince(lib, start, others + burst, n, id, entries[id].body) {
      var k :| n <= k <= |others|
               && var s := Run(lib, start, others[..k]);
                  id in s.db.notes && entries[id].body == lib.view(s.db.notes[id].doc).body;
      assert (others + burst)[..k] == others[..k];
    }
  }

  lemma ReadOne(lib: Crdt, start: System, s: System, others: seq<Action>, conn: Conn, n: nat, listed: Db,
                entries: Entries, id: NoteId)
    requires Waited(lib, start, s, others, conn) && id in s.db.notes && id in listed.notes && n <= |others|
    requires ReadBodies(lib, start, others, n, listed, entries)
    ensures ReadBodies(lib, start, others, n, listed, entries[id := ListedEntry(lib, listed, s.db, id)])
  {
    hide Run;
    assert others[..|others|] == others;
    assert BodySince(lib, start, others, n, id, lib.view(s.db.notes[id].doc).body);
  }

  lemma ListedIsLive(lib: Crdt, listed: Db, id: NoteId)
    requires id in LiveEntries(lib, listed)
    ensures id in listed.notes
  {
  }

  lemma GoneSince(lib: Crdt, start: System, s: System, others: seq<Action>, conn: Conn, n: nat, listed: Db, id: NoteId)
    requires Waited(lib, start, s, others, conn) && Listed(lib, start, others, n, listed)
    requires id in listed.notes && id !in s.db.notes
    ensures others != []
  {
    hide Run;
    assert others[..|others|] == others;
  }

  lemma QuietRebuild(lib: Crdt, start: System, entries: Entries)
    requires Inv(lib, start) && Rebuilt(lib, start, [], entries)
    ensures entries == LiveEntries(lib, start.db)
  {
    hide LiveEntries, Inv, Run;
    var n: nat, listed: Db :|
      && Listed(lib, start, [], n, listed) && entries.Keys == LiveEntries(lib, listed).Keys
      && ReadBodies(lib, start, [], n, listed, entries);
    QuietListed(lib, start, n, listed);
    forall id | id in entries ensures entries[id] == LiveEntries(lib, start.db)[id] {
      assert BodySince(lib, start, [], n, id, entries[id].body);
      QuietBody(lib, start, n, id, entries[id].body);
      QuietEntry(lib, start, id);
    }
  }

  lemma QuietListed(lib: Crdt, start: System, n: nat, listed: Db)
    requires Listed(lib, start, [], n, listed)
    ensures listed == start.db
  {
    hide Inv;
    var none: seq<Action> := [];
    assert none[..0] == [];
  }

  lemma QuietBody(lib: Crdt, start: System, n: nat, id: NoteId, body: string)
    requires BodySince(lib, start, [], n, id, body)
    ensures id in start.db.notes && body == lib.view(start.db.notes[id].doc).body
  {
    hide Inv;
    var none: seq<Action> := [];
    assert none[..0] == [];
  }

  lemma QuietEntry(lib: Crdt, start: System, id: NoteId)
    requires Inv(lib, start) && id in LiveEntries(lib, start.db)
    ensures id in start.db.notes && LiveEntries(lib, start.db)[id] == ListedEntry(lib, start.db, start.db, id)
  {
    hide ProgramsOk;
    assert RowMatches(lib, id, start.db.notes[id]);
  }

  lemma AllRead(lib: Crdt, start: System, others: seq<Action>, n: nat, listed: Db, entries: Entries)
    requires Listed(lib, start, others, n, listed) && entries.Keys == LiveEntries(lib, listed).Keys
    requires ReadBodies(lib, start, others, n, listed, entries)
    ensures Rebuilt(lib, start, others, entries)
  {
    hide Listed, LiveEntries, ReadBodies;
  }

  lemma SeenGrows(lib: Crdt, a: System, b: System, others: seq<Action>, conn: Conn)
    requires Waited(lib, a, b, others, conn) && conn == SYNC
    ensures a.seen <= b.seen
  {
    hide Run, Grows;
  }

  ghost predicate ErasedSoFar(start: Db, gone: set<NoteId>, notes: map<NoteId, Row>, purged: set<NoteId>, erased: nat) {
    notes == start.notes - gone && purged == start.purged + gone && erased == |gone * start.notes.Keys|
  }

  lemma EraseStep(start: Db, gone: set<NoteId>, notes: map<NoteId, Row>, purged: set<NoteId>, erased: nat, id: NoteId)
    requires ErasedSoFar(start, gone, notes, purged, erased) && id !in gone
    ensures ErasedSoFar(start, gone + {id}, notes - {id}, purged + {id}, if id in notes then erased + 1 else erased)
  {
    CountErased(gone, start.notes.Keys, id);
    EraseMore(start.notes, gone, id);
  }

  ghost predicate Splits(ids: set<NoteId>, gone: set<NoteId>, rest: set<NoteId>) {
    gone + rest == ids && gone !! rest
  }

  lemma SplitsMore(ids: set<NoteId>, gone: set<NoteId>, rest: set<NoteId>, id: NoteId)
    requires Splits(ids, gone, rest) && id in rest
    ensures id !in gone && id in ids && Splits(ids, gone + {id}, rest - {id})
  {
  }

  lemma SplitsEnds(ids: set<NoteId>, gone: set<NoteId>)
    ensures Splits(ids, {}, ids)
    ensures Splits(ids, gone, {}) ==> gone == ids
  {
  }

  method EraseAll(start: Db, ids: set<NoteId>) returns (db: Db, erased: nat)
    ensures db == Db(start.notes - ids, start.purged + ids, start.tombstones)
    ensures erased == |ids * start.notes.Keys|
  {
    var notes, purged, rest := start.notes, start.purged, ids;
    erased := 0;
    ghost var gone: set<NoteId> := {};
    hide ErasedSoFar, Splits;
    NoneErased(start);
    SplitsEnds(ids, gone);
    while rest != {}
      invariant Splits(ids, gone, rest) && ErasedSoFar(start, gone, notes, purged, erased)
      decreases rest
    {
      var id :| id in rest;
      SplitsMore(ids, gone, rest, id);
      EraseStep(start, gone, notes, purged, erased, id);
      erased := if id in notes then erased + 1 else erased;
      notes, purged := notes - {id}, purged + {id};
      rest, gone := rest - {id}, gone + {id};
    }
    SplitsEnds(ids, gone);
    AllErased(start, ids, notes, purged, erased);
    db := Db(notes, purged, start.tombstones);
  }

  lemma NoneErased(start: Db)
    ensures ErasedSoFar(start, {}, start.notes, start.purged, 0)
  {
    assert {} * start.notes.Keys == {};
    assert start.notes - {} == start.notes;
  }

  lemma AllErased(start: Db, ids: set<NoteId>, notes: map<NoteId, Row>, purged: set<NoteId>, erased: nat)
    requires ErasedSoFar(start, ids, notes, purged, erased)
    ensures notes == start.notes - ids && purged == start.purged + ids && erased == |ids * start.notes.Keys|
  {
  }

  lemma CountErased(gone: set<NoteId>, keys: set<NoteId>, id: NoteId)
    requires id !in gone
    ensures |(gone + {id}) * keys| == |gone * keys| + if id in keys then 1 else 0
  {
    if id in keys {
      assert (gone + {id}) * keys == gone * keys + {id};
    } else {
      assert (gone + {id}) * keys == gone * keys;
    }
  }

  lemma EraseMore(notes: map<NoteId, Row>, gone: set<NoteId>, id: NoteId)
    ensures notes - gone - {id} == notes - (gone + {id})
  {
  }

  /** Deferred removals, given up on the first failure, then one flush. */
  method DropFromIndex(search: Index, ids: set<NoteId>)
    requires search.Valid()
    modifies search
    ensures search.Valid() && search.pendingWriter.None? && search.lockedElsewhere == old(search.lockedElsewhere)
    ensures !old(search.lockedElsewhere) ==> search.Contents() == old(search.Contents()) - ids
  {
    var rest, ok := ids, true;
    ghost var gone: set<NoteId> := {};
    while rest != {} && ok
      invariant search.Valid() && gone + rest == ids
      invariant search.lockedElsewhere == old(search.lockedElsewhere)
      invariant !search.lockedElsewhere ==> ok && search.Contents() == old(search.Contents()) - gone
      decreases |rest| + if ok then 1 else 0
    {
      var id :| id in rest;
      ok := search.RemoveNoteDeferred(id);
      if ok {
        rest, gone := rest - {id}, gone + {id};
      }
    }
    search.Flush();
  }

  lemma PurgeInv(lib: Crdt, s: System, ids: set<NoteId>, doc: Doc, conn: Conn)
    requires Inv(lib, s) && conn !in s.programs && ids <= s.seen && Erased(doc) <= s.db.purged + ids
    requires conn != SYNC ==> ids <= s.db.notes.Keys + s.db.purged
    ensures var t := s.(db := PurgeRows(s.db, ids, doc)); Inv(lib, t) && t.programs == s.programs
  {
    var t := s.(db := PurgeRows(s.db, ids, doc));
    var u := Next(s, conn, Idle).(db := t.db);
    PurgeRowsIsGood(lib, s, u, conn, ids, doc);
    hide Inv, DbOk, ProgramOk, Safe;
    InvFrom(lib, s, u, conn);
    FewerPrograms(lib, u, t);
  }

  lemma PurgeKeeps(lib: Crdt, start: System, read: System, s: System, first: seq<Action>, more: seq<Action>,
                   ids: set<NoteId>, change: Change, conn: Conn)
    requires Inv(lib, start) && Inv(lib, read) && Inv(lib, s) && conn !in s.programs
    requires Waited(lib, start, read, first, conn) && Waited(lib, read, s, more, conn)
    requires ids <= start.db.notes.Keys + start.db.purged && change == Erase(change.hash, ids)
    ensures var base := TombstoneDoc(read.db);
      var t := s.(db := PurgeRows(s.db, ids, base + {change}));
      && Inv(lib, t) && t.programs == s.programs
      && (Tombstoned(s.db) == s.db.purged ==>
          (Tombstoned(t.db) == t.db.purged <==> s.db.purged <= Erased(base) + ids))
      && (read == s && Tombstoned(s.db) == s.db.purged ==> Tombstoned(t.db) == t.db.purged)
  {
    var base := TombstoneDoc(read.db);
    GrowsKeys(start.db, read.db);
    GrowsKeys(read.db, s.db);
    ErasedUnion(base, {change});
    assert Erased({change}) == ids;
    assert Erased(base) <= read.db.purged;
    hide Erased, RowMatches, ProgramsOk, Run, Evolves;
    PurgeInv(lib, s, ids, base + {change}, conn);
  }

  lemma PurgeEvolves(start: System, s: System, ids: set<NoteId>, doc: Doc)
    requires Evolves(start, s) && ids <= start.db.notes.Keys + start.db.purged
    ensures Evolves(start, s.(db := PurgeRows(s.db, ids, doc)))
  {
    var t := s.(db := PurgeRows(s.db, ids, doc));
    assert Grows(s.db, t.db);
    GrowsTransitive(start.db, s.db, t.db);
    hide Grows;
    assert FreshRows(start, t);
    assert KeepsAbsent(start, t);
  }

  /** What a purge comes to, and when the tombstone document still equals the purged ids after it. */
  ghost predicate PurgeOutcome(before: System, after: System, ids: set<NoteId>, base: Doc, change: Change) {
    && after == before.(db := PurgeRows(before.db, ids, base + {change}))
    && (Tombstoned(before.db) == before.db.purged ==>
        (Tombstoned(after.db) == after.db.purged <==> before.db.purged <= Erased(base) + ids))
  }

  /** The note, as it was, is one the filters ask for. */
  ghost predicate Chosen(lib: Crdt, at: Db, id: NoteId, filters: set<Queries.Filter>) {
    id in at.notes && exists f :: f in filters && Queries.Wanted(f, lib.view(at.notes[id].doc))
  }

  /** What the filters ask for at one moment is gone for good at a later one; nothing else changed there. */
  ghost predicate Erases(lib: Crdt, at: Db, before: Db, after: Db, filters: set<Queries.Filter>) {
    && (forall id :: id in after.notes <==> id in before.notes && !Chosen(lib, at, id, filters))
    && (forall id | id in after.notes :: after.notes[id] == before.notes[id])
    && (forall id :: id in after.purged <==> id in before.purged || Chosen(lib, at, id, filters))
  }

  lemma TrashIsWanted(lib: Crdt, s: System)
    requires Inv(lib, s)
    ensures forall id :: id in Trashed(s.db) <==> Chosen(lib, s.db, id, {Queries.Trash})
  {
    forall id ensures id in Trashed(s.db) <==> Chosen(lib, s.db, id, {Queries.Trash}) {
      hide ProgramsOk;
      if id in s.db.notes {
        assert RowMatches(lib, id, s.db.notes[id]);
        if s.db.notes[id].columns.deleted {
          assert Queries.Wanted(Queries.Trash, lib.view(s.db.notes[id].doc));
        }
      }
    }
  }

  lemma TaggedIsWanted(lib: Crdt, s: System, tag: string)
    requires Inv(lib, s)
    ensures forall id ::
      id in WithTag(s.db, tag) <==> Chosen(lib, s.db, id, {Queries.Tagged(tag), Queries.TrashedTagged(tag)})
  {
    var filters := {Queries.Tagged(tag), Queries.TrashedTagged(tag)};
    forall id ensures id in WithTag(s.db, tag) <==> Chosen(lib, s.db, id, filters) {
      hide ProgramsOk;
      if id in s.db.notes {
        assert RowMatches(lib, id, s.db.notes[id]);
        var n := lib.view(s.db.notes[id].doc);
        if tag in n.tags {
          var f := if n.deleted then Queries.TrashedTagged(tag) else Queries.Tagged(tag);
          assert f in filters && Queries.Wanted(f, n);
        }
      }
    }
  }

  lemma PurgeErases(lib: Crdt, start: System, at: Db, after: System, ids: set<NoteId>, others: seq<Action>,
                    hash: nat, base: Doc, erased: Option<nat>, filters: set<Queries.Filter>)
    requires PurgedAll(lib, start, after, ids, others, hash, base, false, erased)
    requires forall id :: id in ids <==> Chosen(lib, at, id, filters)
    ensures Erases(lib, at, Run(lib, start, others).db, after.db, filters)
  {
    hide Run, Chosen, Tombstoned, Erased;
  }

  lemma UndisturbedRun(lib: Crdt, start: System, selected: seq<Action>, others: seq<Action>)
    requires selected <= others && others == []
    ensures Run(lib, start, selected) == Run(lib, start, others) == start
  {
  }

  lemma NoneListed(lib: Crdt, after: System, at: Db, filters: set<Queries.Filter>, f: Queries.Filter)
    requires Inv(lib, after) && Erases(lib, at, at, after.db, filters) && f in filters
    ensures Queries.List(after.db, f) == map[]
  {
    assert ColumnsMatch(lib, after.db) by { hide ProgramsOk; }
    hide Inv, Queries.Wanted, Queries.Selects, ColumnsOf;
    Queries.ListsMatch(lib, after.db, f);
    forall id | id in after.db.notes ensures !Queries.Wanted(f, lib.view(after.db.notes[id].doc)) {
      assert !Chosen(lib, at, id, filters);
    }
    assert Queries.HydratedList(lib, after.db, f) == map[];
  }

  /**
   A purge of ids, seen from before they were selected. With none selected nothing is written, and
   nothing inside a bulk, where a second transaction cannot begin.
   */
  ghost predicate PurgedAll(lib: Crdt, start: System, after: System, ids: set<NoteId>, others: seq<Action>,
                            hash: nat, base: Doc, inBulk: bool, erased: Option<nat>) {
    var before := Run(lib, start, others);
    if ids == {} then after == before && erased == Some(0)
    else if inBulk then after == before && erased == None
    else PurgeOutcome(before, after, ids, base, Erase(hash, ids)) && erased == Some(|ids * before.db.notes.Keys|)
  }

  lemma PurgedFromStart(lib: Crdt, start: System, mid: System, after: System, ids: set<NoteId>,
                        selected: seq<Action>, more: seq<Action>, hash: nat, base: Doc, inBulk: bool,
                        erased: Option<nat>)
    requires mid == Run(lib, start, selected) && PurgedAll(lib, mid, after, ids, more, hash, base, inBulk, erased)
    ensures PurgedAll(lib, start, after, ids, selected + more, hash, base, inBulk, erased)
  {
    RunConcat(lib, start, selected, more);
    hide Run, PurgeOutcome;
  }

  lemma PurgeStep(lib: Crdt, start: System, read: System, s: System, first: seq<Action>, more: seq<Action>,
                  ids: set<NoteId>, change: Change, conn: Conn)
    requires Inv(lib, start) && Inv(lib, read) && Inv(lib, s) && conn !in s.programs
    requires Waited(lib, start, read, first, conn) && Waited(lib, read, s, more, conn)
    requires ids <= start.db.notes.Keys + start.db.purged && change == Erase(change.hash, ids)
    ensures Waited(lib, start, s, first + more, conn) && s == Run(lib, start, first + more)
    ensures first + more == [] ==> start == s
    ensures var base := TombstoneDoc(read.db);
      var t := s.(db := PurgeRows(s.db, ids, base + {change}));
      && Inv(lib, t) && conn !in t.programs && PurgeOutcome(s, t, ids, base, change)
      && (conn == SYNC ==> Evolves(start, s) && Evolves(start, t))
      && (first + more == [] && Tombstoned(s.db) == s.db.purged ==> Tombstoned(t.db) == t.db.purged)
  {
    WaitedMore(lib, start, read, s, first, more, conn);
    PurgeKeeps(lib, start, read, s, first, more, ids, change, conn);
    if conn == SYNC {
      EvolvesTransitive(start, read, s);
      PurgeEvolves(start, s, ids, TombstoneDoc(read.db) + {change});
    }
    if first + more == [] { assert first == [] && more == []; }
    hide Inv, Erased, Tombstoned, LiveEntries, PurgeRows, Evolves, Grows;
  }

  lemma StoredBody(lib: Crdt, start: System, after: System, read: seq<Action>, others: seq<Action>, conn: Conn,
                   id: NoteId, base: Doc, body: string, skip: bool, expected: Option<Doc>, now: Stamp,
                   r: Result<Fields>)
    requires BodyStored(lib, start, after, read, others, conn, id, base, body, skip, expected, now, r)
    ensures r.Ok? ==> r.value.body == body
  {
  }

  lemma StoredTags(lib: Crdt, start: System, after: System, read: seq<Action>, others: seq<Action>, conn: Conn,
                   id: NoteId, base: Doc, body: string, expected: Option<Doc>, now: Stamp, r: Result<Fields>)
    requires BodyStored(lib, start, after, read, others, conn, id, base, body, false, expected, now, r)
    ensures r.Ok? ==> r.value.tags == Frontmatter.DerivedTags(body)
  {
    hide Commits, Run, Frontmatter.DerivedTags, Refused;
  }

  lemma Stamped(was: string, tag: string)
    requires Tags.ValidTag(tag) && Tags.EnsureTag(was, tag) != was
    ensures tag in Frontmatter.DerivedTags(Tags.EnsureTag(was, tag))
  {
    Frontmatter.EnsuredIsDerivedIff(was, tag);
    hide Tags.ExtractTags, Frontmatter.DerivedTags, Tags.ValidTag;
  }

  lemma ReadState(lib: Crdt, start: System, s: System, read: seq<Action>, conn: Conn)
    requires Waited(lib, start, s, read, conn)
    ensures s == Run(lib, start, read)
  {
  }

  lemma EditGoesIff(lib: Crdt, db: Db, id: NoteId, edit: BodyEdit, expected: Option<Doc>)
    ensures id !in db.notes || (expected.Some? && expected.value != db.notes[id].doc) ==>
      !EditGoes(lib, db, id, edit, expected)
    ensures id in db.notes && (expected.Some? ==> expected.value == db.notes[id].doc) ==>
      var was := lib.view(db.notes[id].doc).body;
      var body := EditedBody(edit, was);
      EditGoes(lib, db, id, edit, expected)
      <==> body.Some? && (((edit.PutTag? || edit.DropTag?) && body.value == was)
                          || WouldReplace(lib, db, id, body.value, edit.DropTag?, expected))
  {
    hide EditedBody, WouldReplace;
  }

  lemma EditRefused(lib: Crdt, start: System, s: System, read: seq<Action>, conn: Conn,
                    id: NoteId, edit: BodyEdit, expected: Option<Doc>, now: Stamp, e: StoreError)
    requires Waited(lib, start, s, read, conn) && (Refused(lib, s.db, id, e) || e.DocumentError?)
    ensures var was := BodyAt(lib, s, id);
      var body := EditedBody(edit, was);
      BodyStored(lib, start, s, read, read, conn, id, {}, if body.Some? then body.value else "",
                 (edit.PutTag? || edit.DropTag?) && body == Some(was), expected, now, Err(e))
  {
    hide Run, Evolves, Refused, Commits, EditedBody;
  }

  lemma RunNothing(lib: Crdt, s: System, read: seq<Action>)
    ensures read == [] ==> Run(lib, s, read) == s
  {
  }

  /** A UUID nobody drew before. */
  method DrawId(seen: set<NoteId>) returns (id: NoteId)
    ensures id !in seen
  {
    ghost var top := Above(seen);
    id :| id !in seen;
  }

  lemma {:induction false} Above(s: set<nat>) returns (top: nat)
    ensures forall x | x in s :: x < top
    ensures top !in s
    decreases |s|
  {
    if s == {} {
      top := 0;
    } else {
      var x :| x in s;
      var below := Above(s - {x});
      top := if x < below then below else x + 1;
      assert s == (s - {x}) + {x};
    }
  }

  /** A timestamp never written before. */
  method DrawStamp(stamps: set<Stamp>) returns (now: Stamp)
    ensures now !in stamps
  {
    ghost var longest := Longer(stamps);
    now :| now !in stamps;
  }

  lemma {:induction false} Longer(s: set<Stamp>) returns (longest: Stamp)
    ensures longest !in s && forall x | x in s :: |x| < |longest|
    decreases |s|
  {
    if s == {} {
      longest := "";
    } else {
      var x :| x in s;
      var rest := Longer(s - {x});
      longest := if |x| < |rest| then rest else x + "0";
      assert s == (s - {x}) + {x};
    }
  }

  function Created(lib: Crdt, s: System, note: Fields): System {
    s.(db := InsertOrIgnore(lib, s.db, note.id, {lib.edit({}, note)}), seen := s.seen + {note.id},
       stamps := s.stamps + {note.modifiedAt})
  }

  lemma CreateKeeps(lib: Crdt, s: System, note: Fields, conn: Conn)
    requires Lawful(lib) && Inv(lib, s) && conn !in s.programs && note.id !in s.seen
    ensures var t := Created(lib, s, note);
      && Inv(lib, t) && t.programs == s.programs
      && note.id in t.db.notes && lib.view(t.db.notes[note.id].doc) == note && lib.view({lib.edit({}, note)}) == note
      && LiveEntries(lib, t.db) == Reindexed(LiveEntries(lib, s.db), note.id, note)
  {
    var t := Created(lib, s, note);
    ViewEdit(lib, {}, note);
    assert {} + {lib.edit({}, note)} == {lib.edit({}, note)};
    KeysSeen(lib, s);
    assert Absent(s.db, note.id);
    var u := t.(programs := s.programs[conn := Idle]);
    assert t.db == s.db.(notes := s.db.notes[note.id := t.db.notes[note.id]]);
    hide Inv, Lawful, OfNote, Hydrates;
    assert WritesRow(lib, s, u, conn, note.id) by { hide ColumnsOf; }
    WritesRowIsGood(lib, s, u, conn, note.id);
    InvFrom(lib, s, u, conn);
    FewerPrograms(lib, u, t);
    RowReindexed(lib, s.db, note.id, t.db.notes[note.id]);
  }

  lemma InsertsRow(lib: Crdt, s: System, note: Fields)
    requires Lawful(lib) && note.id !in s.db.notes
    ensures var t := Created(lib, s, note);
      && note.id in t.db.notes && lib.view(t.db.notes[note.id].doc) == note
      && LiveEntries(lib, t.db) == Reindexed(LiveEntries(lib, s.db), note.id, note) && t.db.purged == s.db.purged
      && RowAdded(s.db, t.db, note.id, {lib.edit({}, note)}, note)
  {
    ViewEdit(lib, {}, note);
    InsertAdds(lib, s.db, note.id, {lib.edit({}, note)});
    hide RowAdded;
    assert {} + {lib.edit({}, note)} == {lib.edit({}, note)};
    hide Lawful;
    RowReindexed(lib, s.db, note.id, Created(lib, s, note).db.notes[note.id]);
  }

  lemma BroughtBack(lib: Crdt, s: System, id: NoteId)
    requires id in s.db.notes && id in s.db.purged
    ensures !Inv(lib, s)
  {
    hide ColumnsMatch, ProgramsOk;
  }

  lemma NotLive(lib: Crdt, db: Db, note: Fields)
    requires note.id !in db.notes && note.deleted
    ensures Reindexed(LiveEntries(lib, db), note.id, note) == LiveEntries(lib, db)
  {
  }

  lemma CreateEvolves(lib: Crdt, start: System, s: System, others: seq<Action>, note: Fields, conn: Conn)
    requires Waited(lib, start, s, others, conn) && note.id !in s.seen && lib.view({lib.edit({}, note)}) == note
    ensures conn == SYNC && note.modifiedAt !in start.stamps ==> Evolves(start, Created(lib, s, note))
  {
    hide Run;
    var t := Created(lib, s, note);
    if conn == SYNC && note.modifiedAt !in start.stamps {
      assert Grows(s.db, t.db);
      GrowsTransitive(start.db, s.db, t.db);
      hide Grows;
    }
  }

  lemma NewNoteShape(id: NoteId, body: string, author: string, now: Stamp)
    ensures var n := Derivation.NewNote(id, body, author, now); n.id == id && n.modifiedAt == now && !n.deleted
  {
  }

  /** A body may lose its last tag only if that is what was asked for. */
  predicate MayReplace(oldBody: string, newBody: string, allowUntagged: bool) {
    allowUntagged || Frontmatter.DerivedTags(oldBody) == [] || Frontmatter.DerivedTags(newBody) != []
  }

  /** When a body replacement that nobody disturbs goes through. */
  predicate WouldReplace(lib: Crdt, db: Db, id: NoteId, newBody: string, allowUntagged: bool, expected: Option<Doc>) {
    && id in db.notes
    && (expected.Some? ==> db.notes[id].doc == expected.value)
    && MayReplace(lib.view(db.notes[id].doc).body, newBody, allowUntagged)
  }

  /** What is wrong with a body replacement, if anything. */
  function Refusal(lib: Crdt, db: Db, id: NoteId, newBody: string, allowUntagged: bool, expected: Option<Doc>)
    : (r: Option<StoreError>)
  {
    if id !in db.notes then Some(NotFound(id))
    else
      var found := db.notes[id].doc;
      if expected.Some? && expected.value != found then Some(VersionMismatch(id, expected.value, found))
      else
        var oldTags := Frontmatter.DerivedTags(lib.view(found).body);
        if !allowUntagged && oldTags != [] && Frontmatter.DerivedTags(newBody) == []
        then Some(TagsWouldBeLost(id, oldTags)) else None
  }

  lemma RefusalIff(lib: Crdt, db: Db, id: NoteId, newBody: string, allowUntagged: bool, expected: Option<Doc>)
    ensures var refusal := Refusal(lib, db, id, newBody, allowUntagged, expected);
      && (refusal.None? <==> WouldReplace(lib, db, id, newBody, allowUntagged, expected))
      && (refusal.None? ==> id in db.notes && (expected.Some? ==> db.notes[id].doc == expected.value)
                            && MayReplace(lib.view(db.notes[id].doc).body, newBody, allowUntagged))
      && (refusal.Some? ==> Refused(lib, db, id, refusal.value))
      && (refusal.Some? && refusal.value.VersionMismatch? ==> Some(refusal.value.expected) == expected)
      && (refusal.Some? && refusal.value.TagsWouldBeLost? ==>
            id in db.notes && !MayReplace(lib.view(db.notes[id].doc).body, newBody, allowUntagged))
  {
    if id in db.notes { Frontmatter.RestIs(lib.view(db.notes[id].doc).body); }
    hide Frontmatter.Rest, Frontmatter.IsRest, Tags.ExtractTags;
  }

  lemma RefusedEarly(lib: Crdt, start: System, s: System, others: seq<Action>, conn: Conn,
                     id: NoteId, base: Doc, note: Fields, e: StoreError)
    requires Waited(lib, start, s, others, conn) && Refused(lib, s.db, id, e)
    ensures Edited(lib, start, s, others, conn, id, base, note, Err(e))
  {
    hide Run, Evolves, Grows, Refused;
  }

  lemma SameId(n: Fields, body: string, now: Stamp)
    ensures Derivation.WithBody(n, body, now).id == n.id
  {
  }

  lemma RowViews(lib: Crdt, s: System, id: NoteId)
    requires Lawful(lib) && Inv(lib, s) && id in s.db.notes
    ensures lib.view(s.db.notes[id].doc).id == id
  {
    assert RowMatches(lib, id, s.db.notes[id]);
    ViewId(lib, s.db.notes[id].doc, id);
  }

  function WhyRefused(db: Db, id: NoteId, base: Doc): StoreError {
    match SelectDoc(db, id) case Some(found) => VersionMismatch(id, base, found) case None => NotFound(id)
  }

  lemma CommitLands(lib: Crdt, start: System, a: System, s: System, others: seq<Action>,
                    id: NoteId, base: Doc, note: Fields, conn: Conn)
    requires Lawful(lib) && Inv(lib, s) && conn !in s.programs && Waited(lib, a, s, others, conn)
    requires Updates(s.db, id, base) && note.id == id
    ensures var t := Committed(lib, s, id, base, note);
      && Commits(lib, s, t, id, base, note) && Inv(lib, t) && conn !in t.programs
      && LiveEntries(lib, t.db) == Reindexed(LiveEntries(lib, s.db), id, note)
      && (conn == SYNC && Evolves(start, a) && note.modifiedAt !in start.stamps ==> Evolves(start, t))
  {
    CommitKeeps(lib, s, id, base, note, conn);
    CommittedInStep(lib, s, id, base, note);
    if conn == SYNC && Evolves(start, a) && note.modifiedAt !in start.stamps {
      EvolvesTransitive(start, a, s);
      CommitEvolves(lib, start, s, id, base, note);
    }
    hide Run, Inv, Evolves, Grows, LiveEntries, Reindexed, Commits;
  }

  lemma CommitFails(lib: Crdt, start: System, a: System, lost: System, now: System,
                    first: seq<Action>, more: seq<Action>, id: NoteId, base: Doc, conn: Conn)
    requires Inv(lib, a) && Inv(lib, now) && SelectDoc(a.db, id) == Some(base) && !Updates(lost.db, id, base)
    requires Waited(lib, a, lost, first, conn) && Waited(lib, lost, now, more, conn)
    ensures Waited(lib, a, now, first + more, conn) && Refused(lib, now.db, id, WhyRefused(now.db, id, base))
    ensures conn == SYNC && Evolves(start, a) ==> Evolves(start, now)
  {
    WaitedMore(lib, a, lost, now, first, more, conn);
    NewerFound(a.db, lost.db, now.db, id, base);
    if conn == SYNC && Evolves(start, a) { EvolvesTransitive(start, a, now); }
    hide Run, Inv, Evolves, Grows;
  }

  lemma CommittedInStep(lib: Crdt, s: System, id: NoteId, base: Doc, note: Fields)
    requires SelectDoc(s.db, id) == Some(base) && Commits(lib, s, Committed(lib, s, id, base, note), id, base, note)
    ensures LiveEntries(lib, Committed(lib, s, id, base, note).db) == Reindexed(LiveEntries(lib, s.db), id, note)
  {
    var after := Committed(lib, s, id, base, note).db;
    RowReindexed(lib, s.db, id, after.notes[id]);
    hide LiveEntries, Reindexed, ColumnsOf;
  }

  lemma NewerFound(start: Db, lost: Db, now: Db, id: NoteId, base: Doc)
    requires Grows(start, lost) && Grows(lost, now) && start.notes.Keys !! start.purged
    requires SelectDoc(start, id) == Some(base) && !Updates(lost, id, base)
    requires now.notes.Keys !! now.purged
    ensures SelectDoc(now, id) != Some(base)
  {
  }

  /** What a caller of `put_doc` sees: one atomic put, at the moment `before`. */
  ghost predicate PutOutcome(lib: Crdt, start: System, before: System, after: System,
                             id: NoteId, received: Doc, note: Fields) {
    && Evolves(start, before) && after == PutSystem(lib, before, id, received)
    && (id !in before.db.purged ==> id in after.db.notes && note == lib.view(after.db.notes[id].doc))
    && Joined(before.db, after.db, id, received, note)
  }

  /** The received document joined the row's, or became a row; nothing happened to a purged note. */
  ghost predicate Joined(before: Db, after: Db, id: NoteId, received: Doc, note: Fields) {
    if id in before.purged then after == before
    else if id in before.notes then RowReplaced(before, after, id, before.notes[id].doc + received, note)
    else RowAdded(before, after, id, received, note)
  }

  lemma PutPurged(lib: Crdt, start: System, s: System, id: NoteId, doc: Doc, note: Fields)
    requires id in s.db.purged && Evolves(start, s)
    ensures PutOutcome(lib, start, s, s, id, doc, note)
  {
    hide Evolves;
  }

  lemma WrittenInStep(lib: Crdt, db: Db, id: NoteId, stored: Option<Doc>, doc: Doc)
    requires Persists(db, id, stored) && lib.view(doc).id == id
    ensures LiveEntries(lib, Persisted(lib, db, id, stored, doc)) == Reindexed(LiveEntries(lib, db), id, lib.view(doc))
  {
    var after := Persisted(lib, db, id, stored, doc);
    RowReindexed(lib, db, id, after.notes[id]);
    hide LiveEntries, Reindexed, ColumnsOf;
  }

  lemma NothingLost(lib: Crdt, s: System, a: seq<Action>, b: seq<Action>, id: NoteId)
    requires !Persists(Run(lib, Run(lib, s, a), b).db, id, SelectDoc(s.db, id))
    ensures a != [] || b != []
  {
  }
}
