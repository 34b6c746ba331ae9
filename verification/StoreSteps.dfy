/**
 The transition systems do what the store does (store/): each operation, undisturbed, is its program
 run statement by statement, and one step of a replica.
 */
module StoreSteps {
  import opened Text
  import opened Documents
  import opened Connections
  import NoteStore
  import Replicas
  import SyncEngine

  /** A system that differs only in what the connection is about to do, which is nothing. */
  ghost predicate Done(s: System, t: System, conn: Conn) {
    t == s.(programs := t.programs) && t.programs == s.programs[conn := Idle]
  }

  lemma RunStep(lib: Crdt, s: System, a: Action, rest: seq<Action>)
    ensures Run(lib, s, [a] + rest) == Run(lib, Step(lib, s, a), rest)
  {
    assert ([a] + rest)[1..] == rest;
  }

  lemma RunTwo(lib: Crdt, s: System, a: Action, b: Action)
    ensures Run(lib, s, [a, b]) == Step(lib, Step(lib, s, a), b)
  {
    hide Step;
    RunStep(lib, s, a, [b]);
    RunStep(lib, Step(lib, s, a), b, []);
    assert [a, b] == [a] + [b] && [b] == [b] + [];
  }

  // ---- the programs of the connections ----

  /** An edit: load the note, then save it on the document that was loaded. */
  lemma EditIsLoadAndSave(lib: Crdt, s: System, conn: Conn, id: NoteId, note: Fields)
    requires Lawful(lib) && Inv(lib, s) && conn !in s.programs
    requires id in s.db.notes && note.id == id && note.modifiedAt !in s.stamps
    ensures var base := s.db.notes[id].doc;
      var t := Run(lib, s, [Action(conn, Load(id)), Action(conn, Save(lib.edit(base, note)))]);
      && RowReplaced(s.db, t.db, id, base + {lib.edit(base, note)}, note)
      && Done(NoteStore.Committed(lib, s, id, base, note), t, conn)
  {
    var base := s.db.notes[id].doc;
    RunTwo(lib, s, Action(conn, Load(id)), Action(conn, Save(lib.edit(base, note))));
    assert RowMatches(lib, id, s.db.notes[id]);
    ViewEdit(lib, base, note);
    UpdateReplaces(lib, s.db, id, base, base + {lib.edit(base, note)});
    hide Run, RowReplaced, ColumnsOf, Inv, Lawful;
    assert s.programs[conn := Editing(id, base)][conn := Idle] == s.programs[conn := Idle];
  }

  /** A new note is one INSERT. */
  lemma CreationIsInsert(lib: Crdt, s: System, conn: Conn, note: Fields)
    requires Lawful(lib) && Inv(lib, s) && conn !in s.programs
    requires note.id !in s.seen && note.modifiedAt !in s.stamps
    ensures var t := Step(lib, s, Action(conn, Create(note.id, lib.edit({}, note))));
      && RowAdded(s.db, t.db, note.id, {lib.edit({}, note)}, note)
      && Done(NoteStore.Created(lib, s, note), t, conn)
  {
    ViewEdit(lib, {}, note);
    assert {} + {lib.edit({}, note)} == {lib.edit({}, note)};
    KeysSeen(lib, s);
    InsertAdds(lib, s.db, note.id, {lib.edit({}, note)});
    hide RowAdded, ColumnsOf, Inv, Lawful;
  }

  /** A purge: pick the notes, read the tombstones, erase. */
  lemma PurgeIsPickReadErase(lib: Crdt, s: System, conn: Conn, pick: Op, ids: set<NoteId>, hash: nat)
    requires conn !in s.programs && ids != {}
    requires (pick.PickTrash? && ids == Trashed(s.db)) || (pick.PickTagged? && ids == WithTag(s.db, pick.tag))
    ensures var change := Erase(hash, ids);
      var t := Run(lib, s, [Action(conn, pick), Action(conn, ReadTombstones), Action(conn, Purge(change))]);
      Done(s.(db := PurgeRows(s.db, ids, TombstoneDoc(s.db) + {change})), t, conn)
  {
    var a, b, c := Action(conn, pick), Action(conn, ReadTombstones), Action(conn, Purge(Erase(hash, ids)));
    RunStep(lib, s, a, [b, c]);
    assert [a] + [b, c] == [a, b, c];
    RunTwo(lib, Step(lib, s, a), b, c);
    hide Run, Trashed, WithTag, PurgeRows, Tombstoned;
  }

  lemma PutReads(lib: Crdt, s: System, id: NoteId, doc: Doc)
    requires SYNC !in s.programs && OfNote(doc, id) && Hydrates(doc)
    ensures var t := Step(lib, Step(lib, s, Action(SYNC, StartPut(id, doc))), Action(SYNC, ReadRow));
      && t.db == s.db && t.seen == s.seen + {id} && t.stamps == s.stamps
      && ProgramOf(t, SYNC) == Checking(id, Merged(SelectDoc(s.db, id), doc), SelectDoc(s.db, id))
  {
  }

  lemma MergedWrites(lib: Crdt, s: System, id: NoteId, doc: Doc)
    requires s.db.notes.Keys !! s.db.purged
    requires ProgramOf(s, SYNC) == Checking(id, Merged(SelectDoc(s.db, id), doc), SelectDoc(s.db, id))
    ensures var t := Step(lib, Step(lib, s, Action(SYNC, CheckPurged)), Action(SYNC, Write));
      && t.db == AtomicPut(lib, s.db, id, doc) && t.seen == s.seen && ProgramOf(t, SYNC).Idle?
      && t.stamps == if id in s.db.purged then s.stamps else s.stamps + {t.db.notes[id].columns.modifiedAt}
  {
  }

  /** A received document: read the row, merge, check, write. */
  lemma PutIsReadCheckWrite(lib: Crdt, s: System, id: NoteId, doc: Doc)
    requires Lawful(lib) && Inv(lib, s) && SYNC !in s.programs && OfNote(doc, id) && Hydrates(doc)
    ensures var t := Run(lib, s, [Action(SYNC, StartPut(id, doc)), Action(SYNC, ReadRow), Action(SYNC, CheckPurged),
                                  Action(SYNC, Write)]);
      && t.db == AtomicPut(lib, s.db, id, doc) && t.seen == s.seen + {id} && ProgramOf(t, SYNC).Idle?
      && t.stamps == if id in s.db.purged then s.stamps else s.stamps + {t.db.notes[id].columns.modifiedAt}
  {
    var a, b, c, d := Action(SYNC, StartPut(id, doc)), Action(SYNC, ReadRow), Action(SYNC, CheckPurged),
                      Action(SYNC, Write);
    assert s.db.notes.Keys !! s.db.purged;
    hide Run, Inv, Lawful, Hydrates, OfNote, Step, AtomicPut;
    RunFour(lib, s, a, b, c, d);
    PutReads(lib, s, id, doc);
    MergedWrites(lib, Step(lib, Step(lib, s, a), b), id, doc);
  }

  lemma RunFour(lib: Crdt, s: System, a: Action, b: Action, c: Action, d: Action)
    ensures Run(lib, s, [a, b, c, d]) == Step(lib, Step(lib, Step(lib, Step(lib, s, a), b), c), d)
  {
    RunStep(lib, s, a, [b, c, d]);
    RunStep(lib, Step(lib, s, a), b, [c, d]);
    RunTwo(lib, Step(lib, Step(lib, s, a), b), c, d);
    hide *;
    assert [a] + [b, c, d] == [a, b, c, d] && [b] + [c, d] == [b, c, d];
  }

  /** A write that finds another row than it read writes nothing and starts over with its document. */
  lemma LostWriteStartsOver(lib: Crdt, s: System, conn: Conn, id: NoteId, doc: Doc, stored: Option<Doc>)
    requires ProgramOf(s, conn) == Writing(id, doc, stored) && SelectDoc(s.db, id) != stored
    ensures var t := Step(lib, s, Action(conn, Write));
      t.db == s.db && t.stamps == s.stamps && t.seen == s.seen && ProgramOf(t, conn) == Putting(id, doc)
  {
  }

  /** A received purge set: join it with the one stored, then erase all it lists. */
  lemma AdoptionIsReadAndErase(lib: Crdt, s: System, changes: Doc)
    requires SYNC !in s.programs && AllErase(changes)
    ensures var doc := TombstoneDoc(s.db) + changes;
      var t := Run(lib, s, [Action(SYNC, ReadForAdopt(changes)), Action(SYNC, Adopt)]);
      Done(NoteStore.Arrived(s, Erased(doc)).(db := PurgeRows(s.db, Erased(doc), doc)), t, SYNC)
  {
    RunTwo(lib, s, Action(SYNC, ReadForAdopt(changes)), Action(SYNC, Adopt));
    hide Run, PurgeRows, Erased;
  }

  // ---- the steps of a replica ----

  /** What an edit commits is what the replica's step makes of the rows. */
  lemma EditIsReplicaStep(lib: Crdt, before: System, after: System, pending: map<NoteId, Doc>, id: NoteId, base: Doc,
                          note: Fields)
    requires Lawful(lib) && Inv(lib, before) && NoteStore.Commits(lib, before, after, id, base, note)
    ensures Replicas.EditAt(lib, Replicas.Replica(before.db, pending), id, lib.edit(base, note))
         == Replicas.Replica(after.db, pending)
  {
    assert RowMatches(lib, id, before.db.notes[id]);
    ViewEdit(lib, base, note);
    hide Inv, Lawful, RowReplaced, ColumnsOf;
  }

  lemma CreationIsReplicaStep(lib: Crdt, before: System, pending: map<NoteId, Doc>, note: Fields)
    requires Lawful(lib) && Inv(lib, before) && note.id !in before.seen && SyncEngine.Parked(before, pending)
    ensures var change := lib.edit({}, note);
      Replicas.CreateAt(lib, Replicas.Replica(before.db, pending), note.id, change)
      == Replicas.Replica(NoteStore.Created(lib, before, note).db, pending)
  {
    ViewEdit(lib, {}, note);
    KeysSeen(lib, before);
    hide Inv, Lawful, ColumnsOf;
  }

  /** What accepted changes come to is what the replica's step makes of the message. */
  lemma ReceiptIsReplicaStep(lib: Crdt, before: Db, was: map<NoteId, Doc>, after: Db, pending: map<NoteId, Doc>,
                             docId: SyncEngine.DocId, changes: Doc)
    requires match docId
      case NoteDoc(id) => (after, pending) == SyncEngine.Absorb(lib, before, was, id, changes)
      case Tombstones =>
        var doc := TombstoneDoc(before) + changes;
        after == PurgeRows(before, Erased(doc), doc) && pending == was
    ensures Replicas.ReceiveAt(lib, Replicas.Replica(before, was), Replicas.Msg(docId, changes))
         == Replicas.Replica(after, pending)
  {
  }

  lemma PurgeIsReplicaStep(before: System, pending: map<NoteId, Doc>, ids: set<NoteId>, hash: nat)
    requires ids != {} && ids <= before.db.notes.Keys
    ensures var change := Erase(hash, ids);
      Replicas.PurgeAt(Replicas.Replica(before.db, pending), ids, hash)
      == Replicas.Replica(PurgeRows(before.db, ids, TombstoneDoc(before.db) + {change}), pending)
  {
  }
}
