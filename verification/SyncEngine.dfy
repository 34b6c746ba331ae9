/**
 The sync engine (sync.rs): per-peer protocol states, a parse cache guarded by row timestamps, and
 documents parked until they hydrate. The protocol itself is a library and is a parameter.
 */
module SyncEngine {
  import opened Text
  import opened Documents
  import opened Connections
  import NoteStore

  type Peer = nat
  /** Encoded sync messages and protocol states. */
  type Bytes = nat
  type State = nat

  datatype DocId = NoteDoc(id: NoteId) | Tombstones

  datatype Message = Message(changes: Doc, rest: nat)

  /** `generate` is `generate_sync_message`; `receive` is `receive_sync_message`, whose changes are merged. */
  datatype Protocol = Protocol(
    initial: State,
    generate: (Doc, State) -> (State, Option<Bytes>),
    decode: Bytes -> Option<Message>,
    receive: (Doc, State, Message) -> Option<State>,
    reusable: State -> State)

  datatype SyncError = DecodeError | ProtocolError(docId: DocId)
  datatype Received = Accepted | Failed(error: SyncError)

  // ---- what the engine keeps true of the store it works on ----

  /** A cached parse whose stamp is still the row's is the row's document. */
  ghost predicate Coherent(s: System, loaded: map<DocId, Doc>, stamps: map<NoteId, Stamp>) {
    && (forall id | id in stamps :: stamps[id] in s.stamps)
    && forall id | id in stamps && NoteDoc(id) in loaded && SelectStamp(s.db, id) == Some(stamps[id]) ::
         SelectDoc(s.db, id) == Some(loaded[NoteDoc(id)])
  }

  /** A parked document does not hydrate, and its note has no row. */
  ghost predicate Parked(s: System, pending: map<NoteId, Doc>) {
    forall id | id in pending ::
      id in s.seen && id !in s.db.notes && OfNote(pending[id], id) && !Hydrates(pending[id])
  }

  ghost predicate KnownRows(db: Db, loaded: map<DocId, Doc>) {
    forall id | NoteDoc(id) in loaded :: id in db.notes || id in db.purged
  }

  /** Where the changes of a note that is not purged are held. */
  function Held(db: Db, pending: map<NoteId, Doc>, id: NoteId): Doc {
    if id in pending then pending[id] else if id in db.notes then db.notes[id].doc else {}
  }

  /** No accepted change is lost: it is in the row or parked, unless the note was purged. */
  ghost predicate Conserved(db: Db, pending: map<NoteId, Doc>, accepted: map<NoteId, Doc>) {
    forall id | id in accepted :: id in db.purged || accepted[id] <= Held(db, pending, id)
  }

  ghost predicate EngineOk(s: System, pending: map<NoteId, Doc>, loaded: map<DocId, Doc>, stamps: map<NoteId, Stamp>) {
    Coherent(s, loaded, stamps) && Parked(s, pending) && KnownRows(s.db, loaded)
  }

  lemma CoherentLater(s: System, t: System, loaded: map<DocId, Doc>, stamps: map<NoteId, Stamp>)
    requires Coherent(s, loaded, stamps) && Evolves(s, t)
    ensures Coherent(t, loaded, stamps)
  {
    hide Grows, KeepsAbsent;
    forall id | id in stamps && NoteDoc(id) in loaded && SelectStamp(t.db, id) == Some(stamps[id])
      ensures SelectDoc(t.db, id) == Some(loaded[NoteDoc(id)])
    {
      assert RowOf(s.db, id) == RowOf(t.db, id);
    }
  }

  lemma ParkedLater(s: System, t: System, pending: map<NoteId, Doc>)
    requires Parked(s, pending) && Evolves(s, t)
    ensures Parked(t, pending)
  {
    hide Grows, FreshRows, OfNote, Hydrates;
  }

  lemma KnownLater(a: Db, b: Db, loaded: map<DocId, Doc>)
    requires KnownRows(a, loaded) && Grows(a, b)
    ensures KnownRows(b, loaded)
  {
    GrowsKeys(a, b);
  }

  lemma ConservedLater(s: System, t: System, pending: map<NoteId, Doc>, accepted: map<NoteId, Doc>)
    requires Conserved(s.db, pending, accepted) && Evolves(s, t)
    ensures Conserved(t.db, pending, accepted)
  {
    hide FreshRows, KeepsAbsent;
  }

  /** Whatever other connections do, the engine's caches and parked documents stay right. */
  lemma EngineLater(s: System, t: System, pending: map<NoteId, Doc>, loaded: map<DocId, Doc>,
                    stamps: map<NoteId, Stamp>)
    requires EngineOk(s, pending, loaded, stamps) && Evolves(s, t)
    ensures EngineOk(t, pending, loaded, stamps)
  {
    CoherentLater(s, t, loaded, stamps);
    ParkedLater(s, t, pending);
    KnownLater(s.db, t.db, loaded);
    hide Coherent, Parked, KnownRows;
  }

  // ---- generating messages ----

  /** The document an engine without caches would generate from. */
  function Source(db: Db, pending: map<NoteId, Doc>, docId: DocId): Option<Doc> {
    match docId
    case NoteDoc(id) => if id in pending then Some(pending[id]) else SelectDoc(db, id)
    case Tombstones => Some(TombstoneDoc(db))
  }

  /** `state_for`: the state kept for this peer and document, or a new one. */
  function StateOf(protocol: Protocol, states: map<(Peer, DocId), State>, peer: Peer, docId: DocId): State {
    if (peer, docId) in states then states[(peer, docId)] else protocol.initial
  }

  /** What an engine that parses the stored row afresh would answer, and its next protocol state. */
  function Answer(protocol: Protocol, source: Option<Doc>, state: State): (State, Option<Bytes>) {
    match source case Some(doc) => protocol.generate(doc, state) case None => (state, None)
  }

  /** The stamp read matches and the parse is cached: the document need not be fetched. */
  predicate Skips(loaded: map<DocId, Doc>, stamps: map<NoteId, Stamp>, id: NoteId, stamp: Option<Stamp>) {
    stamp.Some? && id in stamps && stamps[id] == stamp.value && NoteDoc(id) in loaded
  }

  lemma CachedIsStored(s: System, pending: map<NoteId, Doc>, loaded: map<DocId, Doc>, stamps: map<NoteId, Stamp>,
                       id: NoteId)
    requires EngineOk(s, pending, loaded, stamps) && id !in pending
    requires Skips(loaded, stamps, id, SelectStamp(s.db, id))
    ensures Source(s.db, pending, NoteDoc(id)) == Some(loaded[NoteDoc(id)])
  {
    hide Parked, KnownRows;
  }

  /** A stamp read before the document was fetched may be older than it, never newer. */
  lemma FetchedIsCoherent(lib: Crdt, s: System, t: System, pending: map<NoteId, Doc>, loaded: map<DocId, Doc>,
                          stamps: map<NoteId, Stamp>, id: NoteId)
    requires Inv(lib, s) && EngineOk(t, pending, loaded, stamps) && Evolves(s, t)
    requires SelectStamp(s.db, id).Some? && id in t.db.notes
    ensures EngineOk(t, pending, loaded[NoteDoc(id) := t.db.notes[id].doc], stamps[id := SelectStamp(s.db, id).value])
  {
    StampWritten(lib, s, id);
    var loaded', stamps' := loaded[NoteDoc(id) := t.db.notes[id].doc], stamps[id := SelectStamp(s.db, id).value];
    assert stamps'[id] in t.stamps by { hide Grows, KeepsAbsent, FreshRows; }
    hide Parked, Evolves, Inv;
    assert Coherent(t, loaded', stamps');
    assert KnownRows(t.db, loaded');
  }

  lemma StampWritten(lib: Crdt, s: System, id: NoteId)
    requires Inv(lib, s) && id in s.db.notes
    ensures SelectStamp(s.db, id).value in s.stamps
  {
    hide ColumnsMatch, ProgramsOk;
  }

  // ---- receiving messages ----

  /** The pure effect of accepted changes: they join what is held, and what hydrates is put. */
  function Absorb(lib: Crdt, db: Db, pending: map<NoteId, Doc>, id: NoteId, changes: Doc): (Db, map<NoteId, Doc>) {
    var doc := Held(db, pending, id) + changes;
    if Hydrates(doc) then (AtomicPut(lib, db, id, doc), pending - {id}) else (db, pending[id := doc])
  }

  /** Documents travel under their own id, and the purge set carries only purges. */
  ghost predicate TravelsAs(changes: Doc, docId: DocId) {
    match docId case NoteDoc(id) => OfNote(changes, id) case Tombstones => AllErase(changes)
  }

  /** The ids a message brings into use here. */
  function Named(changes: Doc, docId: DocId): set<NoteId> {
    match docId case NoteDoc(id) => {id} case Tombstones => Erased(changes)
  }

  /** The document a message is applied to. */
  function Basis(db: Db, pending: map<NoteId, Doc>, docId: DocId): Doc {
    match docId case NoteDoc(id) => Held(db, pending, id) case Tombstones => TombstoneDoc(db)
  }

  function Add(accepted: map<NoteId, Doc>, id: NoteId, changes: Doc): map<NoteId, Doc> {
    accepted[id := (if id in accepted then accepted[id] else {}) + changes]
  }

  /** The documents a receive may start from: parked, stored, or empty. */
  lemma HeldOfNote(lib: Crdt, s: System, pending: map<NoteId, Doc>, id: NoteId)
    requires Inv(lib, s) && Parked(s, pending)
    ensures OfNote(Held(s.db, pending, id), id)
    ensures id in s.db.notes ==> id !in pending && Hydrates(Held(s.db, pending, id))
  {
    if id in s.db.notes { assert RowMatches(lib, id, s.db.notes[id]); }
    hide Hydrates, OfNote, ProgramsOk;
  }

  lemma PutAbsorbs(lib: Crdt, s: System, t: System, pending: map<NoteId, Doc>, id: NoteId, changes: Doc)
    requires Inv(lib, s) && Inv(lib, t) && Evolves(s, t) && id in s.seen && Parked(s, pending)
    requires Hydrates(Held(s.db, pending, id) + changes) && id !in t.db.purged
    ensures (AtomicPut(lib, t.db, id, Held(s.db, pending, id) + changes), pending - {id})
         == Absorb(lib, t.db, pending, id, changes)
  {
    var doc := Held(s.db, pending, id) + changes;
    HeldLater(s, t, pending, id);
    HydratesMore(doc, Held(t.db, pending, id) + changes);
    hide Hydrates, OfNote, ColumnsOf, Inv, Evolves;
    if id in t.db.notes {
      assert t.db.notes[id].doc + doc == t.db.notes[id].doc + (Held(t.db, pending, id) + changes);
    }
  }

  lemma HeldLater(s: System, t: System, pending: map<NoteId, Doc>, id: NoteId)
    requires Evolves(s, t) && id in s.seen && Parked(s, pending) && id !in t.db.purged
    ensures id in pending ==> id !in t.db.notes
    ensures id in t.db.notes ==> Held(s.db, pending, id) <= t.db.notes[id].doc == Held(t.db, pending, id)
    ensures id !in t.db.notes ==> Held(s.db, pending, id) == Held(t.db, pending, id)
  {
    hide Hydrates, OfNote, FreshRows;
  }

  /** The engine after a put: nothing is cached for the note that was written. */
  lemma PutKeepsEngine(lib: Crdt, t: System, pending: map<NoteId, Doc>, loaded: map<DocId, Doc>,
                       stamps: map<NoteId, Stamp>, id: NoteId, doc: Doc)
    requires EngineOk(t, pending, loaded, stamps) && (NoteDoc(id) !in loaded || id in t.db.purged) && id !in pending
    requires Inv(lib, t)
    ensures EngineOk(NoteStore.PutSystem(lib, t, id, doc), pending, loaded, stamps)
  {
    hide Hydrates, OfNote, ColumnsOf, Inv;
  }

  lemma DropKeepsEngine(s: System, pending: map<NoteId, Doc>, loaded: map<DocId, Doc>, stamps: map<NoteId, Stamp>,
                        id: NoteId, docId: DocId)
    requires EngineOk(s, pending, loaded, stamps)
    ensures EngineOk(s, pending - {id}, loaded, stamps) && EngineOk(s, pending, loaded - {docId}, stamps)
  {
    hide Hydrates, OfNote;
  }

  lemma ParkKeepsEngine(s: System, pending: map<NoteId, Doc>, loaded: map<DocId, Doc>, stamps: map<NoteId, Stamp>,
                        id: NoteId, doc: Doc)
    requires EngineOk(s, pending, loaded, stamps)
    requires id in s.seen && id !in s.db.notes && OfNote(doc, id) && !Hydrates(doc)
    ensures EngineOk(s, pending[id := doc], loaded, stamps)
  {
    hide Hydrates, OfNote;
  }

  lemma PurgeKeepsEngine(lib: Crdt, t: System, pending: map<NoteId, Doc>, loaded: map<DocId, Doc>,
                         stamps: map<NoteId, Stamp>, ids: set<NoteId>, doc: Doc)
    requires EngineOk(t, pending, loaded, stamps)
    ensures EngineOk(t.(db := PurgeRows(t.db, ids, doc)), pending, loaded, stamps)
  {
    hide Hydrates, OfNote;
  }

  /** Accepted changes are still held afterwards, and so are all others. */
  lemma AbsorbConserves(lib: Crdt, t: System, pending: map<NoteId, Doc>, accepted: map<NoteId, Doc>,
                        id: NoteId, changes: Doc)
    requires Conserved(t.db, pending, accepted) && id !in t.db.purged && (id in pending ==> id !in t.db.notes)
    ensures var (db, parked) := Absorb(lib, t.db, pending, id, changes);
      Conserved(db, parked, Add(accepted, id, changes))
  {
    hide Hydrates, ColumnsOf;
  }

  lemma DroppedConserves(t: System, pending: map<NoteId, Doc>, parked: map<NoteId, Doc>, accepted: map<NoteId, Doc>,
                         id: NoteId, changes: Doc)
    requires Conserved(t.db, pending, accepted) && id in t.db.purged && parked - {id} == pending - {id}
    ensures Conserved(t.db, parked, Add(accepted, id, changes))
  {
    assert forall x | x != id :: (x in parked <==> x in parked - {id}) && (x in pending <==> x in pending - {id});
    assert forall x | x in parked - {id} :: parked[x] == (parked - {id})[x] == (pending - {id})[x] == pending[x];
  }

  lemma PurgeConserves(t: System, pending: map<NoteId, Doc>, accepted: map<NoteId, Doc>, ids: set<NoteId>, doc: Doc)
    requires Conserved(t.db, pending, accepted)
    ensures Conserved(PurgeRows(t.db, ids, doc), pending, accepted)
  {
  }

  lemma TakenKeepsEngine(s: System, pending: map<NoteId, Doc>, loaded: map<DocId, Doc>, stamps: map<NoteId, Stamp>,
                         docId: DocId, pending': map<NoteId, Doc>, loaded': map<DocId, Doc>)
    requires EngineOk(s, pending, loaded, stamps)
    requires if docId.NoteDoc? && docId.id in pending then pending' == pending - {docId.id} && loaded' == loaded
             else pending' == pending && (|| loaded' == loaded - {docId}
                                          || (loaded' == loaded && (docId.NoteDoc? ==> docId.id !in s.db.notes)))
    ensures EngineOk(s, pending', loaded', stamps) && Parked(s, pending)
    ensures docId.NoteDoc? ==> pending' == pending - {docId.id} && (docId !in loaded' || docId.id in s.db.purged)
  {
    if docId.NoteDoc? {
      DropKeepsEngine(s, pending, loaded, stamps, docId.id, docId);
    } else {
      DropKeepsEngine(s, pending, loaded, stamps, 0, docId);
    }
    hide Hydrates, OfNote, Coherent;
  }

  /** What putting a received document comes to, others having stepped from `s` to `before` meanwhile. */
  lemma StoredDoc(lib: Crdt, s: System, before: System, after: System, others: seq<Action>, was: map<NoteId, Doc>,
                  pending: map<NoteId, Doc>, loaded: map<DocId, Doc>, stamps: map<NoteId, Stamp>,
                  accepted: map<NoteId, Doc>, id: NoteId, changes: Doc)
    requires Inv(lib, s) && Local(others) && before == Run(lib, s, others) && Parked(s, was) && id in s.seen
    requires after == NoteStore.PutSystem(lib, before, id, Held(s.db, was, id) + changes)
    requires Hydrates(Held(s.db, was, id) + changes) && pending == was - {id}
    requires EngineOk(s, pending, loaded, stamps) && Conserved(s.db, was, accepted)
    requires NoteDoc(id) !in loaded || id in s.db.purged
    ensures EngineOk(after, pending, loaded, stamps) && Conserved(after.db, pending, Add(accepted, id, changes))
    ensures if id in before.db.purged then after == before
            else (after.db, pending) == Absorb(lib, before.db, was, id, changes)
  {
    var doc := Held(s.db, was, id) + changes;
    LocalRunEvolves(lib, s, others);
    EngineLater(s, before, pending, loaded, stamps);
    PurgedLater(s, before, id);
    PutKeepsEngine(lib, before, pending, loaded, stamps, id, doc);
    ConservedLater(s, before, was, accepted);
    hide Inv, Run, Evolves, EngineOk, Conserved, Parked, OfNote, Hydrates, Absorb, Local, Held, AtomicPut;
    if id in before.db.purged {
      DroppedConserves(before, was, pending, accepted, id, changes);
    } else {
      HeldLater(s, before, was, id);
      PutAbsorbs(lib, s, before, was, id, changes);
      AbsorbConserves(lib, before, was, accepted, id, changes);
    }
  }

  lemma SeenLater(s: System, t: System, id: NoteId)
    requires Evolves(s, t) && id in s.seen
    ensures id in t.seen
  {
  }

  lemma PutMeans(lib: Crdt, s: System, before: System, after: System, id: NoteId, doc: Doc, r: NoteStore.Result<Fields>)
    requires r.Ok? && NoteStore.PutOutcome(lib, s, before, after, id, doc, r.value)
    ensures Evolves(s, before) && after == NoteStore.PutSystem(lib, before, id, doc)
  {
    hide Evolves, NoteStore.PutSystem;
  }

  lemma AlreadyHere(s: System, id: NoteId)
    requires id in s.seen
    ensures NoteStore.Arrived(s, {id}) == s
  {
    assert s.seen + {id} == s.seen;
  }

  lemma PurgedLater(s: System, t: System, id: NoteId)
    requires Evolves(s, t)
    ensures id in s.db.purged ==> id in t.db.purged
  {
  }

  lemma ParkedDoc(lib: Crdt, s: System, was: map<NoteId, Doc>, pending: map<NoteId, Doc>, accepted: map<NoteId, Doc>,
                  id: NoteId, changes: Doc)
    requires Conserved(s.db, was, accepted) && pending == was - {id} && Parked(s, was)
    requires !Hydrates(Held(s.db, was, id) + changes)
    ensures var doc := Held(s.db, was, id) + changes;
      && Conserved(s.db, pending[id := doc], Add(accepted, id, changes))
      && pending[id := doc] - {id} == was - {id}
      && (s.db, pending[id := doc]) == Absorb(lib, s.db, was, id, changes)
  {
    var doc := Held(s.db, was, id) + changes;
    assert pending[id := doc] == was[id := doc];
    if id in s.db.purged {
      DroppedConserves(s, was, was[id := doc], accepted, id, changes);
    } else {
      AbsorbConserves(lib, s, was, accepted, id, changes);
    }
    hide Conserved, Hydrates, OfNote;
  }

  /** Dropping a parked document loses exactly what was accepted into it. */
  lemma ParkedLost(s: System, was: map<NoteId, Doc>, pending: map<NoteId, Doc>, accepted: map<NoteId, Doc>, id: NoteId)
    requires Conserved(s.db, was, accepted) && Parked(s, was) && pending == was - {id}
    ensures id !in was ==> pending == was
    ensures id in was ==>
      (Conserved(s.db, pending, accepted) <==> id in s.db.purged || id !in accepted || accepted[id] == {})
  {
    hide Hydrates, OfNote;
    if id in was {
      assert Held(s.db, pending, id) == {};
      assert forall x | x != id :: Held(s.db, pending, x) == Held(s.db, was, x);
    }
  }

  /** New changes are owed too, unless a document of the note was dropped before. */
  lemma OwedMore(db: Db, pending: map<NoteId, Doc>, accepted: map<NoteId, Doc>, dropped: set<NoteId>,
                 id: NoteId, changes: Doc)
    requires Conserved(db, pending, Add(accepted - dropped, id, changes))
    ensures Conserved(db, pending, Add(accepted, id, changes) - dropped)
  {
    hide Held;
  }

  lemma OwedLess(s: System, was: map<NoteId, Doc>, pending: map<NoteId, Doc>, accepted: map<NoteId, Doc>,
                 dropped: set<NoteId>, id: NoteId)
    requires Conserved(s.db, was, accepted - dropped) && pending == was - {id}
    ensures Conserved(s.db, pending, accepted - (dropped + {id}))
    ensures id !in was ==> Conserved(s.db, pending, accepted - dropped)
  {
    if id !in was { assert pending == was; }
    forall x | x in accepted - (dropped + {id})
      ensures x in s.db.purged || accepted[x] <= Held(s.db, pending, x)
    {
      assert x in accepted - dropped && Held(s.db, pending, x) == Held(s.db, was, x);
    }
  }

  class SyncEngine {
    const lib: Crdt
    const protocol: Protocol
    var states: map<(Peer, DocId), State>
    var pending: map<NoteId, Doc>
    var loaded: map<DocId, Doc>
    var stamps: map<NoteId, Stamp>
    var noteBlobFetches: nat
    /** Every change ever accepted, by note. */
    ghost var accepted: map<NoteId, Doc>
    /** Notes of which a protocol error dropped a parked document. */
    ghost var dropped: set<NoteId>

    /** The engine and the store it works on: between two messages no accepted change is missing. */
    ghost predicate Valid(store: NoteStore.NoteStore)
      reads this, store, store.search, store.parked
    {
      Linked(store) && Conserved(store.sys.db, pending, accepted - dropped)
    }

    /** What holds also while a message is applied. */
    ghost predicate Linked(store: NoteStore.NoteStore)
      reads this, store, store.search, store.parked
    {
      && store.Valid() && store.conn == SYNC && store.lib == lib && store.savepoint.None?
      && EngineOk(store.sys, pending, loaded, stamps)
    }

    constructor (lib: Crdt, protocol: Protocol, store: NoteStore.NoteStore)
      requires store.Valid() && store.conn == SYNC && store.lib == lib && store.savepoint.None?
      ensures Valid(store) && this.protocol == protocol && states == map[] && pending == map[] && accepted == map[]
      ensures dropped == {}
    {
      this.lib, this.protocol := lib, protocol;
      states, pending, loaded, stamps, noteBlobFetches := map[], map[], map[], map[], 0;
      accepted, dropped := map[], {};
    }

    /** Everything stored, everything parked, and the purge set. */
    method DocIds(store: NoteStore.NoteStore) returns (ids: set<DocId>)
      requires Valid(store)
      modifies store`sys, store`schedule
      ensures Valid(store) && Evolves(old(store.sys), store.sys)
      ensures ids == (set id | id in store.sys.db.notes :: NoteDoc(id)) + {Tombstones}
                     + set id | id in pending :: NoteDoc(id)
    {
      var stored;
      ghost var read;
      stored, read := store.ListAllIds();
      WaitedEngine(lib, old(store.sys), store.sys, read, pending, loaded, stamps);
      ConservedLater(old(store.sys), store.sys, pending, accepted - dropped);
      ids := (set id | id in stored :: NoteDoc(id)) + {Tombstones} + set id | id in pending :: NoteDoc(id);
    }

    /** The cached parse is good for this row as it is. */
    ghost predicate Primed(db: Db, docId: DocId)
      reads this
    {
      docId.NoteDoc? && docId.id !in pending && Skips(loaded, stamps, docId.id, SelectStamp(db, docId.id))
    }

    /** The document to generate from when the stamp did not settle it: parked, or fetched and cached. */
    method FetchSource(store: NoteStore.NoteStore, docId: DocId, freshStamp: Option<Stamp>)
      returns (source: Option<Doc>)
      requires Linked(store)
      requires freshStamp == if docId.NoteDoc? && docId.id !in pending then SelectStamp(store.sys.db, docId.id)
                             else None
      modifies this`loaded, this`stamps, this`noteBlobFetches, store`sys, store`schedule
      ensures Linked(store) && Evolves(old(store.sys), store.sys)
      ensures source == Source(store.sys.db, pending, docId)
      ensures noteBlobFetches == old(noteBlobFetches) + if docId.NoteDoc? then 1 else 0
      ensures old(store.schedule) == [] ==> store.schedule == [] && store.sys == old(store.sys)
      ensures old(store.schedule) == [] && docId.NoteDoc? && docId.id !in pending && docId.id in store.sys.db.notes ==>
        Primed(store.sys.db, docId)
    {
      hide Inv, Run, Evolves, EngineOk, NoteStore.InTurn, NoteStore.Waited;
      ghost var stamped := store.sys;
      var stored;
      ghost var read;
      if docId.Tombstones? {
        stored, read := store.TombstoneDocBytes();
      } else {
        noteBlobFetches := noteBlobFetches + 1;
        stored, read := store.GetDocBytes(docId.id);
      }
      WaitedEngine(lib, stamped, store.sys, read, pending, loaded, stamps);
      if docId.NoteDoc? && docId.id in pending {
        source := Some(pending[docId.id]);
      } else if stored.Some? {
        if docId !in loaded || loaded[docId] != stored.value { loaded := loaded[docId := stored.value]; }
        if freshStamp.Some? { stamps := stamps[docId.id := freshStamp.value]; }
        source := Some(loaded[docId]);
        Cached(lib, stamped, store.sys, pending, old(loaded), old(stamps), docId, freshStamp, loaded, stamps);
      } else {
        source := if docId.Tombstones? then Some({}) else None;
      }
    }

    /**
     The next message for a peer. With its two caches the engine answers as one that parses the row
     afresh would, at its last read of the store, whatever was written between its reads.
     */
    method GenerateMessage(store: NoteStore.NoteStore, peer: Peer, docId: DocId) returns (message: Option<Bytes>)
      requires Valid(store)
      modifies this`states, this`loaded, this`stamps, this`noteBlobFetches, store`sys, store`schedule
      ensures Valid(store) && Evolves(old(store.sys), store.sys)
      ensures
        var state := if (peer, docId) in old(states) then old(states)[(peer, docId)] else protocol.initial;
        match Source(store.sys.db, pending, docId)
        case Some(doc) =>
          && states == old(states)[(peer, docId) := protocol.generate(doc, state).0]
          && message == protocol.generate(doc, state).1
        case None => message == None && states == old(states)[(peer, docId) := state]
      ensures old(store.schedule) == [] ==> store.schedule == [] && store.sys == old(store.sys)
      ensures old(noteBlobFetches) <= noteBlobFetches <= old(noteBlobFetches) + 1
      ensures old(store.schedule) == [] && old(Primed(store.sys.db, docId)) ==> noteBlobFetches == old(noteBlobFetches)
      ensures old(store.schedule) == [] && docId.NoteDoc? && docId.id !in pending && docId.id in store.sys.db.notes ==>
        Primed(store.sys.db, docId)
    {
      hide Inv, Run, Evolves, EngineOk, NoteStore.InTurn, NoteStore.Waited;
      var state := StateOf(protocol, states, peer, docId);
      var freshStamp: Option<Stamp> := None;
      hide Conserved;
      ghost var start, first := store.sys, [];
      EvolvesRefl(start);
      if docId.NoteDoc? && docId.id !in pending {
        freshStamp, first := store.GetModifiedAt(docId.id);
        WaitedEngine(lib, start, store.sys, first, pending, loaded, stamps);
        if Skips(loaded, stamps, docId.id, freshStamp) {
          CachedIsStored(store.sys, pending, loaded, stamps, docId.id);
          ConservedLater(start, store.sys, pending, accepted - dropped);
          var next := protocol.generate(loaded[docId], state);
          states := states[(peer, docId) := next.0];
          return next.1;
        }
      }
      ghost var stamped := store.sys;
      var source := FetchSource(store, docId, freshStamp);
      EvolvesTransitive(start, stamped, store.sys);
      ConservedLater(start, store.sys, pending, accepted - dropped);
      var next := Answer(protocol, source, state);
      states := states[(peer, docId) := next.0];
      message := next.1;
    }

    /** The document a message is applied to; it leaves the caches, for it is about to change. */
    method TakeDoc(store: NoteStore.NoteStore, docId: DocId) returns (doc: Doc)
      requires Linked(store)
      modifies this`pending, this`loaded, store`sys, store`schedule
      ensures Linked(store) && Evolves(old(store.sys), store.sys) && doc == Basis(store.sys.db, old(pending), docId)
      ensures match docId
        case NoteDoc(id) => pending == old(pending) - {id} && (docId !in loaded || id in store.sys.db.purged)
        case Tombstones => pending == old(pending)
      ensures Parked(store.sys, old(pending))
      ensures old(store.schedule) == [] ==> store.schedule == [] && store.sys == old(store.sys)
    {
      hide Inv, Run, Evolves, EngineOk, NoteStore.InTurn, NoteStore.Waited;
      var stored;
      ghost var read;
      if docId.Tombstones? {
        stored, read := store.TombstoneDocBytes();
      } else {
        stored, read := store.GetDocBytes(docId.id);
      }
      WaitedEngine(lib, old(store.sys), store.sys, read, pending, loaded, stamps);
      ghost var loadedThen := loaded;
      if docId.NoteDoc? && docId.id in pending {
        doc := pending[docId.id];
        pending := pending - {docId.id};
      } else if stored.Some? {
        doc := if docId in loaded && loaded[docId] == stored.value then loaded[docId] else stored.value;
        loaded := loaded - {docId};
      } else {
        doc := {};
      }
      TakenKeepsEngine(store.sys, old(pending), loadedThen, stamps, docId, pending, loaded);
    }

    /** What a received note document comes to: a put if it hydrates, else a place among the parked. */
    method StoreOrPark(store: NoteStore.NoteStore, id: NoteId, doc: Doc, ghost was: map<NoteId, Doc>,
                       ghost changes: Doc)
      returns (ghost before: System)
      requires Linked(store) && pending == was - {id} && Parked(store.sys, was)
      requires Conserved(store.sys.db, was, accepted - dropped)
      requires doc == Held(store.sys.db, was, id) + changes && OfNote(changes, id) && id in store.sys.seen
      requires NoteDoc(id) !in loaded || id in store.sys.db.purged
      modifies this`pending, this`accepted, store`sys, store`schedule, store.search
      ensures Valid(store) && Evolves(old(store.sys), before) && accepted == Add(old(accepted), id, changes)
      ensures if id in before.db.purged then store.sys == before && pending - {id} == was - {id}
              else (store.sys.db, pending) == Absorb(lib, before.db, was, id, changes)
      ensures store.StaysInStep()
    {
      hide Inv, Run, Evolves, EngineOk, NoteStore.InTurn, Conserved, Parked, OfNote, NoteStore.PutSystem, Local;
      hide Absorb, Held, Lawful, RowWrites, Add, NoteStore.Arrived, NoteStore.PutOutcome, Hydrates, OneMesh, Others;
      before := store.sys;
      HeldOfNote(lib, store.sys, was, id);
      MergedOfNote(Held(store.sys.db, was, id), changes, id);
      EvolvesRefl(store.sys);
      if Hydrates(doc) {
        ViewId(lib, doc, id);
        AlreadyHere(store.sys, id);
        ghost var s := store.sys;
        var put;
        ghost var others, passes;
        put, others, passes := store.PutDoc(doc, true);
        before := Run(lib, s, others);
        PutMeans(lib, s, before, store.sys, id, doc, put);
        StoredDoc(lib, s, before, store.sys, others, was, pending, loaded, stamps, accepted - dropped, id, changes);
      } else {
        HydratesStill(Held(store.sys.db, was, id), doc);
        ParkKeepsEngine(store.sys, pending, loaded, stamps, id, doc);
        ParkedDoc(lib, store.sys, was, pending, accepted - dropped, id, changes);
        pending := pending[id := doc];
      }
      OwedMore(store.sys.db, pending, accepted, dropped, id, changes);
      accepted := Add(accepted, id, changes);
    }

    /** What a received purge set comes to: all it lists is erased here, and it takes the old one's place. */
    method Adopt(store: NoteStore.NoteStore, doc: Doc) returns (ghost before: System)
      requires Valid(store)
      modifies store`sys, store`schedule, store.search
      ensures Valid(store) && Evolves(old(store.sys), before)
      ensures store.sys.db == PurgeRows(before.db, Erased(doc), doc)
      ensures Tombstoned(store.sys.db) == store.sys.db.purged <==> before.db.purged <= Erased(doc)
      ensures store.StaysInStep()
    {
      hide Inv, Run, Evolves, EngineOk, NoteStore.InTurn, Conserved, Erased, NoteStore.Waited;
      ghost var start := NoteStore.Arrived(store.sys, Erased(doc));
      NoteStore.ArrivedInv(lib, store.sys, Erased(doc));
      EngineLater(store.sys, start, pending, loaded, stamps);
      ghost var others;
      var erased;
      erased, others := store.AdoptTombstoneDoc(doc);
      before := Run(lib, start, others);
      WaitedEngine(lib, start, before, others, pending, loaded, stamps);
      EvolvesTransitive(old(store.sys), start, before);
      ConservedLater(old(store.sys), before, pending, accepted - dropped);
      PurgeKeepsEngine(lib, before, pending, loaded, stamps, Erased(doc), doc);
      PurgeConserves(before, pending, accepted - dropped, Erased(doc), doc);
    }

    /** The start of a message: its ids are in use from now on, and the document is taken. */
    method Begin(store: NoteStore.NoteStore, docId: DocId, changes: Doc) returns (doc: Doc)
      requires Valid(store)
      modifies this`pending, this`loaded, store`sys, store`schedule
      ensures Linked(store) && Evolves(old(store.sys), store.sys) && doc == Basis(store.sys.db, old(pending), docId)
      ensures match docId
        case NoteDoc(id) =>
          && pending == old(pending) - {id} && (docId !in loaded || id in store.sys.db.purged) && id in store.sys.seen
        case Tombstones => pending == old(pending)
      ensures Parked(store.sys, old(pending)) && Conserved(store.sys.db, old(pending), accepted - dropped)
      ensures old(store.schedule) == [] ==> store.schedule == [] && store.sys.db == old(store.sys.db)
    {
      hide Inv, Run, Evolves, EngineOk, NoteStore.InTurn, NoteStore.Waited, Lawful, OneMesh, Others;
      hide Conserved, Parked, Erased, Held;
      NoteStore.ArrivedInv(lib, store.sys, Named(changes, docId));
      store.Arrive(Named(changes, docId));
      ghost var arrived := store.sys;
      EngineLater(old(store.sys), arrived, pending, loaded, stamps);
      ConservedLater(old(store.sys), arrived, pending, accepted - dropped);
      doc := TakeDoc(store, docId);
      ConservedLater(arrived, store.sys, old(pending), accepted - dropped);
      EvolvesTransitive(old(store.sys), arrived, store.sys);
      if docId.NoteDoc? { SeenLater(arrived, store.sys, docId.id); }
    }

    /**
     Apply a message to the document as read. Its changes join what is held; a document that hydrates
     is stored, one that does not is parked, a purge set is adopted. Nothing accepted is lost, but a
     protocol error drops a parked document.
     */
    method ReceiveMessage(store: NoteStore.NoteStore, peer: Peer, docId: DocId, bytes: Bytes)
      returns (r: Received, ghost read: System, ghost before: System)
      requires Valid(store)
      requires var m := protocol.decode(bytes); m.Some? ==> TravelsAs(m.value.changes, docId)
      modifies this`states, this`pending, this`loaded, this`accepted, this`dropped
      modifies store`sys, store`schedule, store.search
      ensures Valid(store) && Evolves(old(store.sys), read) && Evolves(read, before)
      ensures match protocol.decode(bytes)
        case None => r == Failed(DecodeError) && states == old(states) && store.sys == old(store.sys)
        case Some(message) =>
          var state := if (peer, docId) in old(states) then old(states)[(peer, docId)] else protocol.initial;
          match protocol.receive(Basis(read.db, old(pending), docId), state, message)
          case None => r == Failed(ProtocolError(docId)) && states == old(states)[(peer, docId) := state]
          case Some(next) => r == Accepted && states == old(states)[(peer, docId) := next]
      ensures old(store.schedule) == [] ==> read.db == old(store.sys.db)
      ensures r.Failed? ==> store.sys == before && accepted == old(accepted)
      ensures r.Failed? ==>
        pending == if r.error.ProtocolError? && docId.NoteDoc? then old(pending) - {docId.id} else old(pending)
      ensures r.Accepted? && docId.NoteDoc? ==>
        var changes := protocol.decode(bytes).value.changes;
        && accepted == Add(old(accepted), docId.id, changes)
        && (if docId.id in before.db.purged
            then store.sys == before && pending - {docId.id} == old(pending) - {docId.id}
            else (store.sys.db, pending) == Absorb(lib, before.db, old(pending), docId.id, changes))
      ensures r.Accepted? && docId.Tombstones? ==>
        var doc := TombstoneDoc(read.db) + protocol.decode(bytes).value.changes;
        && store.sys.db == PurgeRows(before.db, Erased(doc), doc)
        && pending == old(pending) && accepted == old(accepted)
        && (Tombstoned(store.sys.db) == store.sys.db.purged <==> before.db.purged <= Erased(doc))
      ensures dropped == if r.Failed? && r.error.ProtocolError? && docId.NoteDoc? && docId.id in old(pending)
                         then old(dropped) + {docId.id} else old(dropped)
      ensures r.Failed? && r.error.ProtocolError? && docId.NoteDoc? && docId.id in old(pending) ==>
        (Conserved(store.sys.db, pending, old(accepted) - old(dropped)) <==>
         || docId.id in store.sys.db.purged || docId.id !in old(accepted) - old(dropped)
         || old(accepted)[docId.id] == {})
      ensures store.StaysInStep()
    {
      hide Inv, Run, Evolves, EngineOk, NoteStore.InTurn, NoteStore.Waited;
      hide Conserved, Parked, Absorb, Erased, PurgeRows, Lawful, OneMesh, Others, OfNote, Hydrates, Held;
      EvolvesRefl(store.sys);
      read, before := store.sys, store.sys;
      var message := protocol.decode(bytes);
      if message.None? { return Failed(DecodeError), read, before; }
      var changes := message.value.changes;
      var doc := Begin(store, docId, changes);
      read, before := store.sys, store.sys;
      EvolvesRefl(read);
      var state := StateOf(protocol, states, peer, docId);
      var next := protocol.receive(doc, state, message.value);
      if next.None? {
        states := states[(peer, docId) := state];
        if docId.NoteDoc? {
          ParkedLost(store.sys, old(pending), pending, accepted - dropped, docId.id);
          OwedLess(store.sys, old(pending), pending, accepted, dropped, docId.id);
          if docId.id in old(pending) { dropped := dropped + {docId.id}; }
        }
        return Failed(ProtocolError(docId)), read, before;
      }
      states := states[(peer, docId) := next.value];
      r := Accepted;
      match docId {
        case NoteDoc(id) =>
          before := StoreOrPark(store, id, doc + changes, old(pending), changes);
        case Tombstones =>
          before := Adopt(store, doc + changes);
      }
    }

    /** A disconnect: every state of the peer falls back to the part that outlives a connection. */
    method ResetPeer(peer: Peer)
      modifies this`states
      ensures states.Keys == old(states).Keys
      ensures forall p, d | (p, d) in states ::
        states[(p, d)] == if p == peer then protocol.reusable(old(states)[(p, d)]) else old(states)[(p, d)]
    {
      states := map key | key in states :: if key.0 == peer then protocol.reusable(states[key]) else states[key];
    }

    /** Unpairing: every state of the peer goes, and no other. */
    method ForgetPeer(peer: Peer)
      modifies this`states
      ensures forall p, d :: (p, d) in states <==> p != peer && (p, d) in old(states)
      ensures forall p, d | (p, d) in states :: states[(p, d)] == old(states)[(p, d)]
    {
      states := map key | key in states && key.0 != peer :: states[key];
    }
  }

  lemma WaitedEngine(lib: Crdt, s: System, t: System, read: seq<Action>, pending: map<NoteId, Doc>,
                     loaded: map<DocId, Doc>, stamps: map<NoteId, Stamp>)
    requires NoteStore.Waited(lib, s, t, read, SYNC) && EngineOk(s, pending, loaded, stamps)
    ensures EngineOk(t, pending, loaded, stamps) && Evolves(s, t)
  {
    hide Run, Grows, Evolves, EngineOk;
    EngineLater(s, t, pending, loaded, stamps);
  }

  /** Caching what was fetched keeps the caches right. */
  lemma Cached(lib: Crdt, s: System, t: System, pending: map<NoteId, Doc>, loaded: map<DocId, Doc>,
               stamps: map<NoteId, Stamp>, docId: DocId, stamp: Option<Stamp>,
               loaded': map<DocId, Doc>, stamps': map<NoteId, Stamp>)
    requires Inv(lib, s) && EngineOk(t, pending, loaded, stamps) && Evolves(s, t)
    requires match docId
      case NoteDoc(id) => id in t.db.notes && id !in pending && stamp == SelectStamp(s.db, id)
        && loaded' == loaded[docId := t.db.notes[id].doc]
        && stamps' == if stamp.Some? then stamps[id := stamp.value] else stamps
      case Tombstones => stamp.None? && stamps' == stamps && loaded' == loaded[docId := TombstoneDoc(t.db)]
    ensures EngineOk(t, pending, loaded', stamps')
  {
    hide Inv, Evolves;
    match docId
    case NoteDoc(id) =>
      if stamp.Some? {
        FetchedIsCoherent(lib, s, t, pending, loaded, stamps, id);
      } else {
        hide Parked;
        assert Coherent(t, loaded', stamps');
      }
    case Tombstones =>
      hide Parked;
      assert Coherent(t, loaded', stamps');
  }
}
