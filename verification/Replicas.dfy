/**
 Any number of stores exchanging documents (sync.rs, store/purge.rs). Messages carry any part of
 the sender's document and may be lost, repeated, delayed and reordered at will. Each purge, each
 adopted purge set and each received document is one step.
 */
module Replicas {
  import opened Text
  import opened Documents
  import opened SyncEngine
  import Connections

  datatype Replica = Replica(db: Db, pending: map<NoteId, Doc>)
  datatype Msg = Msg(docId: DocId, changes: Doc)
  /** `sent`: every message ever sent; any of them may arrive anywhere, any number of times. */
  datatype Mesh = Mesh(replicas: seq<Replica>, sent: set<Msg>)

  datatype Act =
    | EditNote(at: nat, id: NoteId, change: Change)
    | NewNote(at: nat, id: NoteId, change: Change)
    | PurgeNotes(at: nat, ids: set<NoteId>, hash: nat)
    | Send(at: nat, msg: Msg)
    | Deliver(at: nat, msg: Msg)

  function HeldBy(r: Replica, id: NoteId): Doc {
    Held(r.db, r.pending, id)
  }

  // ---- the steps of one replica ----

  function EditAt(lib: Crdt, r: Replica, id: NoteId, change: Change): Replica {
    if id in r.db.notes && change.Edit? && change.note == id then
      r.(db := UpdateWhere(lib, r.db, id, r.db.notes[id].doc, r.db.notes[id].doc + {change}))
    else r
  }

  function CreateAt(lib: Crdt, r: Replica, id: NoteId, change: Change): Replica {
    if Connections.Absent(r.db, id) && id !in r.pending && change.Edit? && change.note == id && change.creates then
      r.(db := InsertOrIgnore(lib, r.db, id, {change}))
    else r
  }

  function PurgeAt(r: Replica, ids: set<NoteId>, hash: nat): Replica {
    if ids != {} && ids <= r.db.notes.Keys then
      r.(db := PurgeRows(r.db, ids, Connections.TombstoneDoc(r.db) + {Erase(hash, ids)}))
    else r
  }

  function ReceiveAt(lib: Crdt, r: Replica, msg: Msg): Replica {
    match msg.docId
    case NoteDoc(id) =>
      var (db, pending) := Absorb(lib, r.db, r.pending, id, msg.changes);
      Replica(db, pending)
    case Tombstones =>
      var doc := Connections.TombstoneDoc(r.db) + msg.changes;
      r.(db := PurgeRows(r.db, Erased(doc), doc))
  }

  predicate MaySend(r: Replica, msg: Msg) {
    match Source(r.db, r.pending, msg.docId) case Some(doc) => msg.changes <= doc case None => false
  }

  function StepAt(lib: Crdt, m: Mesh, a: Act): Replica
    requires a.at < |m.replicas|
  {
    var r := m.replicas[a.at];
    match a
    case EditNote(_, id, change) => EditAt(lib, r, id, change)
    case NewNote(_, id, change) => CreateAt(lib, r, id, change)
    case PurgeNotes(_, ids, hash) => PurgeAt(r, ids, hash)
    case Send(_, _) => r
    case Deliver(_, msg) => if msg in m.sent then ReceiveAt(lib, r, msg) else r
  }

  function Step(lib: Crdt, m: Mesh, a: Act): Mesh {
    if a.at >= |m.replicas| then m
    else Mesh(m.replicas[a.at := StepAt(lib, m, a)],
              if a.Send? && MaySend(m.replicas[a.at], a.msg) then m.sent + {a.msg} else m.sent)
  }

  function Run(lib: Crdt, m: Mesh, acts: seq<Act>): Mesh {
    if acts == [] then m else Step(lib, Run(lib, m, acts[..|acts| - 1]), acts[|acts| - 1])
  }

  // ---- what each replica keeps ----

  ghost predicate ReplicaOk(lib: Crdt, r: Replica) {
    && ColumnsMatch(lib, r.db)
    && r.db.notes.Keys !! r.db.purged
    && Tombstoned(r.db) == r.db.purged
    && forall id | id in r.pending :: id !in r.db.notes && OfNote(r.pending[id], id) && !Hydrates(r.pending[id])
  }

  ghost predicate MsgOk(msg: Msg) {
    match msg.docId case NoteDoc(id) => OfNote(msg.changes, id) case Tombstones => true
  }

  /** Purges and, of notes not purged, changes are only ever gained. */
  ghost predicate Rises(r: Replica, t: Replica) {
    r.db.purged <= t.db.purged && forall id | id !in t.db.purged :: HeldBy(r, id) <= HeldBy(t, id)
  }

  lemma RisesTransitive(a: Replica, b: Replica, c: Replica)
    requires Rises(a, b) && Rises(b, c)
    ensures Rises(a, c)
  {
    hide HeldBy;
  }

  lemma HeldIsOfNote(lib: Crdt, r: Replica, id: NoteId)
    requires ReplicaOk(lib, r)
    ensures OfNote(HeldBy(r, id), id) && (id in r.db.notes <==> Hydrates(HeldBy(r, id)))
  {
    if id in r.db.notes { assert RowMatches(lib, id, r.db.notes[id]); }
    hide OfNote, ColumnsMatch;
  }

  ghost predicate GoodStep(lib: Crdt, r: Replica, t: Replica) {
    ReplicaOk(lib, t) && Rises(r, t)
  }

  lemma SameIsGood(lib: Crdt, r: Replica)
    requires ReplicaOk(lib, r)
    ensures GoodStep(lib, r, r)
  {
  }

  /** A row is written whose document holds everything held before. */
  lemma RowIsGood(lib: Crdt, r: Replica, t: Replica, id: NoteId)
    requires ReplicaOk(lib, r) && id !in r.db.purged && id in t.db.notes && RowMatches(lib, id, t.db.notes[id])
    requires t.db == r.db.(notes := r.db.notes[id := t.db.notes[id]]) && t.pending == r.pending - {id}
    requires HeldBy(r, id) <= t.db.notes[id].doc
    ensures GoodStep(lib, r, t)
  {
    hide RowMatches, OfNote, Hydrates;
  }

  lemma EditIsGood(lib: Crdt, r: Replica, id: NoteId, change: Change)
    requires ReplicaOk(lib, r)
    ensures GoodStep(lib, r, EditAt(lib, r, id, change))
  {
    SameIsGood(lib, r);
    var t := EditAt(lib, r, id, change);
    if id in r.db.notes && change.Edit? && change.note == id {
      assert RowMatches(lib, id, r.db.notes[id]);
      Connections.SavedDoc(r.db.notes[id].doc, id, change);
      hide OfNote, Hydrates, ColumnsOf;
      assert r.pending - {id} == r.pending;
      RowIsGood(lib, r, t, id);
    }
  }

  lemma CreateIsGood(lib: Crdt, r: Replica, id: NoteId, change: Change)
    requires ReplicaOk(lib, r)
    ensures GoodStep(lib, r, CreateAt(lib, r, id, change))
  {
    SameIsGood(lib, r);
    var t := CreateAt(lib, r, id, change);
    if t != r {
      assert r.pending - {id} == r.pending;
      assert change in {change};
      hide ColumnsOf;
      RowIsGood(lib, r, t, id);
    }
  }

  lemma PurgeRowsIsGood(lib: Crdt, r: Replica, t: Replica, ids: set<NoteId>, doc: Doc)
    requires ReplicaOk(lib, r) && t == r.(db := PurgeRows(r.db, ids, doc)) && Erased(doc) == r.db.purged + ids
    ensures GoodStep(lib, r, t)
  {
    hide RowMatches, OfNote, Hydrates, Erased;
  }

  lemma PurgeIsGood(lib: Crdt, r: Replica, ids: set<NoteId>, hash: nat)
    requires ReplicaOk(lib, r)
    ensures GoodStep(lib, r, PurgeAt(r, ids, hash))
  {
    SameIsGood(lib, r);
    var base := Connections.TombstoneDoc(r.db);
    EmptyErasesNone();
    ErasedUnion(base, {Erase(hash, ids)});
    assert Erased({Erase(hash, ids)}) == ids;
    hide Erased, GoodStep;
    if ids != {} && ids <= r.db.notes.Keys {
      PurgeRowsIsGood(lib, r, PurgeAt(r, ids, hash), ids, base + {Erase(hash, ids)});
    }
  }

  /** After a delivery the receiver has the message: its changes are held, or its purges made. */
  ghost predicate Got(r: Replica, msg: Msg) {
    match msg.docId
    case NoteDoc(id) => id in r.db.purged || msg.changes <= HeldBy(r, id)
    case Tombstones => Erased(msg.changes) <= r.db.purged
  }

  lemma AdoptIsGood(lib: Crdt, r: Replica, msg: Msg)
    requires ReplicaOk(lib, r) && msg.docId.Tombstones?
    ensures GoodStep(lib, r, ReceiveAt(lib, r, msg)) && Got(ReceiveAt(lib, r, msg), msg)
  {
    var base := Connections.TombstoneDoc(r.db);
    EmptyErasesNone();
    ErasedUnion(base, msg.changes);
    hide Erased, GoodStep;
    assert r.db.purged + Erased(base + msg.changes) == Erased(base + msg.changes);
    PurgeRowsIsGood(lib, r, ReceiveAt(lib, r, msg), Erased(base + msg.changes), base + msg.changes);
  }

  lemma AbsorbIsGood(lib: Crdt, r: Replica, msg: Msg)
    requires ReplicaOk(lib, r) && msg.docId.NoteDoc? && MsgOk(msg)
    ensures GoodStep(lib, r, ReceiveAt(lib, r, msg)) && Got(ReceiveAt(lib, r, msg), msg)
  {
    var id, t := msg.docId.id, ReceiveAt(lib, r, msg);
    var doc := HeldBy(r, id) + msg.changes;
    HeldIsOfNote(lib, r, id);
    MergedOfNote(HeldBy(r, id), msg.changes, id);
    if Hydrates(doc) {
      if id in r.db.purged {
        DroppedIsGood(lib, r, t, id);
      } else {
        PutRow(lib, r.db, id, doc);
        hide OfNote, Hydrates, ColumnsOf, GoodStep;
        RowIsGood(lib, r, t, id);
      }
    } else {
      HydratesStill(HeldBy(r, id), doc);
      ParkedIsGood(lib, r, t, id, doc);
    }
  }

  lemma DroppedIsGood(lib: Crdt, r: Replica, t: Replica, id: NoteId)
    requires ReplicaOk(lib, r) && id in r.db.purged && t == r.(pending := r.pending - {id})
    ensures GoodStep(lib, r, t)
  {
    hide ColumnsMatch, OfNote, Hydrates;
  }

  lemma ParkedIsGood(lib: Crdt, r: Replica, t: Replica, id: NoteId, doc: Doc)
    requires ReplicaOk(lib, r) && t == r.(pending := r.pending[id := doc])
    requires id !in r.db.notes && OfNote(doc, id) && !Hydrates(doc) && HeldBy(r, id) <= doc
    ensures GoodStep(lib, r, t)
  {
    hide ColumnsMatch, OfNote, Hydrates;
  }

  lemma PutRow(lib: Crdt, db: Db, id: NoteId, doc: Doc)
    requires ColumnsMatch(lib, db) && OfNote(doc, id) && Hydrates(doc) && id !in db.purged
    ensures var t := AtomicPut(lib, db, id, doc);
      && id in t.notes && RowMatches(lib, id, t.notes[id]) && doc <= t.notes[id].doc
      && t == db.(notes := db.notes[id := t.notes[id]])
  {
    PutKeepsColumns(lib, db, id, doc);
    hide ColumnsOf, OfNote, Hydrates;
  }

  lemma StepAtIsGood(lib: Crdt, m: Mesh, a: Act)
    requires a.at < |m.replicas| && ReplicaOk(lib, m.replicas[a.at])
    requires forall msg | msg in m.sent :: MsgOk(msg)
    ensures GoodStep(lib, m.replicas[a.at], StepAt(lib, m, a))
    ensures a.Deliver? && a.msg in m.sent ==> Got(StepAt(lib, m, a), a.msg)
  {
    hide ReplicaOk, GoodStep, Got, MsgOk, EditAt, CreateAt, PurgeAt, ReceiveAt;
    var r := m.replicas[a.at];
    SameIsGood(lib, r);
    match a
    case EditNote(_, id, change) => EditIsGood(lib, r, id, change);
    case NewNote(_, id, change) => CreateIsGood(lib, r, id, change);
    case PurgeNotes(_, ids, hash) => PurgeIsGood(lib, r, ids, hash);
    case Send(_, _) =>
    case Deliver(_, msg) =>
      if msg in m.sent {
        if msg.docId.NoteDoc? { AbsorbIsGood(lib, r, msg); } else { AdoptIsGood(lib, r, msg); }
      }
  }

  // ---- what the mesh keeps ----

  ghost predicate MeshOk(lib: Crdt, m: Mesh) {
    && (forall i | 0 <= i < |m.replicas| :: ReplicaOk(lib, m.replicas[i]))
    && forall msg | msg in m.sent :: MsgOk(msg)
  }

  ghost predicate AllRise(a: Mesh, b: Mesh) {
    |a.replicas| == |b.replicas| && forall i | 0 <= i < |a.replicas| :: Rises(a.replicas[i], b.replicas[i])
  }

  lemma SentIsOk(lib: Crdt, r: Replica, msg: Msg)
    requires ReplicaOk(lib, r) && MaySend(r, msg)
    ensures MsgOk(msg)
  {
    if msg.docId.NoteDoc? {
      HeldIsOfNote(lib, r, msg.docId.id);
      assert msg.changes <= HeldBy(r, msg.docId.id);
    }
    hide ReplicaOk;
  }

  lemma StepKeepsMesh(lib: Crdt, m: Mesh, a: Act)
    requires MeshOk(lib, m)
    ensures MeshOk(lib, Step(lib, m, a)) && AllRise(m, Step(lib, m, a))
  {
    forall i | 0 <= i < |m.replicas| ensures Rises(m.replicas[i], m.replicas[i]) { SameIsGood(lib, m.replicas[i]); }
    if a.at < |m.replicas| {
      StepAtIsGood(lib, m, a);
      if a.Send? && MaySend(m.replicas[a.at], a.msg) { SentIsOk(lib, m.replicas[a.at], a.msg); }
    }
    hide ReplicaOk, Rises, MsgOk, StepAt, MaySend;
  }

  lemma AllRiseTransitive(a: Mesh, b: Mesh, c: Mesh)
    requires AllRise(a, b) && AllRise(b, c)
    ensures AllRise(a, c)
  {
    forall i | 0 <= i < |a.replicas| ensures Rises(a.replicas[i], c.replicas[i]) {
      RisesTransitive(a.replicas[i], b.replicas[i], c.replicas[i]);
    }
    hide Rises;
  }

  lemma AllRiseRefl(m: Mesh)
    ensures AllRise(m, m)
  {
  }

  /**
   Over any run of any number of replicas each one's purged ids are the keys of its tombstone
   document and only grow, a purged note has no row there, and no change of a note is lost before.
   */
  lemma {:induction false} RunKeepsMesh(lib: Crdt, m: Mesh, acts: seq<Act>)
    requires MeshOk(lib, m)
    ensures MeshOk(lib, Run(lib, m, acts)) && AllRise(m, Run(lib, m, acts))
  {
    hide MeshOk, AllRise, Step;
    if acts == [] {
      AllRiseRefl(m);
    } else {
      var front := acts[..|acts| - 1];
      RunKeepsMesh(lib, m, front);
      StepKeepsMesh(lib, Run(lib, m, front), acts[|acts| - 1]);
      AllRiseTransitive(m, Run(lib, m, front), Run(lib, m, acts));
    }
  }

  // ---- the join of all replicas ----

  function AllPurged(m: Mesh): set<NoteId> {
    set i, id | 0 <= i < |m.replicas| && id in m.replicas[i].db.purged :: id
  }

  /** Every change of a note that some replica holds. */
  function AllHeld(m: Mesh, id: NoteId): Doc {
    set i, c | 0 <= i < |m.replicas| && c in HeldBy(m.replicas[i], id) :: c
  }

  /** A replica holds nothing beyond what the given purges and changes allow. */
  ghost predicate Below(r: Replica, top: Mesh) {
    r.db.purged <= AllPurged(top) && forall id | id !in AllPurged(top) :: HeldBy(r, id) <= AllHeld(top, id)
  }

  ghost predicate MsgBelow(msg: Msg, top: Mesh) {
    match msg.docId
    case NoteDoc(id) => id in AllPurged(top) || msg.changes <= AllHeld(top, id)
    case Tombstones => Erased(msg.changes) <= AllPurged(top)
  }

  /** What is on its way was held by someone, unless its note was purged since. */
  ghost predicate SentHeld(m: Mesh) {
    forall msg | msg in m.sent :: MsgBelow(msg, m)
  }

  ghost predicate AllBelow(m: Mesh, top: Mesh) {
    && (forall i | 0 <= i < |m.replicas| :: Below(m.replicas[i], top))
    && forall msg | msg in m.sent :: MsgBelow(msg, top)
  }

  lemma BelowItself(m: Mesh, i: nat)
    requires i < |m.replicas|
    ensures Below(m.replicas[i], m)
  {
    hide HeldBy;
  }

  lemma SourceBelow(lib: Crdt, r: Replica, msg: Msg, top: Mesh)
    requires ReplicaOk(lib, r) && Below(r, top) && MaySend(r, msg)
    ensures MsgBelow(msg, top)
  {
    hide AllPurged, AllHeld, ColumnsMatch;
    if msg.docId.NoteDoc? {
      assert msg.changes <= HeldBy(r, msg.docId.id);
    } else {
      EmptyErasesNone();
      ErasedWithin(msg.changes, Connections.TombstoneDoc(r.db));
      hide Erased;
    }
  }

  lemma ErasedWithin(d: Doc, e: Doc)
    requires d <= e
    ensures Erased(d) <= Erased(e)
  {
  }

  lemma ReceivedBelow(lib: Crdt, r: Replica, msg: Msg, top: Mesh)
    requires ReplicaOk(lib, r) && Below(r, top) && MsgBelow(msg, top)
    ensures Below(ReceiveAt(lib, r, msg), top)
  {
    hide AllPurged, AllHeld;
    match msg.docId
    case NoteDoc(id) => AbsorbedHeld(lib, r, msg, id);
      hide ReceiveAt, ReplicaOk, HeldBy;
    case Tombstones =>
      var base := Connections.TombstoneDoc(r.db);
      EmptyErasesNone();
      ErasedUnion(base, msg.changes);
      hide Erased, ColumnsMatch;
  }

  /** Absorbing a message changes what is held of its note only, by no more than its changes. */
  lemma AbsorbedHeld(lib: Crdt, r: Replica, msg: Msg, id: NoteId)
    requires ReplicaOk(lib, r) && msg.docId == NoteDoc(id)
    ensures var t := ReceiveAt(lib, r, msg);
      && t.db.purged == r.db.purged
      && (forall x | x != id :: HeldBy(t, x) == HeldBy(r, x))
      && HeldBy(t, id) <= HeldBy(r, id) + msg.changes
  {
    hide ColumnsMatch, OfNote, Hydrates, ColumnsOf, Erased;
  }

  lemma PurgedRise(a: Mesh, b: Mesh)
    requires AllRise(a, b)
    ensures AllPurged(a) <= AllPurged(b)
  {
    hide HeldBy;
    forall id | id in AllPurged(a) ensures id in AllPurged(b) {
      var i :| 0 <= i < |a.replicas| && id in a.replicas[i].db.purged;
      assert Rises(a.replicas[i], b.replicas[i]);
    }
  }

  lemma HeldRise(a: Mesh, b: Mesh, id: NoteId)
    requires AllRise(a, b) && id !in AllPurged(b)
    ensures AllHeld(a, id) <= AllHeld(b, id)
  {
    hide HeldBy;
    forall c | c in AllHeld(a, id) ensures c in AllHeld(b, id) {
      var i :| 0 <= i < |a.replicas| && c in HeldBy(a.replicas[i], id);
      assert Rises(a.replicas[i], b.replicas[i]);
      assert id !in b.replicas[i].db.purged;
      assert c in HeldBy(b.replicas[i], id);
    }
  }

  lemma MsgBelowLater(msg: Msg, a: Mesh, b: Mesh)
    requires MsgBelow(msg, a) && AllRise(a, b)
    ensures MsgBelow(msg, b)
  {
    PurgedRise(a, b);
    if msg.docId.NoteDoc? && msg.docId.id !in AllPurged(b) { HeldRise(a, b, msg.docId.id); }
    hide AllRise, AllHeld, AllPurged, Erased;
  }

  lemma StepKeepsSentHeld(lib: Crdt, m: Mesh, a: Act)
    requires MeshOk(lib, m) && SentHeld(m)
    ensures SentHeld(Step(lib, m, a))
  {
    var t := Step(lib, m, a);
    StepKeepsMesh(lib, m, a);
    if a.at < |m.replicas| && a.Send? && MaySend(m.replicas[a.at], a.msg) {
      BelowItself(m, a.at);
      SourceBelow(lib, m.replicas[a.at], a.msg, m);
    }
    hide MsgBelow, MaySend, StepAt, ReplicaOk, MsgOk, AllRise;
    forall msg | msg in t.sent ensures MsgBelow(msg, t) { MsgBelowLater(msg, m, t); }
  }

  lemma {:induction false} RunKeepsSentHeld(lib: Crdt, m: Mesh, acts: seq<Act>)
    requires MeshOk(lib, m) && SentHeld(m)
    ensures SentHeld(Run(lib, m, acts))
  {
    hide MeshOk, SentHeld, Step;
    if acts != [] {
      var front := acts[..|acts| - 1];
      RunKeepsMesh(lib, m, front);
      RunKeepsSentHeld(lib, m, front);
      StepKeepsSentHeld(lib, Run(lib, m, front), acts[|acts| - 1]);
    }
  }

  // ---- when editing and purging pause, one full exchange makes all replicas equal ----

  ghost predicate Quiet(acts: seq<Act>) {
    forall k | 0 <= k < |acts| :: acts[k].Send? || acts[k].Deliver?
  }

  lemma QuietStepBelow(lib: Crdt, m: Mesh, a: Act, top: Mesh)
    requires MeshOk(lib, m) && AllBelow(m, top) && (a.Send? || a.Deliver?)
    ensures AllBelow(Step(lib, m, a), top)
  {
    if a.at < |m.replicas| {
      var r := m.replicas[a.at];
      if a.Send? && MaySend(r, a.msg) { SourceBelow(lib, r, a.msg, top); }
      if a.Deliver? && a.msg in m.sent { ReceivedBelow(lib, r, a.msg, top); }
      hide Below, MsgBelow, ReplicaOk, MsgOk, MaySend, ReceiveAt;
    }
  }

  lemma {:induction false} QuietRunBelow(lib: Crdt, m: Mesh, acts: seq<Act>)
    requires MeshOk(lib, m) && SentHeld(m) && Quiet(acts)
    ensures AllBelow(Run(lib, m, acts), m)
  {
    if acts == [] {
      forall i | 0 <= i < |m.replicas| ensures Below(m.replicas[i], m) { BelowItself(m, i); }
      hide MeshOk, Below, MsgBelow;
    } else {
      hide MeshOk, SentHeld, AllBelow, Step;
      var front := acts[..|acts| - 1];
      QuietRunBelow(lib, m, front);
      RunKeepsMesh(lib, m, front);
      QuietStepBelow(lib, Run(lib, m, front), acts[|acts| - 1], m);
    }
  }

  /** The message arrives at the replica at some point of the run. */
  ghost predicate Arrives(lib: Crdt, m: Mesh, acts: seq<Act>, at: nat, msg: Msg) {
    exists k | 0 <= k < |acts| :: acts[k] == Deliver(at, msg) && msg in Run(lib, m, acts[..k]).sent
  }

  lemma GotLater(r: Replica, t: Replica, msg: Msg)
    requires Got(r, msg) && Rises(r, t)
    ensures Got(t, msg)
  {
    hide HeldBy;
  }

  lemma {:induction false} ArrivedIsGot(lib: Crdt, m: Mesh, acts: seq<Act>, at: nat, msg: Msg)
    requires MeshOk(lib, m) && at < |m.replicas| && Arrives(lib, m, acts, at, msg)
    ensures |Run(lib, m, acts).replicas| == |m.replicas| && Got(Run(lib, m, acts).replicas[at], msg)
  {
    RunKeepsMesh(lib, m, acts);
    var front, last := acts[..|acts| - 1], acts[|acts| - 1];
    var s := Run(lib, m, front);
    RunKeepsMesh(lib, m, front);
    StepKeepsMesh(lib, s, last);
    if last == Deliver(at, msg) && msg in s.sent {
      StepAtIsGood(lib, s, last);
      hide ReplicaOk, StepAt, Got, Rises;
    } else {
      ArrivesEarlier(lib, m, acts, at, msg);
      ArrivedIsGot(lib, m, front, at, msg);
      hide MeshOk, Step, Got, Rises, Arrives;
      GotLater(s.replicas[at], Run(lib, m, acts).replicas[at], msg);
    }
  }

  lemma ArrivesEarlier(lib: Crdt, m: Mesh, acts: seq<Act>, at: nat, msg: Msg)
    requires acts != [] && Arrives(lib, m, acts, at, msg)
    requires !(acts[|acts| - 1] == Deliver(at, msg) && msg in Run(lib, m, acts[..|acts| - 1]).sent)
    ensures Arrives(lib, m, acts[..|acts| - 1], at, msg)
  {
    hide Run;
    var k :| 0 <= k < |acts| && acts[k] == Deliver(at, msg) && msg in Run(lib, m, acts[..k]).sent;
    assert k < |acts| - 1;
    var front := acts[..|acts| - 1];
    assert front[k] == acts[k] && front[..k] == acts[..k];
  }

  lemma ArrivesLater(lib: Crdt, m: Mesh, acts: seq<Act>, at: nat, msg: Msg)
    requires acts != [] && Arrives(lib, m, acts[..|acts| - 1], at, msg)
    ensures Arrives(lib, m, acts, at, msg)
  {
    hide Run;
    var front := acts[..|acts| - 1];
    var k :| 0 <= k < |front| && front[k] == Deliver(at, msg) && msg in Run(lib, m, front[..k]).sent;
    assert acts[k] == front[k] && acts[..k] == front[..k];
  }

  /** Replica `j` has the change of the note from the start, or some message brings it. */
  ghost predicate HasOrGets(lib: Crdt, m: Mesh, acts: seq<Act>, j: nat, id: NoteId, c: Change)
    requires j < |m.replicas|
  {
    || c in HeldBy(m.replicas[j], id)
    || exists changes: Doc :: c in changes && Arrives(lib, m, acts, j, Msg(NoteDoc(id), changes))
  }

  /** Replica `j` has purged the note from the start, or some purge set that arrives lists it. */
  ghost predicate PurgedOrTold(lib: Crdt, m: Mesh, acts: seq<Act>, j: nat, id: NoteId)
    requires j < |m.replicas|
  {
    || id in m.replicas[j].db.purged
    || exists changes: Doc :: id in Erased(changes) && Arrives(lib, m, acts, j, Msg(Tombstones, changes))
  }

  /**
   Replica `j` misses nothing: change by change, what any replica started with of a note nobody
   purged, and id by id, what any replica had purged. How it is split into messages does not matter.
   */
  ghost predicate Informed(lib: Crdt, m: Mesh, acts: seq<Act>, j: nat)
    requires j < |m.replicas|
  {
    && (forall id | id in AllPurged(m) :: PurgedOrTold(lib, m, acts, j, id))
    && forall id, c | id !in AllPurged(m) && c in AllHeld(m, id) :: HasOrGets(lib, m, acts, j, id, c)
  }

  lemma PurgeReached(lib: Crdt, m: Mesh, acts: seq<Act>, j: nat, id: NoteId)
    requires MeshOk(lib, m) && j < |m.replicas| && PurgedOrTold(lib, m, acts, j, id)
    ensures |Run(lib, m, acts).replicas| == |m.replicas| && id in Run(lib, m, acts).replicas[j].db.purged
  {
    RunKeepsMesh(lib, m, acts);
    if id in m.replicas[j].db.purged {
      assert Rises(m.replicas[j], Run(lib, m, acts).replicas[j]);
    } else {
      hide Arrives, Erased, MeshOk;
      var changes: Doc :| id in Erased(changes) && Arrives(lib, m, acts, j, Msg(Tombstones, changes));
      ArrivedIsGot(lib, m, acts, j, Msg(Tombstones, changes));
    }
  }

  lemma HeldReached(lib: Crdt, m: Mesh, acts: seq<Act>, j: nat, id: NoteId, c: Change)
    requires MeshOk(lib, m) && j < |m.replicas| && HasOrGets(lib, m, acts, j, id, c)
    ensures |Run(lib, m, acts).replicas| == |m.replicas|
    ensures var r := Run(lib, m, acts).replicas[j]; id in r.db.purged || c in HeldBy(r, id)
  {
    RunKeepsMesh(lib, m, acts);
    if c in HeldBy(m.replicas[j], id) {
      assert Rises(m.replicas[j], Run(lib, m, acts).replicas[j]);
    } else {
      hide Arrives, HeldBy, MeshOk;
      var changes: Doc :| c in changes && Arrives(lib, m, acts, j, Msg(NoteDoc(id), changes));
      ArrivedIsGot(lib, m, acts, j, Msg(NoteDoc(id), changes));
    }
  }

  /** After the exchange nothing held or purged at the start is missing. */
  lemma EndsAbove(lib: Crdt, m: Mesh, acts: seq<Act>, j: nat)
    requires MeshOk(lib, m) && j < |m.replicas| && Informed(lib, m, acts, j)
    ensures |Run(lib, m, acts).replicas| == |m.replicas|
    ensures var r := Run(lib, m, acts).replicas[j];
      && AllPurged(m) <= r.db.purged
      && forall id | id !in r.db.purged :: AllHeld(m, id) <= HeldBy(r, id)
  {
    RunKeepsMesh(lib, m, acts);
    var r := Run(lib, m, acts).replicas[j];
    hide MeshOk, AllPurged, AllHeld, HeldBy, PurgedOrTold, HasOrGets, Run;
    forall id | id in AllPurged(m) ensures id in r.db.purged { PurgeReached(lib, m, acts, j, id); }
    forall id | id !in r.db.purged ensures AllHeld(m, id) <= HeldBy(r, id) {
      forall c | c in AllHeld(m, id) ensures c in HeldBy(r, id) { HeldReached(lib, m, acts, j, id, c); }
    }
  }

  // ---- and nothing else makes them equal ----

  lemma QuietStepHolds(lib: Crdt, m: Mesh, a: Act, j: nat, id: NoteId, c: Change)
    requires MeshOk(lib, m) && j < |m.replicas| && (a.Send? || a.Deliver?)
    requires c in HeldBy(Step(lib, m, a).replicas[j], id)
    ensures c in HeldBy(m.replicas[j], id)
         || (&& a.Deliver? && a.at == j && a.msg in m.sent
             && a.msg.docId == NoteDoc(id) && c in a.msg.changes)
  {
    if a.Deliver? && a.at == j && a.msg in m.sent {
      var r := m.replicas[j];
      match a.msg.docId
      case NoteDoc(x) =>
        AbsorbedHeld(lib, r, a.msg, x);
        hide ReceiveAt, HeldBy, ReplicaOk;
      case Tombstones =>
    }
  }

  lemma QuietStepPurges(lib: Crdt, m: Mesh, a: Act, j: nat, id: NoteId)
    requires MeshOk(lib, m) && j < |m.replicas| && (a.Send? || a.Deliver?)
    requires id in Step(lib, m, a).replicas[j].db.purged
    ensures id in m.replicas[j].db.purged
         || (&& a.Deliver? && a.at == j && a.msg in m.sent
             && a.msg.docId.Tombstones? && id in Erased(a.msg.changes))
  {
    if a.Deliver? && a.at == j && a.msg in m.sent {
      var r := m.replicas[j];
      match a.msg.docId
      case NoteDoc(x) =>
        AbsorbedHeld(lib, r, a.msg, x);
        hide ReceiveAt, HeldBy;
      case Tombstones =>
        EmptyErasesNone();
        ErasedUnion(Connections.TombstoneDoc(r.db), a.msg.changes);
        hide Erased, ColumnsMatch;
    }
  }

  lemma ArrivesNow(lib: Crdt, m: Mesh, acts: seq<Act>, at: nat, msg: Msg)
    requires acts != [] && acts[|acts| - 1] == Deliver(at, msg) && msg in Run(lib, m, acts[..|acts| - 1]).sent
    ensures Arrives(lib, m, acts, at, msg)
  {
    hide Run;
    var k := |acts| - 1;
    assert acts[k] == Deliver(at, msg);
  }

  /** While nobody edits, what a replica holds it had or got. */
  lemma {:induction false} HeldWasGot(lib: Crdt, m: Mesh, acts: seq<Act>, j: nat, id: NoteId, c: Change)
    requires MeshOk(lib, m) && Quiet(acts) && j < |m.replicas| == |Run(lib, m, acts).replicas|
    requires c in HeldBy(Run(lib, m, acts).replicas[j], id)
    ensures HasOrGets(lib, m, acts, j, id, c)
    decreases |acts|
  {
    if acts != [] {
      var front, last := acts[..|acts| - 1], acts[|acts| - 1];
      var s := Run(lib, m, front);
      RunKeepsMesh(lib, m, front);
      hide MeshOk, Step, HeldBy, Arrives, AllRise;
      QuietStepHolds(lib, s, last, j, id, c);
      if c in HeldBy(s.replicas[j], id) {
        HeldWasGot(lib, m, front, j, id, c);
        if changes: Doc :| c in changes && Arrives(lib, m, front, j, Msg(NoteDoc(id), changes)) {
          ArrivesLater(lib, m, acts, j, Msg(NoteDoc(id), changes));
        }
      } else {
        ArrivesNow(lib, m, acts, j, last.msg);
        assert last.msg == Msg(NoteDoc(id), last.msg.changes);
      }
    }
  }

  lemma {:induction false} PurgedWasTold(lib: Crdt, m: Mesh, acts: seq<Act>, j: nat, id: NoteId)
    requires MeshOk(lib, m) && Quiet(acts) && j < |m.replicas| == |Run(lib, m, acts).replicas|
    requires id in Run(lib, m, acts).replicas[j].db.purged
    ensures PurgedOrTold(lib, m, acts, j, id)
    decreases |acts|
  {
    if acts != [] {
      var front, last := acts[..|acts| - 1], acts[|acts| - 1];
      var s := Run(lib, m, front);
      RunKeepsMesh(lib, m, front);
      hide MeshOk, Step, Erased, Arrives;
      QuietStepPurges(lib, s, last, j, id);
      if id in s.replicas[j].db.purged {
        PurgedWasTold(lib, m, front, j, id);
        if changes: Doc :| id in Erased(changes) && Arrives(lib, m, front, j, Msg(Tombstones, changes)) {
          ArrivesLater(lib, m, acts, j, Msg(Tombstones, changes));
        }
      } else {
        ArrivesNow(lib, m, acts, j, last.msg);
        assert last.msg == Msg(Tombstones, last.msg.changes);
      }
    }
  }

  /** The rows every replica must come to: all changes of every note nobody purged, if they hydrate. */
  ghost predicate HasAll(lib: Crdt, r: Replica, m: Mesh) {
    && r.db.purged == AllPurged(m)
    && forall id ::
      && (id in r.db.notes <==> id !in AllPurged(m) && Hydrates(AllHeld(m, id)))
      && (id in r.db.notes ==> r.db.notes[id].doc == AllHeld(m, id)
                               && r.db.notes[id].columns == ColumnsOf(lib.view(AllHeld(m, id))))
  }

  ghost predicate HoldsExactly(lib: Crdt, r: Replica, m: Mesh) {
    && ReplicaOk(lib, r) && r.db.purged == AllPurged(m)
    && forall id | id !in r.db.purged :: HeldBy(r, id) == AllHeld(m, id)
  }

  /**
   When a replica has everything: from any state the mesh can reach, while nobody edits or purges,
   in whatever order and with whatever old messages in between, it ends with exactly what was
   purged and held anywhere if and only if it misses nothing.
   */
  lemma ConvergesIff(lib: Crdt, m: Mesh, acts: seq<Act>, j: nat)
    requires MeshOk(lib, m) && SentHeld(m) && Quiet(acts) && j < |m.replicas|
    ensures |Run(lib, m, acts).replicas| == |m.replicas|
    ensures Informed(lib, m, acts, j) <==> HoldsExactly(lib, Run(lib, m, acts).replicas[j], m)
  {
    RunKeepsMesh(lib, m, acts);
    hide Run, MeshOk, SentHeld;
    if Informed(lib, m, acts, j) { EndsExactly(lib, m, acts, j); }
    if HoldsExactly(lib, Run(lib, m, acts).replicas[j], m) { ExactlyInformed(lib, m, acts, j); }
  }

  lemma ExactlyInformed(lib: Crdt, m: Mesh, acts: seq<Act>, j: nat)
    requires MeshOk(lib, m) && Quiet(acts) && j < |m.replicas| == |Run(lib, m, acts).replicas|
    requires HoldsExactly(lib, Run(lib, m, acts).replicas[j], m)
    ensures Informed(lib, m, acts, j)
  {
    hide Run, MeshOk, ReplicaOk, AllHeld, AllPurged, HeldBy, PurgedOrTold, HasOrGets;
    forall id | id in AllPurged(m) ensures PurgedOrTold(lib, m, acts, j, id) { PurgedWasTold(lib, m, acts, j, id); }
    forall id, c | id !in AllPurged(m) && c in AllHeld(m, id) ensures HasOrGets(lib, m, acts, j, id, c) {
      HeldWasGot(lib, m, acts, j, id, c);
    }
  }

  /**
   Convergence: a replica that misses nothing has the union of all changes of every note nobody
   purged, and no row of a note anybody purged, whatever was edited.
   */
  lemma Converges(lib: Crdt, m: Mesh, acts: seq<Act>, j: nat)
    requires MeshOk(lib, m) && SentHeld(m) && Quiet(acts) && j < |m.replicas| && Informed(lib, m, acts, j)
    ensures |Run(lib, m, acts).replicas| == |m.replicas| && HasAll(lib, Run(lib, m, acts).replicas[j], m)
  {
    hide *;
    EndsExactly(lib, m, acts, j);
    AllFromExact(lib, Run(lib, m, acts).replicas[j], m);
  }

  lemma EndsExactly(lib: Crdt, m: Mesh, acts: seq<Act>, j: nat)
    requires MeshOk(lib, m) && SentHeld(m) && Quiet(acts) && j < |m.replicas| && Informed(lib, m, acts, j)
    ensures |Run(lib, m, acts).replicas| == |m.replicas| && HoldsExactly(lib, Run(lib, m, acts).replicas[j], m)
  {
    QuietRunBelow(lib, m, acts);
    EndsAbove(lib, m, acts, j);
    RunKeepsMesh(lib, m, acts);
    var r := Run(lib, m, acts).replicas[j];
    assert Below(r, m) && ReplicaOk(lib, r);
    hide Run, Informed, MeshOk, SentHeld, AllBelow, AllHeld, AllPurged, HeldBy, ReplicaOk;
    assert r.db.purged == AllPurged(m);
  }

  lemma AllFromExact(lib: Crdt, r: Replica, m: Mesh)
    requires HoldsExactly(lib, r, m)
    ensures HasAll(lib, r, m)
  {
    hide ReplicaOk, AllHeld, AllPurged, HeldBy, Hydrates, ColumnsOf;
    forall id
      ensures id in r.db.notes <==> id !in AllPurged(m) && Hydrates(AllHeld(m, id))
      ensures id in r.db.notes ==>
        r.db.notes[id].doc == AllHeld(m, id) && r.db.notes[id].columns == ColumnsOf(lib.view(AllHeld(m, id)))
    {
      RowIsAll(lib, r, id, AllPurged(m), AllHeld(m, id));
    }
  }

  lemma RowIsAll(lib: Crdt, r: Replica, id: NoteId, purged: set<NoteId>, all: Doc)
    requires ReplicaOk(lib, r) && r.db.purged == purged && (id !in purged ==> HeldBy(r, id) == all)
    ensures id in r.db.notes <==> id !in purged && Hydrates(all)
    ensures id in r.db.notes ==> r.db.notes[id].doc == all && r.db.notes[id].columns == ColumnsOf(lib.view(all))
  {
    HeldIsOfNote(lib, r, id);
    if id in r.db.notes { assert RowMatches(lib, id, r.db.notes[id]); }
    hide OfNote, Hydrates, ColumnsOf;
  }

  /** So all replicas hold the same notes, and a purge has beaten every edit made elsewhere. */
  lemma ReplicasAgree(lib: Crdt, m: Mesh, acts: seq<Act>, i: nat, j: nat)
    requires MeshOk(lib, m) && SentHeld(m) && Quiet(acts) && i < |m.replicas| && j < |m.replicas|
    requires Informed(lib, m, acts, i) && Informed(lib, m, acts, j)
    ensures |Run(lib, m, acts).replicas| == |m.replicas|
    ensures var a, b := Run(lib, m, acts).replicas[i].db, Run(lib, m, acts).replicas[j].db;
      && a.purged == b.purged && a.notes.Keys == b.notes.Keys && a.notes.Keys !! AllPurged(m)
      && forall id | id in a.notes :: a.notes[id].doc == b.notes[id].doc && a.notes[id].columns == b.notes[id].columns
  {
    Converges(lib, m, acts, i);
    Converges(lib, m, acts, j);
    hide Run, Informed, MeshOk, SentHeld, AllHeld, AllPurged, Hydrates, ColumnsOf;
  }

  /** A fresh mesh, and every state a run takes it to, meets what convergence asks. */
  lemma ReachableMesh(lib: Crdt, n: nat, acts: seq<Act>)
    ensures var m := Run(lib, Mesh(seq(n, _ => Replica(Db(map[], {}, None), map[])), {}), acts);
      MeshOk(lib, m) && SentHeld(m)
  {
    var start := Mesh(seq(n, _ => Replica(Db(map[], {}, None), map[])), {});
    assert MeshOk(lib, start) && SentHeld(start);
    hide MeshOk, SentHeld;
    RunKeepsMesh(lib, start, acts);
    RunKeepsSentHeld(lib, start, acts);
  }

  // ---- a full exchange is always possible ----

  /** One document on its way from one replica to another. */
  datatype Parcel = Parcel(sender: nat, receiver: nat, docId: DocId)

  predicate MayShip(m: Mesh, p: Parcel) {
    && p.sender < |m.replicas| && p.receiver < |m.replicas| && p.sender != p.receiver
    && Source(m.replicas[p.sender].db, m.replicas[p.sender].pending, p.docId).Some?
  }

  function MsgOf(m: Mesh, p: Parcel): Msg
    requires MayShip(m, p)
  {
    Msg(p.docId, Source(m.replicas[p.sender].db, m.replicas[p.sender].pending, p.docId).value)
  }

  ghost predicate AllMayShip(m: Mesh, ps: seq<Parcel>) {
    forall k | 0 <= k < |ps| :: MayShip(m, ps[k])
  }

  ghost function Sends(m: Mesh, ps: seq<Parcel>): (r: seq<Act>)
    requires AllMayShip(m, ps)
    ensures |r| == |ps|
  {
    seq(|ps|, k requires 0 <= k < |ps| => Send(ps[k].sender, MsgOf(m, ps[k])))
  }

  ghost function Delivers(m: Mesh, ps: seq<Parcel>): (r: seq<Act>)
    requires AllMayShip(m, ps)
    ensures |r| == |ps|
  {
    seq(|ps|, k requires 0 <= k < |ps| => Deliver(ps[k].receiver, MsgOf(m, ps[k])))
  }

  lemma {:induction false} SendsAreSent(lib: Crdt, m: Mesh, ps: seq<Parcel>, n: nat)
    requires AllMayShip(m, ps) && n <= |ps|
    ensures Run(lib, m, Sends(m, ps)[..n]).replicas == m.replicas
    ensures forall k | 0 <= k < n :: MsgOf(m, ps[k]) in Run(lib, m, Sends(m, ps)[..n]).sent
  {
    if n > 0 {
      SendsAreSent(lib, m, ps, n - 1);
      var acts := Sends(m, ps)[..n];
      assert acts[..n - 1] == Sends(m, ps)[..n - 1];
      var before := Run(lib, m, acts[..n - 1]);
      hide Run, Source;
      assert MayShip(m, ps[n - 1]) && acts[n - 1] == Send(ps[n - 1].sender, MsgOf(m, ps[n - 1]));
      SendStep(lib, before, ps[n - 1].sender, MsgOf(m, ps[n - 1]));
      LastStep(lib, m, acts);
    }
  }

  lemma LastStep(lib: Crdt, m: Mesh, acts: seq<Act>)
    requires acts != []
    ensures Run(lib, m, acts) == Step(lib, Run(lib, m, acts[..|acts| - 1]), acts[|acts| - 1])
  {
  }

  lemma SendStep(lib: Crdt, m: Mesh, at: nat, msg: Msg)
    requires at < |m.replicas| && MaySend(m.replicas[at], msg)
    ensures Step(lib, m, Send(at, msg)) == Mesh(m.replicas, m.sent + {msg})
  {
  }

  lemma {:induction false} SentStays(lib: Crdt, m: Mesh, a: seq<Act>, b: seq<Act>)
    ensures Run(lib, m, a).sent <= Run(lib, m, a + b).sent
  {
    if b == [] {
      assert a + b == a;
    } else {
      var front := b[..|b| - 1];
      SentStays(lib, m, a, front);
      assert (a + b)[..|a + b| - 1] == a + front;
      hide StepAt, MaySend;
    }
  }

  lemma ParcelArrives(lib: Crdt, m: Mesh, ps: seq<Parcel>, k: nat)
    requires AllMayShip(m, ps) && k < |ps|
    ensures Arrives(lib, m, Sends(m, ps) + Delivers(m, ps), ps[k].receiver, MsgOf(m, ps[k]))
  {
    hide Run, Sends, MsgOf, MayShip;
    var sends, delivers := Sends(m, ps), Delivers(m, ps);
    var acts := sends + delivers;
    SendsAreSent(lib, m, ps, |ps|);
    assert sends[..|ps|] == sends;
    SentStays(lib, m, sends, delivers[..k]);
    assert acts[..|ps| + k] == sends + delivers[..k];
    assert acts[|ps| + k] == delivers[k] == Deliver(ps[k].receiver, MsgOf(m, ps[k]));
  }

  lemma {:induction false} Enumerate<T>(s: set<T>) returns (q: seq<T>)
    ensures forall x :: x in q <==> x in s
    decreases |s|
  {
    if s == {} {
      q := [];
    } else {
      var x :| x in s;
      var rest := Enumerate(s - {x});
      q := [x] + rest;
      assert s == (s - {x}) + {x};
    }
  }

  /** The documents a replica has to offer. */
  ghost function Offers(r: Replica): set<DocId> {
    (set id | id in r.db.notes :: NoteDoc(id)) + (set id | id in r.pending :: NoteDoc(id)) + {Tombstones}
  }

  lemma OffersAll(r: Replica, docId: DocId)
    ensures docId in Offers(r) <==> Source(r.db, r.pending, docId).Some?
  {
  }

  ghost function AllParcels(m: Mesh): set<Parcel> {
    set i, j, d | 0 <= i < |m.replicas| && 0 <= j < |m.replicas| && d in Offers(m.replicas[i]) && i != j ::
      Parcel(i, j, d)
  }

  /** Shipping every document whole informs everyone. */
  lemma ParcelsInform(lib: Crdt, m: Mesh, acts: seq<Act>, j: nat)
    requires MeshOk(lib, m) && j < |m.replicas|
    requires forall p: Parcel | p.receiver == j && MayShip(m, p) :: Arrives(lib, m, acts, j, MsgOf(m, p))
    ensures Informed(lib, m, acts, j)
  {
    hide Run, Arrives, AllPurged, AllHeld;
    forall id | id in AllPurged(m) ensures PurgedOrTold(lib, m, acts, j, id) {
      PurgeShipped(lib, m, acts, j, id);
    }
    forall id, c | id !in AllPurged(m) && c in AllHeld(m, id) ensures HasOrGets(lib, m, acts, j, id, c) {
      HeldShipped(lib, m, acts, j, id, c);
    }
  }

  lemma PurgeShipped(lib: Crdt, m: Mesh, acts: seq<Act>, j: nat, id: NoteId)
    requires MeshOk(lib, m) && j < |m.replicas| && id in AllPurged(m)
    requires forall p: Parcel | p.receiver == j && MayShip(m, p) :: Arrives(lib, m, acts, j, MsgOf(m, p))
    ensures PurgedOrTold(lib, m, acts, j, id)
  {
    var i :| 0 <= i < |m.replicas| && id in m.replicas[i].db.purged;
    assert ReplicaOk(lib, m.replicas[i]);
    EmptyErasesNone();
    hide Run, Arrives, Erased, ColumnsMatch;
    if i != j {
      var p := Parcel(i, j, Tombstones);
      assert MayShip(m, p) && MsgOf(m, p) == Msg(Tombstones, Connections.TombstoneDoc(m.replicas[i].db));
    }
  }

  lemma HeldShipped(lib: Crdt, m: Mesh, acts: seq<Act>, j: nat, id: NoteId, c: Change)
    requires j < |m.replicas| && c in AllHeld(m, id)
    requires forall p: Parcel | p.receiver == j && MayShip(m, p) :: Arrives(lib, m, acts, j, MsgOf(m, p))
    ensures HasOrGets(lib, m, acts, j, id, c)
  {
    hide Run, Arrives;
    var i :| 0 <= i < |m.replicas| && c in HeldBy(m.replicas[i], id);
    if i != j {
      var p := Parcel(i, j, NoteDoc(id));
      assert MayShip(m, p) && MsgOf(m, p) == Msg(NoteDoc(id), HeldBy(m.replicas[i], id));
    }
  }

  /** So whenever editing pauses the replicas can be brought to agree. */
  lemma FullExchangeExists(lib: Crdt, m: Mesh) returns (acts: seq<Act>)
    requires MeshOk(lib, m)
    ensures Quiet(acts) && forall j | 0 <= j < |m.replicas| :: Informed(lib, m, acts, j)
  {
    var ps := Enumerate(AllParcels(m));
    forall k | 0 <= k < |ps| ensures MayShip(m, ps[k]) {
      assert ps[k] in AllParcels(m);
      OffersAll(m.replicas[ps[k].sender], ps[k].docId);
    }
    acts := Sends(m, ps) + Delivers(m, ps);
    hide Run, Source, Informed, Arrives, MeshOk;
    forall j | 0 <= j < |m.replicas| ensures Informed(lib, m, acts, j) {
      forall p: Parcel | p.receiver == j && MayShip(m, p) ensures Arrives(lib, m, acts, j, MsgOf(m, p)) {
        OffersAll(m.replicas[p.sender], p.docId);
        assert p == Parcel(p.sender, p.receiver, p.docId) && p in AllParcels(m);
        var k :| 0 <= k < |ps| && ps[k] == p;
        ParcelArrives(lib, m, ps, k);
      }
      ParcelsInform(lib, m, acts, j);
    }
  }
}
