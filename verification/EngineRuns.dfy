/**
 Whole runs of the syncing connection (sync.rs, store/): messages generated and received, peers that
 disconnect and unpair, and this connection's own edits and purges, while the other connections take
 any steps between any two statements.
 */
module EngineRuns {
  import opened Text
  import opened Documents
  import opened Connections
  import opened NoteStore
  import opened SyncEngine
  import IndexRuns

  datatype Job =
    | Generate(peer: Peer, docId: DocId)
    | Receive(peer: Peer, docId: DocId, bytes: Bytes)
    | ListIds
    | Reset(peer: Peer)                        // a disconnect
    | Forget(peer: Peer)                       // unpairing
    | Own(job: IndexRuns.Job)                  // an edit or a purge made here
    | Flush

  /** Messages carry documents under their own id; edits and purges made here are not receipts. */
  ghost predicate Allowed(protocol: Protocol, job: Job) {
    match job
    case Receive(_, docId, bytes) =>
      var m := protocol.decode(bytes);
      m.Some? ==> TravelsAs(m.value.changes, docId)
    case Own(own) => (IndexRuns.Writes(own) && !own.Receive?) || own.EmptyTrash? || own.DeleteTag?
    case _ => true
  }

  // ---- the protocol states ----

  /** What a job found in the store and among the parked documents when it looked at its document. */
  datatype Glimpse = Glimpse(db: Db, pending: map<NoteId, Doc>)

  function Lookup(states: map<(Peer, DocId), State>, peer: Peer, docId: DocId): Option<State> {
    if (peer, docId) in states then Some(states[(peer, docId)]) else None
  }

  /** A conversation goes on from the state it left, or begins. */
  function Current(protocol: Protocol, kept: Option<State>): State {
    match kept case Some(state) => state case None => protocol.initial
  }

  /** The state kept for one peer and document after a job, told from the one kept before it. */
  function KeptBy(protocol: Protocol, job: Job, seen: Glimpse, peer: Peer, docId: DocId, kept: Option<State>)
    : Option<State>
  {
    match job
    case Generate(p, d) =>
      if p != peer || d != docId then kept
      else (
        match Source(seen.db, seen.pending, d)
        case Some(doc) => Some(protocol.generate(doc, Current(protocol, kept)).0)
        case None => Some(Current(protocol, kept)))
    case Receive(p, d, bytes) =>
      if p != peer || d != docId || protocol.decode(bytes).None? then kept
      else
        var message := protocol.decode(bytes).value;
        (match protocol.receive(Basis(seen.db, seen.pending, d), Current(protocol, kept), message)
         case Some(next) => Some(next)
         case None => Some(Current(protocol, kept)))
    case Reset(p) => if p == peer && kept.Some? then Some(protocol.reusable(kept.value)) else kept
    case Forget(p) => if p == peer then None else kept
    case _ => kept
  }

  /** A job leaves the state of every peer and document as told from the one before. */
  ghost predicate StatesKept(protocol: Protocol, job: Job, seen: Glimpse, was: map<(Peer, DocId), State>,
                             states: map<(Peer, DocId), State>) {
    forall peer, docId ::
      Lookup(states, peer, docId) == KeptBy(protocol, job, seen, peer, docId, Lookup(was, peer, docId))
  }

  /** The state kept after the first `n` jobs. */
  function KeptAfter(protocol: Protocol, jobs: seq<Job>, seen: seq<Glimpse>, n: nat, peer: Peer, docId: DocId,
                     kept: Option<State>): Option<State>
    requires n <= |jobs| && n <= |seen|
  {
    if n == 0 then kept
    else KeptBy(protocol, jobs[n - 1], seen[n - 1], peer, docId,
                KeptAfter(protocol, jobs, seen, n - 1, peer, docId, kept))
  }

  /** The message a job produces, told from the state kept before it. */
  function Sent(protocol: Protocol, job: Job, seen: Glimpse, kept: Option<State>): Option<Bytes> {
    if !job.Generate? then None
    else match Source(seen.db, seen.pending, job.docId)
      case Some(doc) => protocol.generate(doc, Current(protocol, kept)).1
      case None => None
  }

  ghost predicate StatesFollow(protocol: Protocol, was: map<(Peer, DocId), State>, states: map<(Peer, DocId), State>,
                               jobs: seq<Job>, seen: seq<Glimpse>, n: nat)
    requires n <= |jobs| && n <= |seen|
  {
    forall peer, docId ::
      Lookup(states, peer, docId) == KeptAfter(protocol, jobs, seen, n, peer, docId, Lookup(was, peer, docId))
  }

  /** What was seen are states of the store, one after the other, from the first to the last. */
  ghost predicate InTime(first: Db, seen: seq<Glimpse>, last: Db) {
    if seen == [] then Grows(first, last)
    else InTime(first, seen[..|seen| - 1], seen[|seen| - 1].db) && Grows(seen[|seen| - 1].db, last)
  }

  lemma InTimeMore(first: Db, seen: seq<Glimpse>, now: Db, next: Glimpse, last: Db)
    requires InTime(first, seen, now) && Grows(now, next.db) && Grows(next.db, last)
    ensures InTime(first, seen + [next], last)
  {
    InTimeLater(first, seen, now, next.db);
    assert (seen + [next])[..|seen|] == seen;
    hide Grows;
  }

  lemma InTimeLater(first: Db, seen: seq<Glimpse>, now: Db, later: Db)
    requires InTime(first, seen, now) && Grows(now, later)
    ensures InTime(first, seen, later)
  {
    if seen == [] { GrowsTransitive(first, now, later); } else { GrowsTransitive(seen[|seen| - 1].db, now, later); }
    hide Grows;
  }

  /** The state kept before job `k` for the peer and document it is about. */
  function KeptFor(protocol: Protocol, was: map<(Peer, DocId), State>, jobs: seq<Job>, seen: seq<Glimpse>, k: nat)
    : Option<State>
    requires k < |jobs| && k <= |seen| && jobs[k].Generate?
  {
    var (peer, docId) := (jobs[k].peer, jobs[k].docId);
    KeptAfter(protocol, jobs, seen, k, peer, docId, Lookup(was, peer, docId))
  }

  ghost predicate MessagesFollow(protocol: Protocol, was: map<(Peer, DocId), State>, messages: seq<Option<Bytes>>,
                                 jobs: seq<Job>, seen: seq<Glimpse>)
    requires |messages| <= |jobs| && |messages| <= |seen|
  {
    forall k | 0 <= k < |messages| && jobs[k].Generate? ::
      messages[k] == Sent(protocol, jobs[k], seen[k], KeptFor(protocol, was, jobs, seen, k))
  }

  lemma {:induction false} KeptAfterMore(protocol: Protocol, jobs: seq<Job>, seen: seq<Glimpse>, last: Glimpse, n: nat,
                                         peer: Peer, docId: DocId, kept: Option<State>)
    requires n <= |jobs| && n <= |seen|
    ensures KeptAfter(protocol, jobs, seen + [last], n, peer, docId, kept)
         == KeptAfter(protocol, jobs, seen, n, peer, docId, kept)
  {
    hide KeptBy;
    if n > 0 { KeptAfterMore(protocol, jobs, seen, last, n - 1, peer, docId, kept); }
  }

  lemma StatesFollowMore(protocol: Protocol, was: map<(Peer, DocId), State>, before: map<(Peer, DocId), State>,
                         states: map<(Peer, DocId), State>, jobs: seq<Job>, seen: seq<Glimpse>, last: Glimpse)
    requires |seen| < |jobs| && StatesFollow(protocol, was, before, jobs, seen, |seen|)
    requires StatesKept(protocol, jobs[|seen|], last, before, states)
    ensures StatesFollow(protocol, was, states, jobs, seen + [last], |seen| + 1)
  {
    hide KeptBy, Lookup;
    forall peer, docId
      ensures Lookup(states, peer, docId)
           == KeptAfter(protocol, jobs, seen + [last], |seen| + 1, peer, docId, Lookup(was, peer, docId))
    {
      KeptAfterMore(protocol, jobs, seen, last, |seen|, peer, docId, Lookup(was, peer, docId));
    }
  }

  lemma MessagesFollowMore(protocol: Protocol, was: map<(Peer, DocId), State>, before: map<(Peer, DocId), State>,
                           messages: seq<Option<Bytes>>, message: Option<Bytes>,
                           jobs: seq<Job>, seen: seq<Glimpse>, last: Glimpse)
    requires |messages| == |seen| < |jobs| && StatesFollow(protocol, was, before, jobs, seen, |seen|)
    requires MessagesFollow(protocol, was, messages, jobs, seen)
    requires var job := jobs[|seen|]; job.Generate? ==>
      message == Sent(protocol, job, last, Lookup(before, job.peer, job.docId))
    ensures MessagesFollow(protocol, was, messages + [message], jobs, seen + [last])
  {
    hide KeptBy, Lookup, Sent;
    var more := messages + [message];
    forall k | 0 <= k < |more| && jobs[k].Generate?
      ensures more[k] == Sent(protocol, jobs[k], (seen + [last])[k], KeptFor(protocol, was, jobs, seen + [last], k))
    {
      KeptAfterMore(protocol, jobs, seen, last, k, jobs[k].peer, jobs[k].docId,
                    Lookup(was, jobs[k].peer, jobs[k].docId));
    }
  }

  // ---- the changes received ----

  /** The job received changes of a note, and the engine accepted them. */
  predicate Brought(job: Job, outcome: Option<Received>) {
    job.Receive? && job.docId.NoteDoc? && outcome == Some(Accepted)
  }

  function ChangesOf(protocol: Protocol, job: Job): Doc
    requires job.Receive?
  {
    match protocol.decode(job.bytes) case Some(m) => m.changes case None => {}
  }

  ghost predicate InRecord(protocol: Protocol, job: Job, accepted: map<NoteId, Doc>)
    requires job.Receive? && job.docId.NoteDoc?
  {
    job.docId.id in accepted && ChangesOf(protocol, job) <= accepted[job.docId.id]
  }

  ghost predicate Recorded(protocol: Protocol, jobs: seq<Job>, outcomes: seq<Option<Received>>,
                           accepted: map<NoteId, Doc>)
    requires |outcomes| <= |jobs|
  {
    forall k | 0 <= k < |outcomes| && Brought(jobs[k], outcomes[k]) :: InRecord(protocol, jobs[k], accepted)
  }

  /** What a job did to the record of accepted changes. */
  ghost predicate Records(protocol: Protocol, job: Job, outcome: Option<Received>,
                          was: map<NoteId, Doc>, accepted: map<NoteId, Doc>) {
    && (forall id | id in was :: id in accepted && was[id] <= accepted[id])
    && (Brought(job, outcome) ==> InRecord(protocol, job, accepted))
  }

  lemma RecordedMore(protocol: Protocol, jobs: seq<Job>, outcomes: seq<Option<Received>>, outcome: Option<Received>,
                     was: map<NoteId, Doc>, accepted: map<NoteId, Doc>)
    requires |outcomes| < |jobs| && Recorded(protocol, jobs, outcomes, was)
    requires Records(protocol, jobs[|outcomes|], outcome, was, accepted)
    ensures Recorded(protocol, jobs, outcomes + [outcome], accepted)
  {
    var more := outcomes + [outcome];
    hide ChangesOf;
    forall k | 0 <= k < |more| && Brought(jobs[k], more[k]) ensures InRecord(protocol, jobs[k], accepted) {
      if k < |outcomes| { assert Brought(jobs[k], outcomes[k]) && InRecord(protocol, jobs[k], was); }
    }
  }

  ghost predicate FailedFor(outcome: Option<Received>, id: NoteId) {
    outcome == Some(Failed(ProtocolError(NoteDoc(id))))
  }

  /** Documents are dropped by protocol errors about them, and by nothing else. */
  ghost predicate DroppedBy(was: set<NoteId>, outcomes: seq<Option<Received>>, dropped: set<NoteId>) {
    forall id | id in dropped :: id in was || exists k | 0 <= k < |outcomes| :: FailedFor(outcomes[k], id)
  }

  lemma DroppedMore(was: set<NoteId>, outcomes: seq<Option<Received>>, outcome: Option<Received>,
                    dropped: set<NoteId>, more: set<NoteId>)
    requires DroppedBy(was, outcomes, dropped)
    requires forall id | id in more :: id in dropped || FailedFor(outcome, id)
    ensures DroppedBy(was, outcomes + [outcome], more)
  {
    hide FailedFor;
    var all := outcomes + [outcome];
    forall id | id in more && id !in was ensures exists k | 0 <= k < |all| :: FailedFor(all[k], id) {
      if id in dropped {
        var k :| 0 <= k < |outcomes| && FailedFor(outcomes[k], id);
        assert FailedFor(all[k], id);
      } else {
        assert FailedFor(all[|outcomes|], id);
      }
    }
  }

  /** Accepted changes are not lost: they are in the row or parked, or the note was purged. */
  ghost predicate Honoured(db: Db, pending: map<NoteId, Doc>, id: NoteId, changes: Doc) {
    id in db.purged || changes <= Held(db, pending, id)
  }

  lemma AllHonoured(db: Db, pending: map<NoteId, Doc>, accepted: map<NoteId, Doc>, dropped: set<NoteId>,
                    protocol: Protocol, jobs: seq<Job>, outcomes: seq<Option<Received>>)
    requires |outcomes| == |jobs| && Recorded(protocol, jobs, outcomes, accepted)
    requires Conserved(db, pending, accepted - dropped)
    ensures forall k | 0 <= k < |jobs| && Brought(jobs[k], outcomes[k]) && jobs[k].docId.id !in dropped ::
      Honoured(db, pending, jobs[k].docId.id, ChangesOf(protocol, jobs[k]))
  {
    hide Held, ChangesOf;
    forall k | 0 <= k < |jobs| && Brought(jobs[k], outcomes[k]) && jobs[k].docId.id !in dropped
      ensures Honoured(db, pending, jobs[k].docId.id, ChangesOf(protocol, jobs[k]))
    {
      assert InRecord(protocol, jobs[k], accepted);
      assert jobs[k].docId.id in accepted - dropped;
    }
  }

  /** An edit or a purge made on the engine's connection leaves the engine right. */
  method DoOwn(engine: SyncEngine, store: NoteStore, job: IndexRuns.Job)
    requires engine.Valid(store) && Allowed(engine.protocol, Own(job))
    modifies store`sys, store`schedule, store.search
    ensures engine.Valid(store) && Evolves(old(store.sys), store.sys)
  {
    hide Lawful, Inv, InTurn, Run, Evolves, EngineOk, Conserved;
    ghost var others;
    if IndexRuns.Writes(job) {
      others := IndexRuns.DoWrite(store, job);
    } else {
      others := IndexRuns.DoPurge(store, job);
    }
    EngineLater(old(store.sys), store.sys, engine.pending, engine.loaded, engine.stamps);
    ConservedLater(old(store.sys), store.sys, engine.pending, engine.accepted - engine.dropped);
  }

  lemma AbsorbGrows(lib: Crdt, db: Db, pending: map<NoteId, Doc>, id: NoteId, changes: Doc)
    ensures Grows(db, Absorb(lib, db, pending, id, changes).0)
  {
    hide Hydrates, ColumnsOf, Held;
  }

  lemma PurgeGrows(db: Db, ids: set<NoteId>, doc: Doc)
    ensures Grows(db, PurgeRows(db, ids, doc))
  {
  }

  method DoReceive(engine: SyncEngine, store: NoteStore, job: Job)
    returns (outcome: Option<Received>, ghost seen: Glimpse)
    requires engine.Valid(store) && Allowed(engine.protocol, job) && job.Receive?
    modifies engine, store`sys, store`schedule, store.search
    ensures engine.Valid(store) && outcome.Some?
    ensures StatesKept(engine.protocol, job, seen, old(engine.states), engine.states)
    ensures Grows(old(store.sys).db, seen.db) && Grows(seen.db, store.sys.db) && seen.pending == old(engine.pending)
    ensures old(store.schedule) == [] ==> seen.db == old(store.sys).db
    ensures Records(engine.protocol, job, outcome, old(engine.accepted), engine.accepted)
    ensures forall id | id in engine.dropped :: id in old(engine.dropped) || FailedFor(outcome, id)
  {
    hide Lawful, Inv, InTurn, Run, EngineOk, Conserved, TravelsAs, Absorb, PurgeRows, Basis;
    var r;
    ghost var read, before;
    r, read, before := engine.ReceiveMessage(store, job.peer, job.docId, job.bytes);
    outcome, seen := Some(r), Glimpse(read.db, old(engine.pending));
    if r.Accepted? {
      var changes := engine.protocol.decode(job.bytes).value.changes;
      var doc := TombstoneDoc(read.db) + changes;
      if job.docId.NoteDoc? { AbsorbGrows(engine.lib, before.db, old(engine.pending), job.docId.id, changes); }
      PurgeGrows(before.db, Erased(doc), doc);
    }
    GrowsTransitive(read.db, before.db, store.sys.db);
  }

  method DoGenerate(engine: SyncEngine, store: NoteStore, job: Job)
    returns (message: Option<Bytes>, ghost seen: Glimpse)
    requires engine.Valid(store) && job.Generate?
    modifies engine, store`sys, store`schedule
    ensures engine.Valid(store) && engine.accepted == old(engine.accepted) && engine.dropped == old(engine.dropped)
    ensures StatesKept(engine.protocol, job, seen, old(engine.states), engine.states)
    ensures message == Sent(engine.protocol, job, seen, Lookup(old(engine.states), job.peer, job.docId))
    ensures Grows(old(store.sys).db, seen.db) && Grows(seen.db, store.sys.db) && seen.pending == old(engine.pending)
    ensures old(store.schedule) == [] ==> seen.db == old(store.sys).db
  {
    hide Lawful, Inv, InTurn, Run, EngineOk, Conserved, Source;
    message := engine.GenerateMessage(store, job.peer, job.docId);
    seen := Glimpse(store.sys.db, engine.pending);
  }

  /** One operation of any kind. Only a protocol error drops what was parked. */
  method Do(engine: SyncEngine, store: NoteStore, job: Job)
    returns (outcome: Option<Received>, message: Option<Bytes>, ghost seen: Glimpse)
    requires engine.Valid(store) && Allowed(engine.protocol, job)
    modifies engine, store`sys, store`schedule, store.search
    ensures engine.Valid(store) && (outcome.Some? <==> job.Receive?)
    ensures StatesKept(engine.protocol, job, seen, old(engine.states), engine.states)
    ensures job.Generate? ==>
      message == Sent(engine.protocol, job, seen, Lookup(old(engine.states), job.peer, job.docId))
    ensures Grows(old(store.sys).db, seen.db) && Grows(seen.db, store.sys.db) && seen.pending == old(engine.pending)
    ensures old(store.schedule) == [] ==> seen.db == old(store.sys).db
    ensures Records(engine.protocol, job, outcome, old(engine.accepted), engine.accepted)
    ensures forall id | id in engine.dropped :: id in old(engine.dropped) || FailedFor(outcome, id)
  {
    hide Lawful, Inv, InTurn, Run, EngineOk, Conserved, TravelsAs, Grows, KeepsAbsent, FreshRows;
    outcome, message, seen := None, None, Glimpse(store.sys.db, engine.pending);
    GrowsRefl(store.sys.db);
    match job
    case Generate(_, _) => message, seen := DoGenerate(engine, store, job);
    case Receive(_, _, _) => outcome, seen := DoReceive(engine, store, job);
    case ListIds => var ids := engine.DocIds(store);
    case Reset(peer) => engine.ResetPeer(peer);
    case Forget(peer) => engine.ForgetPeer(peer);
    case Own(own) => DoOwn(engine, store, own);
    case Flush => store.FlushSearchIndex();
  }

  /**
   Over any run of the engine and its connection, interleaved with any steps of the others, the caches
   stay coherent, no parked document hydrates or has a row, and every change accepted for a note is in
   its row or parked, unless the note was purged or a protocol error about it dropped what was parked.
   Each conversation goes on where its last message left it: a disconnect leaves its reusable part, an
   unpairing nothing, and no other job touches it.
   */
  method RunJobs(engine: SyncEngine, store: NoteStore, jobs: seq<Job>)
    returns (outcomes: seq<Option<Received>>, messages: seq<Option<Bytes>>, ghost seen: seq<Glimpse>)
    requires engine.Valid(store) && forall k | 0 <= k < |jobs| :: Allowed(engine.protocol, jobs[k])
    modifies engine, store`sys, store`schedule, store.search
    ensures engine.Valid(store) && |outcomes| == |messages| == |seen| == |jobs|
    ensures forall k | 0 <= k < |jobs| :: outcomes[k].Some? <==> jobs[k].Receive?
    ensures InTime(old(store.sys).db, seen, store.sys.db)
    ensures StatesFollow(engine.protocol, old(engine.states), engine.states, jobs, seen, |jobs|)
    ensures MessagesFollow(engine.protocol, old(engine.states), messages, jobs, seen)
    ensures DroppedBy(old(engine.dropped), outcomes, engine.dropped)
    ensures forall k | 0 <= k < |jobs| && Brought(jobs[k], outcomes[k]) && jobs[k].docId.id !in engine.dropped ::
      Honoured(store.sys.db, engine.pending, jobs[k].docId.id, ChangesOf(engine.protocol, jobs[k]))
  {
    hide Allowed, Honoured, Recorded, Records, DroppedBy, FailedFor, ChangesOf, KeptBy, Sent, StatesFollow;
    hide MessagesFollow, Lookup, Grows, StatesKept, InTime;
    outcomes, messages, seen := [], [], [];
    NothingYet(engine.protocol, jobs, engine.accepted, engine.dropped, engine.states, store.sys.db);
    for k := 0 to |jobs|
      invariant engine.Valid(store) && |outcomes| == |messages| == |seen| == k
      invariant forall n | 0 <= n < k :: outcomes[n].Some? <==> jobs[n].Receive?
      invariant InTime(old(store.sys).db, seen, store.sys.db)
      invariant StatesFollow(engine.protocol, old(engine.states), engine.states, jobs, seen, k)
      invariant MessagesFollow(engine.protocol, old(engine.states), messages, jobs, seen)
      invariant Recorded(engine.protocol, jobs, outcomes, engine.accepted)
      invariant DroppedBy(old(engine.dropped), outcomes, engine.dropped)
    {
      ghost var now := store.sys.db;
      ghost var accepted, dropped, states := engine.accepted, engine.dropped, engine.states;
      var outcome, message;
      ghost var last;
      outcome, message, last := Do(engine, store, jobs[k]);
      InTimeMore(old(store.sys).db, seen, now, last, store.sys.db);
      RecordedMore(engine.protocol, jobs, outcomes, outcome, accepted, engine.accepted);
      DroppedMore(old(engine.dropped), outcomes, outcome, dropped, engine.dropped);
      StatesFollowMore(engine.protocol, old(engine.states), states, engine.states, jobs, seen, last);
      MessagesFollowMore(engine.protocol, old(engine.states), states, messages, message, jobs, seen, last);
      outcomes, messages, seen := outcomes + [outcome], messages + [message], seen + [last];
    }
    AllHonoured(store.sys.db, engine.pending, engine.accepted, engine.dropped, engine.protocol, jobs, outcomes);
  }

  lemma NothingYet(protocol: Protocol, jobs: seq<Job>, accepted: map<NoteId, Doc>, dropped: set<NoteId>,
                   states: map<(Peer, DocId), State>, db: Db)
    ensures Recorded(protocol, jobs, [], accepted) && DroppedBy(dropped, [], dropped)
    ensures Grows(db, db) && InTime(db, [], db)
    ensures StatesFollow(protocol, states, states, jobs, [], 0) && MessagesFollow(protocol, states, [], jobs, [])
  {
  }
}
