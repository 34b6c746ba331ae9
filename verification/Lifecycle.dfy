/**
 Starting and stopping the sync mesh from the app (KiemModel+Sync.swift, kiem-ffi's sync.rs). The
 main actor flips `isSyncRunning` at once; a serial queue arms and disarms the mesh later, and a
 failed start comes back to the main actor later still. Generations tell stale work apart.
 */
module Lifecycle {
  import opened Text

  datatype Block = ArmMesh(generation: nat) | DisarmMesh

  /** `arming`: the block at work has found itself current and is about to start the mesh. */
  datatype Life = Life(running: bool, generation: nat, desired: bool, queue: seq<Block>, arming: Option<nat>,
                       mesh: bool, reverts: set<nat>)

  /** Main actor: the first two and `Revert`. Queue: `RunBlock`, then `Arm` if a start is current. */
  datatype Event = StartSync | StopSync | RunBlock | Arm(ok: bool) | Revert(generation: nat)

  predicate IsCurrent(s: Life, generation: nat) {
    s.desired && s.generation == generation
  }

  function Step(s: Life, e: Event): Life {
    match e
    case StartSync =>
      if s.running then s
      else s.(running := true, generation := s.generation + 1, desired := true,
              queue := s.queue + [ArmMesh(s.generation + 1)])
    case StopSync =>
      if !s.running then s
      else s.(running := false, generation := s.generation + 1, desired := false, queue := s.queue + [DisarmMesh])
    case RunBlock =>
      if s.queue == [] || s.arming.Some? then s
      else
        match s.queue[0] {
          case ArmMesh(g) => s.(queue := s.queue[1..], arming := if IsCurrent(s, g) then Some(g) else None)
          case DisarmMesh => s.(queue := s.queue[1..], mesh := false)
        }
    case Arm(ok) =>
      if s.arming.None? then s
      else if s.mesh || ok then s.(arming := None, mesh := true)
      else s.(arming := None, reverts := s.reverts + {s.arming.value})
    case Revert(g) =>
      if g !in s.reverts then s
      else s.(reverts := s.reverts - {g}, running := if IsCurrent(s, g) then false else s.running)
  }

  function Run(s: Life, events: seq<Event>): Life {
    if events == [] then s else Step(Run(s, events[..|events| - 1]), events[|events| - 1])
  }

  const START := Life(false, 0, false, [], None, false, {})

  /** Nothing is at work and nothing waits. */
  predicate AtRest(s: Life) {
    s.queue == [] && s.arming.None?
  }

  /** The last block waiting is the one the last request put there. */
  ghost predicate QueueOk(s: Life) {
    && (forall k | 0 <= k < |s.queue| && s.queue[k].ArmMesh? ::
          s.queue[k].generation <= s.generation && (k < |s.queue| - 1 ==> s.queue[k].generation < s.generation))
    && (s.arming.Some? ==> s.arming.value <= s.generation && (s.queue != [] ==> s.arming.value < s.generation))
    && (forall g | g in s.reverts :: g <= s.generation)
  }

  ghost predicate Inv(s: Life) {
    && QueueOk(s)
    && (s.running ==> s.desired)
    && (s.running ==>
          || (s.queue != [] && s.queue[|s.queue| - 1] == ArmMesh(s.generation))
          || (s.queue == [] && s.arming == Some(s.generation))
          || (AtRest(s) && (s.mesh || s.generation in s.reverts)))
    && (!s.running && !s.desired ==> (s.queue != [] && s.queue[|s.queue| - 1] == DisarmMesh) || (AtRest(s) && !s.mesh))
    && (!s.running && s.desired ==> AtRest(s) && !s.mesh)
    && (s.desired && s.generation in s.reverts ==> AtRest(s) && !s.mesh)
    && (!s.desired ==> s.generation !in s.reverts)
  }

  lemma StepKeepsInv(s: Life, e: Event)
    requires Inv(s)
    ensures Inv(Step(s, e))
  {
  }

  lemma {:induction false} RunKeepsInv(events: seq<Event>)
    ensures Inv(Run(START, events))
  {
    if events != [] {
      RunKeepsInv(events[..|events| - 1]);
      hide Inv;
      StepKeepsInv(Run(START, events[..|events| - 1]), events[|events| - 1]);
    }
  }

  predicate Drained(s: Life) {
    AtRest(s) && s.reverts == {}
  }

  /**
   However starts, stops, failing starts and late failure handlers interleave, once the queue and
   the handlers have run the mesh is running exactly when the app says so.
   */
  lemma DrainedAgrees(events: seq<Event>)
    ensures var s := Run(START, events); Drained(s) ==> s.mesh == s.running
  {
    RunKeepsInv(events);
  }

  /** Even before that: a mesh that outlives its stop request has a block waiting to disarm it. */
  lemma StoppedMeshIsDoomed(events: seq<Event>)
    ensures var s := Run(START, events); s.mesh && !s.running ==> s.queue != [] && s.queue[|s.queue| - 1] == DisarmMesh
  {
    RunKeepsInv(events);
  }

  // ---- it does drain ----

  /** What is left to do when no more requests come. */
  function Work(s: Life): nat {
    3 * |s.queue| + (if s.arming.Some? then 2 else 0) + |s.reverts|
  }

  predicate Enabled(s: Life, e: Event) {
    match e
    case StartSync => false
    case StopSync => false
    case RunBlock => s.queue != [] && s.arming.None?
    case Arm(_) => s.arming.Some?
    case Revert(g) => g in s.reverts
  }

  /** Every step that is not a request gets closer to the end, and until then there is one. */
  lemma WorkShrinks(s: Life, e: Event)
    ensures Enabled(s, e) ==> Work(Step(s, e)) < Work(s)
    ensures Drained(s) || exists f :: Enabled(s, f)
  {
    if s.arming.Some? {
      assert Enabled(s, Arm(true));
    } else if s.queue != [] {
      assert Enabled(s, RunBlock);
    } else if g :| g in s.reverts {
      assert Enabled(s, Revert(g));
    }
  }

  // ---- the last request wins ----

  /** No request, and no start that fails. */
  ghost predicate Calm(events: seq<Event>) {
    forall k | 0 <= k < |events| :: !events[k].StartSync? && !events[k].StopSync? && events[k] != Arm(false)
  }

  lemma {:induction false} StartedStays(s: Life, events: seq<Event>)
    requires Inv(s) && s.running && s.generation !in s.reverts && Calm(events)
    ensures var t := Run(s, events); Inv(t) && t.running && t.generation == s.generation && t.generation !in t.reverts
  {
    if events != [] {
      var front := events[..|events| - 1];
      StartedStays(s, front);
      StepKeepsInv(Run(s, front), events[|events| - 1]);
      hide Inv;
    }
  }

  /** A start that does not fail ends with the mesh running, unless the app had just failed to start one. */
  lemma StartRuns(s: Life, events: seq<Event>)
    requires Inv(s) && Calm(events) && (s.running ==> s.generation !in s.reverts)
    ensures var t := Run(Step(s, StartSync), events); t.running && (Drained(t) ==> t.mesh)
  {
    StepKeepsInv(s, StartSync);
    StartedStays(Step(s, StartSync), events);
  }

  lemma {:induction false} StoppedStays(s: Life, events: seq<Event>)
    requires Inv(s) && !s.running && forall k | 0 <= k < |events| :: !events[k].StartSync?
    ensures var t := Run(s, events); Inv(t) && !t.running
  {
    if events != [] {
      var front := events[..|events| - 1];
      StoppedStays(s, front);
      StepKeepsInv(Run(s, front), events[|events| - 1]);
      hide Inv;
    }
  }

  /** After a stop nothing runs in the end, whatever starts fail or come late. */
  lemma StopStops(s: Life, events: seq<Event>)
    requires Inv(s) && forall k | 0 <= k < |events| :: !events[k].StartSync?
    ensures var t := Run(Step(s, StopSync), events); !t.running && (Drained(t) ==> !t.mesh)
  {
    StepKeepsInv(s, StopSync);
    StoppedStays(Step(s, StopSync), events);
  }

  lemma RunCons(s: Life, e: Event, events: seq<Event>)
    ensures Run(s, [e] + events) == Run(Step(s, e), events)
  {
    hide Step;
    if events == [] {
      assert [e] + events == [e] && [e][..0] == [];
    } else {
      var front := events[..|events| - 1];
      RunCons(s, e, front);
      assert ([e] + events)[..|events|] == [e] + front;
    }
  }

  /** From any state the queue and the handlers can run to the end without a failure. */
  lemma {:induction false} Drains(s: Life) returns (events: seq<Event>)
    ensures Calm(events) && Drained(Run(s, events))
    decreases Work(s)
  {
    if Drained(s) {
      events := [];
    } else {
      var e := if s.arming.Some? then Arm(true) else if s.queue != [] then RunBlock else AnyRevert(s);
      WorkShrinks(s, e);
      var rest := Drains(Step(s, e));
      events := [e] + rest;
      RunCons(s, e, rest);
    }
  }

  ghost function AnyRevert(s: Life): (e: Event)
    requires s.reverts != {}
    ensures e.Revert? && e.generation in s.reverts
  {
    var g :| g in s.reverts;
    Revert(g)
  }

  // ---- the objects ----

  class SyncLifecycleGate {
    var generation: nat
    var desiredRunning: bool

    constructor ()
      ensures generation == 0 && !desiredRunning
    {
      generation, desiredRunning := 0, false;
    }

    method RequestStart() returns (g: nat)
      modifies this
      ensures g == generation == old(generation) + 1 && desiredRunning
    {
      generation, desiredRunning := generation + 1, true;
      g := generation;
    }

    method RequestStop()
      modifies this
      ensures generation == old(generation) + 1 && !desiredRunning
    {
      generation, desiredRunning := generation + 1, false;
    }

    predicate IsCurrentStart(g: nat)
      reads this
    {
      desiredRunning && generation == g
    }

    predicate ShouldRevert(g: nat)
      reads this
    {
      IsCurrentStart(g)
    }
  }

  /** The app's model and the store it drives; `mesh` is whether the store's sync handle is there. */
  class KiemModel {
    const gate: SyncLifecycleGate
    var isSyncRunning: bool
    var queue: seq<Block>
    var arming: Option<nat>
    var mesh: bool
    var reverts: set<nat>

    ghost function View(): Life
      reads this, gate
    {
      Life(isSyncRunning, gate.generation, gate.desiredRunning, queue, arming, mesh, reverts)
    }

    constructor ()
      ensures View() == START && fresh(gate)
    {
      gate := new SyncLifecycleGate();
      isSyncRunning, queue, arming, mesh, reverts := false, [], None, false, {};
    }

    method StartSync()
      modifies this`isSyncRunning, this`queue, gate
      ensures View() == Step(old(View()), Event.StartSync)
    {
      if isSyncRunning { return; }
      isSyncRunning := true;
      var generation := gate.RequestStart();
      queue := queue + [ArmMesh(generation)];
    }

    method StopSync()
      modifies this`isSyncRunning, this`queue, gate
      ensures View() == Step(old(View()), Event.StopSync)
    {
      if !isSyncRunning { return; }
      isSyncRunning := false;
      gate.RequestStop();
      queue := queue + [DisarmMesh];
    }

    /** The serial queue takes its next block: a stop is done, a start checks that it is current. */
    method RunBlock()
      modifies this`queue, this`arming, this`mesh
      ensures View() == Step(old(View()), Event.RunBlock)
    {
      if queue != [] && arming.None? {
        var block := queue[0];
        queue := queue[1..];
        match block
        case ArmMesh(g) => if gate.IsCurrentStart(g) { arming := Some(g); }
        case DisarmMesh => mesh := false;
      }
    }

    /** `start_sync`: nothing to do while a mesh is there; a failure is handed to the main actor. */
    method FinishArming(ok: bool)
      modifies this`arming, this`mesh, this`reverts
      ensures View() == Step(old(View()), Event.Arm(ok))
    {
      if arming.Some? {
        var generation := arming.value;
        arming := None;
        if !mesh {
          if ok { mesh := true; } else { reverts := reverts + {generation}; }
        }
      }
    }

    /** The failure handler, on the main actor. */
    method RunRevert(g: nat)
      modifies this`isSyncRunning, this`reverts
      ensures View() == Step(old(View()), Event.Revert(g))
    {
      if g in reverts {
        reverts := reverts - {g};
        if gate.ShouldRevert(g) { isSyncRunning := false; }
      }
    }
  }
}
