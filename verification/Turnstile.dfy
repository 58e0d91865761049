/** The layout lock of one mailbox: a gate that every entrant passes one at a time, and a
    reader/writer resource behind it. An exclusive entrant keeps the gate while it waits and while it
    holds the resource; a shared entrant gives it back as soon as it is in. Both locks are advisory
    file locks: the kernel grants them, and closing the descriptor is what releases them for certain. */
module Turnstile {
  import opened Wrappers

  type Process = nat
  type Time = int

  datatype Phase =
    | AtGate        // descriptors open, polling the gate
    | GateTaken     // the gate was granted, the deadline not yet rechecked
    | AtResource    // owns the gate, polling the resource
    | ResourceTaken // the resource was granted, checks pending
    | Verified      // a shared entrant gives the gate back here
    | Resolving     // reads the layout this lock protects
    | Entered
    | Closing       // releases the resource first
    | ClosingGate
    | Dying         // killed: the kernel closes the two descriptors in either order

  /** The gate is certainly owned. */
  predicate PastGate(f: Phase) { f.GateTaken? || f.AtResource? || f.ResourceTaken? || f.Verified? }

  /** The resource is certainly owned. */
  predicate Inside(f: Phase) { f.ResourceTaken? || f.Verified? || f.Resolving? || f.Entered? }

  predicate MayHold(f: Phase) { Inside(f) || f.Closing? || f.Dying? }

  datatype Entrant = Entrant(
    exclusive: bool, deadline: Option<Time>, noWait: bool, first: bool, phase: Phase, gateAt: Time, acquiredAt: Time)

  datatype Attempt = Took | Sleeps | Raised

  /** One round of polling a lock. A zero timeout still earns the first attempt. */
  function Poll(free: bool, interrupted: bool, e: Entrant, at: Time, after: Time): Attempt {
    if e.deadline.Some? && at >= e.deadline.value && !(e.first && e.noWait) then Raised
    else if interrupted then Sleeps
    else if free then Took
    else if e.deadline.Some? && after >= e.deadline.value then Raised
    else Sleeps
  }

  predicate Late(e: Entrant, now: Time) {
    e.deadline.Some? && !e.noWait && now >= e.deadline.value
  }

  datatype Action =
    | Open(process: Process, exclusive: bool, timeout: Option<nat>)
    | PollGate(process: Process, interrupted: bool, wait: nat)
    | RecheckGate(process: Process)
    | PollResource(process: Process, interrupted: bool, wait: nat)
    | Verify(process: Process, sound: bool)
    | ReleaseGate(process: Process, unlocks: bool)
    | Resolve(process: Process, sound: bool)
    | Exit(process: Process)
    | CloseResource(process: Process)
    | CloseGate(process: Process)
    | Die(process: Process)
    | KernelClosesResource(process: Process)
    | KernelClosesGate(process: Process)
    | Tick(elapsed: nat)

  /** What each granted lock says about its owner, and each entrant about its locks and times. */
  predicate Agrees(p: Process, e: Entrant, gate: Option<Process>, writer: Option<Process>, readers: set<Process>,
                   clock: Time)
  {
    && (PastGate(e.phase) ==> gate == Some(p))
    && (Inside(e.phase) ==> if e.exclusive then writer == Some(p) else p in readers)
    && (gate == Some(p) ==> !e.phase.AtGate?)
    && (writer == Some(p) ==> e.exclusive && MayHold(e.phase) && (e.phase.Dying? || gate == Some(p)))
    && (p in readers ==> !e.exclusive && MayHold(e.phase))
    && (e.phase.GateTaken? ==> e.gateAt <= clock)
    && (Inside(e.phase) || e.phase.AtResource? ==> e.gateAt <= clock && !Late(e, e.gateAt))
    && (Inside(e.phase) ==> e.gateAt <= e.acquiredAt <= clock)
    && (Inside(e.phase) && !e.phase.ResourceTaken? ==> !Late(e, e.acquiredAt))
  }

  class LayoutLock {
    var clock: Time
    var gate: Option<Process>
    var writer: Option<Process>
    var readers: set<Process>
    var entrants: map<Process, Entrant>

    constructor ()
      ensures Valid() && entrants == map[]
    {
      clock, gate, writer, readers, entrants := 0, None, None, {}, map[];
    }

    function Holders(): set<Process>
      reads this
    {
      readers + if writer.Some? then {writer.value} else {}
    }

    predicate In(p: Process, phase: Phase)
      reads this
    {
      p in entrants && entrants[p].phase == phase
    }

    /** An exclusive entrant whose turn is next. */
    predicate Next(p: Process)
      reads this
    {
      In(p, AtResource) && entrants[p].exclusive
    }

    predicate Consistent(p: Process)
      reads this
      requires p in entrants
    {
      Agrees(p, entrants[p], gate, writer, readers, clock)
    }

    ghost predicate Valid()
      reads this
    {
      && (gate.Some? ==> gate.value in entrants)
      && (writer.Some? ==> writer.value in entrants && readers == {})
      && readers <= entrants.Keys
      && forall p :: p in entrants ==> Consistent(p)
    }

    /** An exclusive holder is alone, and it still owns the gate unless it is being killed. */
    lemma ExclusiveIsAlone(p: Process, q: Process)
      requires Valid() && In(p, Entered) && entrants[p].exclusive
      ensures In(q, Entered) ==> q == p
      ensures Holders() == {p} && gate == Some(p)
    {
      assert Consistent(p);
      if In(q, Entered) { assert Consistent(q); }
    }

    /** An entered context got both locks before its deadline, the gate first. */
    lemma EntersInTime(p: Process)
      requires Valid() && In(p, Entered) && entrants[p].deadline.Some? && !entrants[p].noWait
      ensures entrants[p].gateAt <= entrants[p].acquiredAt < entrants[p].deadline.value
    {
      assert Consistent(p);
    }

    /** A shared entrant that owns the gate can be kept from the resource only by a killed writer
        that the kernel has not finished closing. */
    lemma ReaderMeetsNoLiveWriter(p: Process)
      requires Valid() && In(p, AtResource) && !entrants[p].exclusive && writer.Some?
      ensures In(writer.value, Dying)
    {
      assert Consistent(p) && Consistent(writer.value);
    }

    /** What one step of one process may do to the waiting writers and the holders. */
    twostate predicate Orderly(actor: Process)
      reads this
    {
      && old(clock) <= clock
      && entrants - {actor} == old(entrants) - {actor}
      && forall w :: w != actor && old(Next(w)) ==>
           Next(w) && entrants[w] == old(entrants[w]) && Holders() <= old(Holders())
    }

    method Move(p: Process, phase: Phase)
      requires p in entrants
      modifies `entrants
      ensures entrants == old(entrants)[p := old(entrants[p]).(phase := phase)]
    {
      entrants := entrants[p := entrants[p].(phase := phase)];
    }

    method OpenDescriptors(p: Process, exclusive: bool, timeout: Option<nat>)
      requires Valid() && p !in entrants
      modifies `entrants
      ensures Valid() && Orderly(p)
      ensures In(p, AtGate)
    {
      var deadline := if timeout.Some? then Some(clock + timeout.value) else None;
      entrants := entrants[p := Entrant(exclusive, deadline, timeout == Some(0), true, AtGate, clock, clock)];
      assert forall q :: q in old(entrants) ==> old(Consistent(q));
    }

    method Pass(elapsed: nat)
      requires Valid()
      modifies `clock
      ensures Valid() && clock == old(clock) + elapsed
    {
      assert forall q :: q in entrants ==> Consistent(q);
      clock := clock + elapsed;
    }

    /** A round that did not get the lock: sleep and poll again, or give up. */
    method Miss(p: Process, r: Attempt)
      requires Valid() && (In(p, AtGate) || In(p, AtResource)) && !r.Took?
      modifies `entrants
      ensures Valid() && Orderly(p)
      ensures In(p, if r.Raised? then Closing else old(entrants[p]).phase)
      ensures r.Sleeps? ==> !entrants[p].first
    {
      assert forall q :: q in entrants ==> Consistent(q);
      var e := entrants[p];
      entrants := entrants[p := if r.Raised? then e.(phase := Closing) else e.(first := false)];
    }

    method GrantGate(p: Process)
      requires Valid() && In(p, AtGate) && gate.None?
      modifies `gate, `entrants
      ensures Valid() && Orderly(p) && In(p, GateTaken) && gate == Some(p)
    {
      assert forall q :: q in entrants ==> Consistent(q);
      gate := Some(p);
      entrants := entrants[p := entrants[p].(phase := GateTaken, gateAt := clock)];
    }

    method TryGate(p: Process, interrupted: bool, wait: nat) returns (r: Attempt)
      requires Valid() && In(p, AtGate)
      modifies `gate, `entrants, `clock
      ensures Valid() && Orderly(p)
      ensures r == Poll(old(gate).None?, interrupted, old(entrants[p]), old(clock), old(clock) + wait)
      ensures r.Took? ==> old(gate).None? && In(p, GateTaken) && gate == Some(p)
      ensures r.Raised? ==> In(p, Closing) && gate == old(gate)
      ensures r.Sleeps? ==> In(p, AtGate) && !entrants[p].first && gate == old(gate)
    {
      var e := entrants[p];
      r := Poll(gate.None?, interrupted, e, clock, clock + wait);
      if r.Took? {
        GrantGate(p);
      } else {
        Miss(p, r);
      }
      Pass(wait);
    }

    /** The deadline is looked at again once the gate is granted. */
    method ConfirmGate(p: Process)
      requires Valid() && In(p, GateTaken)
      modifies `entrants
      ensures Valid() && Orderly(p)
      ensures In(p, if Late(old(entrants[p]), clock) then Closing else AtResource)
    {
      assert forall q :: q in entrants ==> Consistent(q);
      var e := entrants[p];
      entrants := entrants[p := e.(phase := if Late(e, clock) then Closing else AtResource, first := true)];
    }

    /** Whether the kernel grants the resource to this entrant. */
    predicate ResourceFree(p: Process)
      reads this
      requires p in entrants
    {
      writer.None? && (entrants[p].exclusive ==> readers == {})
    }

    /** The kernel grants the resource. */
    method Grant(p: Process)
      requires Valid() && In(p, AtResource) && ResourceFree(p)
      modifies `writer, `readers, `entrants
      ensures Valid() && Orderly(p) && In(p, ResourceTaken)
      ensures Holders() == old(Holders()) + {p}
      ensures old(entrants[p]).exclusive ==> Holders() == {p}
    {
      assert forall q :: q in entrants ==> Consistent(q);
      var e := entrants[p];
      if e.exclusive { writer := Some(p); } else { readers := readers + {p}; }
      entrants := entrants[p := e.(phase := ResourceTaken, acquiredAt := clock)];
    }

    method TryResource(p: Process, interrupted: bool, wait: nat) returns (r: Attempt)
      requires Valid() && In(p, AtResource)
      modifies this
      ensures Valid() && Orderly(p) && gate == old(gate)
      ensures r == Poll(old(ResourceFree(p)), interrupted, old(entrants[p]), old(clock), old(clock) + wait)
      ensures r.Took? ==> In(p, ResourceTaken) && Holders() == old(Holders()) + {p}
      ensures r.Took? && old(entrants[p]).exclusive ==> Holders() == {p}
      ensures !r.Took? ==> Holders() == old(Holders()) && In(p, if r.Raised? then Closing else AtResource)
    {
      var e := entrants[p];
      r := Poll(ResourceFree(p), interrupted, e, clock, clock + wait);
      if r.Took? {
        Grant(p);
      } else {
        Miss(p, r);
      }
      Pass(wait);
    }

    /** The deadline and the identity of the lock files, with both locks in hand. */
    method VerifyEntry(p: Process, sound: bool)
      requires Valid() && In(p, ResourceTaken)
      modifies `entrants
      ensures Valid() && Orderly(p)
      ensures In(p, if Late(old(entrants[p]), clock) || !sound then Closing else Verified)
    {
      assert forall q :: q in entrants ==> Consistent(q);
      Move(p, if Late(entrants[p], clock) || !sound then Closing else Verified);
    }

    /** Only a shared entrant gives the gate back here, and an unlock that fails is ignored. */
    method GiveBackGate(p: Process, unlocks: bool)
      requires Valid() && In(p, Verified)
      modifies `gate, `entrants
      ensures Valid() && Orderly(p) && In(p, Resolving)
      ensures gate == if old(entrants[p]).exclusive || !unlocks then old(gate) else None
    {
      assert forall q :: q in entrants ==> Consistent(q);
      if !entrants[p].exclusive && unlocks { gate := None; }
      Move(p, Resolving);
    }

    /** Entry ends with the resolver's answer, a held context with its exit. */
    method Finish(p: Process, from: Phase, sound: bool)
      requires Valid() && In(p, from) && (from.Resolving? || from.Entered?)
      modifies `entrants
      ensures Valid() && Orderly(p)
      ensures In(p, if from == Resolving && sound then Entered else Closing)
    {
      assert forall q :: q in entrants ==> Consistent(q);
      Move(p, if from == Resolving && sound then Entered else Closing);
    }

    method UnlockResource(p: Process)
      requires Valid() && p in entrants && (entrants[p].phase.Closing? || entrants[p].phase.Dying?)
      modifies `writer, `readers
      ensures Valid() && Holders() == old(Holders()) - {p}
    {
      assert forall q :: q in entrants ==> Consistent(q);
      if writer == Some(p) {
        writer := None;
      } else {
        readers := readers - {p};
      }
    }

    method DropResource(p: Process, after: Phase)
      requires Valid() && (after.ClosingGate? || after.Dying?)
      requires In(p, if after == ClosingGate then Closing else Dying)
      modifies `writer, `readers, `entrants
      ensures Valid() && Orderly(p) && In(p, after)
      ensures Holders() == old(Holders()) - {p}
    {
      UnlockResource(p);
      assert forall q :: q in entrants ==> Consistent(q);
      assert p !in Holders();
      Move(p, after);
    }

    method DropGate(p: Process, last: bool)
      requires Valid() && In(p, if last then ClosingGate else Dying)
      modifies `gate, `entrants
      ensures Valid() && Orderly(p) && gate != Some(p)
      ensures entrants == if last then old(entrants) - {p} else old(entrants)
    {
      assert forall q :: q in entrants ==> Consistent(q);
      if gate == Some(p) { gate := None; }
      if last { entrants := entrants - {p}; }
    }

    method Kill(p: Process)
      requires Valid() && p in entrants
      modifies `entrants
      ensures Valid() && Orderly(p) && In(p, Dying)
    {
      assert forall q :: q in entrants ==> Consistent(q);
      Move(p, Dying);
    }

    /** One step of any process, or of the kernel on its behalf; a step that is not enabled does nothing. */
    method Step(a: Action)
      requires Valid()
      modifies this
      ensures Valid()
      ensures a.Tick? || Orderly(a.process)
      ensures a.Tick? ==> entrants == old(entrants) && Holders() == old(Holders()) && gate == old(gate)
    {
      match a
      case Tick(elapsed) =>
        Pass(elapsed);
      case Open(p, exclusive, timeout) => if p !in entrants { OpenDescriptors(p, exclusive, timeout); }
      case PollGate(p, interrupted, wait) => if In(p, AtGate) { var _ := TryGate(p, interrupted, wait); }
      case RecheckGate(p) => if In(p, GateTaken) { ConfirmGate(p); }
      case PollResource(p, interrupted, wait) => if In(p, AtResource) { var _ := TryResource(p, interrupted, wait); }
      case Verify(p, sound) => if In(p, ResourceTaken) { VerifyEntry(p, sound); }
      case ReleaseGate(p, unlocks) => if In(p, Verified) { GiveBackGate(p, unlocks); }
      case Resolve(p, sound) => if In(p, Resolving) { Finish(p, Resolving, sound); }
      case Exit(p) => if In(p, Entered) { Finish(p, Entered, true); }
      case CloseResource(p) => if In(p, Closing) { DropResource(p, ClosingGate); }
      case CloseGate(p) => if In(p, ClosingGate) { DropGate(p, true); }
      case Die(p) => if p in entrants { Kill(p); }
      case KernelClosesResource(p) => if In(p, Dying) { DropResource(p, Dying); }
      case KernelClosesGate(p) => if In(p, Dying) { DropGate(p, false); }
    }

    /** No reader overtakes a waiting writer: whatever everyone else does while w waits for the
        resource, nobody gets it, so holders only leave, and no more departures than there were
        holders separate w from its turn. */
    method WaitBehind(w: Process, steps: seq<Action>) returns (departures: nat)
      requires Valid() && Next(w)
      requires forall a :: a in steps ==> a.Tick? || a.process != w
      modifies this
      ensures Valid() && Next(w) && entrants[w] == old(entrants[w])
      ensures Holders() <= old(Holders()) && |Holders()| + departures <= |old(Holders())|
      ensures Holders() == {} ==> ResourceFree(w)
    {
      departures := 0;
      for k := 0 to |steps|
        invariant Valid() && Next(w) && entrants[w] == old(entrants[w])
        invariant Holders() <= old(Holders()) && |Holders()| + departures <= |old(Holders())|
      {
        assert steps[k] in steps;
        var before := Holders();
        Step(steps[k]);
        assert Holders() <= before;
        if Holders() != before {
          Smaller(Holders(), before);
          departures := departures + 1;
        }
      }
    }

    /** Any schedule of any processes, with any deaths and timeouts, keeps the lock's invariant. */
    method Run(steps: seq<Action>)
      requires Valid()
      modifies this
      ensures Valid()
    {
      for k := 0 to |steps|
        invariant Valid()
      {
        Step(steps[k]);
      }
    }
  }

  lemma Smaller(a: set<Process>, b: set<Process>)
    requires a <= b && a != b
    ensures |a| < |b|
  {
    assert b == a + (b - a);
    assert b - a != {};
  }
}
