/** The runtime's records in place: each section under a seat's state lock reads the records, looks at
    an owner's process, and rewrites what it must. Every method is one step of module Leases, so what
    is proved there of all interleavings holds of these records. */
module SeatRuntime {
  import opened Wrappers
  import opened Leases

  /** What one process wants bound: a native root of its own process to its seat. */
  datatype Attempt = Attempt(seat: Seat, harness: Harness, id: string, owner: Owner)

  /** What came of an attempt: a new generation carries the root, or the current one did already. */
  datatype Binding = Unbound | Claimed(fence: Fence) | Already(fence: Fence)

  predicate Making(binder: Option<Binder>, t: Attempt) {
    binder.Some? && binder.value.seat == t.seat && binder.value.harness == t.harness && binder.value.id == t.id &&
    binder.value.owner == t.owner
  }

  /** A step only the holder of the project's claim lock takes. */
  predicate OfClaimOn(a: Action, project: Option<Project>) {
    (a.ScanRecord? || a.WriteLease? || a.AbandonClaim?) && project == Some(a.project)
  }

  /** Steps of other processes leave the holder of the host binding lock alone, and its claim too. */
  lemma OthersStay(w: World, a: Action, project: Option<Project>)
    requires !OfBinder(a) && !OfClaimOn(a, project)
    requires w.binder.Some? && w.binder.value.phase.Claiming? ==> project == Some(w.binder.value.seat.project)
    ensures Spared(w, Step(w, a), project)
  {
    hide Truthful, Fenced, ScanPasses, WritePasses, ScanComplete, MayRecord, NoGuard;
    if OfClaim(a) { ClaimantsStay(w, a, project); }
  }

  /** What the steps of another project's claim leave alone. */
  predicate Spared(w: World, v: World, project: Option<Project>) {
    && v.binder == w.binder && v.nextRevision >= w.nextRevision
    && (project.Some? && project.value in w.claims ==>
        project.value in v.claims && v.claims[project.value] == w.claims[project.value])
  }

  lemma RefuseSpares(w: World, other: Project, project: Option<Project>)
    requires project != Some(other)
    requires w.binder.Some? && w.binder.value.phase.Claiming? ==> project == Some(w.binder.value.seat.project)
    ensures Spared(w, Refuse(w, other), project)
  {
  }

  lemma WriteSpares(w: World, other: Project, seen: Observation, project: Option<Project>)
    requires project != Some(other)
    requires w.binder.Some? && w.binder.value.phase.Claiming? ==> project == Some(w.binder.value.seat.project)
    ensures Spared(w, Write(w, other, seen), project)
  {
    hide Truthful, WritePasses, ScanComplete, Refuse;
    RefuseSpares(w, other, project);
  }

  lemma ClaimantsStay(w: World, a: Action, project: Option<Project>)
    requires OfClaim(a) && !OfClaimOn(a, project)
    requires w.binder.Some? && w.binder.value.phase.Claiming? ==> project == Some(w.binder.value.seat.project)
    ensures Spared(w, Step(w, a), project)
  {
    hide Truthful, ScanPasses, NoGuard, Write, Refuse;
    match a
    case WriteLease(other, seen) => WriteSpares(w, other, seen, project);
    case ScanRecord(other, _, _) => RefuseSpares(w, other, project);
    case AbandonClaim(other) => RefuseSpares(w, other, project);
    case BeginClaim(_, _, _, _, _) =>
  }

  class Runtime {
    var leases: map<Seat, Lease>
    var capabilities: map<Seat, Capability>
    var dead: set<Owner>
    var nextRevision: nat
    var claims: map<Project, Claim>
    var guards: map<ProcessId, Guard>
    var binder: Option<Binder>
    var recorded: set<Evidence>

    constructor ()
      ensures Now() == Empty
    {
      leases, capabilities, dead, nextRevision := map[], map[], {}, 0;
      claims, guards, binder, recorded := map[], map[], None, {};
    }

    function Now(): World
      reads this
    {
      World(leases, capabilities, dead, nextRevision, claims, guards, binder, recorded)
    }

    /** Looking at a process may fail to tell, but does not lie. */
    method Observe(owner: Owner) returns (seen: Observation)
      ensures Truthful(Now(), owner, seen)
    {
      var unclear: bool := *;
      seen := if unclear then Ambiguous else if owner in dead then Stale else Active;
    }

    /** The fenced read every update starts with. */
    method LoadFenced(seat: Seat, fence: Fence) returns (ok: bool, seen: Observation)
      ensures ok <==> Fenced(Now(), seat, fence, seen)
    {
      if seat !in leases || leases[seat].fence != fence { return false, Ambiguous; }
      seen := Observe(leases[seat].owner);
      ok := seen.Active?;
    }

    method BeginClaim(seat: Seat, c: Claim)
      modifies `claims
      ensures Now() == Begin(old(Now()), seat, c)
    {
      if NoClaim(Now(), seat.project) && NoGuard(Now(), seat.project) && c.owner !in dead {
        claims := claims[seat.project := c];
      }
    }

    method RefuseClaim(project: Project)
      modifies `claims, `binder
      ensures Now() == Refuse(old(Now()), project)
    {
      claims := claims - {project};
      if binder.Some? && binder.value.phase.Claiming? && binder.value.seat.project == project { binder := None; }
    }

    /** A claim looks at one record of its project; the record decides whether it goes on. */
    method ScanRecord(project: Project, agent: Agent) returns (seen: Observation)
      modifies `claims, `binder
      ensures Now() == Scan(old(Now()), project, agent, seen)
    {
      seen := Ambiguous;
      var seat := Seat(project, agent);
      if project !in claims || seat !in leases { return; }
      seen := Observe(leases[seat].owner);
      var c := claims[project];
      if ScanPasses(c, agent, leases[seat], seen) {
        claims := claims[project := c.(scanned := c.scanned + {agent})];
      } else {
        RefuseClaim(project);
      }
    }

    /** The re-read under the state lock, and the write that mints a new generation. */
    method WriteClaim(project: Project) returns (seen: Observation)
      modifies this
      ensures Now() == Write(old(Now()), project, seen)
    {
      seen := Ambiguous;
      if project !in claims || !ScanComplete(Now(), project, claims[project]) { return; }
      var c := claims[project];
      var seat := Seat(project, c.agent);
      var existing := LeaseOf(Now(), seat);
      if existing.Some? { seen := Observe(existing.value.owner); }
      if !WritePasses(c, existing, seen) {
        RefuseClaim(project);
      } else {
        Install(project, c, seat);
      }
    }

    method Install(project: Project, c: Claim, seat: Seat)
      requires project in claims && claims[project] == c && seat == Seat(project, c.agent)
      modifies `leases, `nextRevision, `claims, `binder
      ensures Now() == Written(old(Now()), project)
    {
      var fence := Fence(c.session, nextRevision);
      nextRevision := nextRevision + 1;
      leases := leases[seat := Lease(c.harness, fence, c.owner, 0)];
      claims := claims - {project};
      if binder.Some? && binder.value.phase.Claiming? && binder.value.seat == seat {
        binder := Some(binder.value.(phase := Recording(fence)));
      }
    }

    method ReleaseLease(seat: Seat, fence: Fence) returns (released: bool, seen: Observation)
      modifies `leases, `capabilities
      ensures Now() == ReleaseSeat(old(Now()), seat, fence, seen)
      ensures released ==> Generation(old(Now()), seat) == Some(fence) && Generation(Now(), seat) == None
      ensures !released ==> Now() == old(Now())
    {
      released, seen := false, Ambiguous;
      if !NoClaim(Now(), seat.project) || !NoGuard(Now(), seat.project) { return; }
      released, seen := LoadFenced(seat, fence);
      if released { leases, capabilities := leases - {seat}, capabilities - {seat}; }
    }

    method UpdateActivity(seat: Seat, fence: Fence) returns (ok: bool, seen: Observation)
      modifies `leases
      ensures Now() == TouchSeat(old(Now()), seat, fence, seen)
      ensures !ok ==> Now() == old(Now())
    {
      ok, seen := LoadFenced(seat, fence);
      if ok { leases := leases[seat := leases[seat].(activity := leases[seat].activity + 1)]; }
    }

    /** Write the capability record of a seat's current generation; a record of an older one does not
        survive into it. */
    method PutCapability(seat: Seat, thread: Change<string>, binding: Change<string>, surface: Change<string>,
                         native: Change<Native>)
      requires seat in leases
      modifies `capabilities, `recorded
      ensures Now() == Recorded(old(Now()), seat, leases[seat], thread, binding, surface, native)
    {
      var lease := leases[seat];
      var base := Capability(lease.harness, lease.fence, None, None, None, None);
      if seat in capabilities && capabilities[seat].fence == lease.fence { base := capabilities[seat]; }
      var c := Capability(lease.harness, lease.fence, Apply(thread, base.thread), Apply(binding, base.binding),
                          Apply(surface, base.surface), Apply(native, base.native));
      capabilities := capabilities[seat := c];
      recorded := recorded + {Evidence(seat, lease.fence, c.surface)};
    }

    method RecordCapability(process: ProcessId, seat: Seat, harness: Harness, fence: Fence,
                            thread: Change<string>, binding: Change<string>, surface: Change<string>)
      returns (ok: bool, seen: Observation)
      modifies `capabilities, `recorded
      ensures Now() == RecordSeat(old(Now()), process, seat, harness, fence, seen, thread, binding, surface)
      ensures !ok ==> Now() == old(Now())
    {
      ok, seen := false, Ambiguous;
      if !MayRecord(Now(), process, seat.project) { return; }
      ok, seen := LoadFenced(seat, fence);
      ok := ok && leases[seat].harness == harness;
      if ok { PutCapability(seat, thread, binding, surface, Unchanged); }
    }

    method EnterSharedGuard(process: ProcessId, seat: Seat, fence: Fence) returns (ok: bool, seen: Observation)
      modifies `guards
      ensures Now() == Enter(old(Now()), process, seat, fence, seen)
      ensures ok ==> Generation(Now(), seat) == Some(fence)
    {
      ok, seen := false, Ambiguous;
      if process in guards || !NoClaim(Now(), seat.project) { return; }
      ok, seen := LoadFenced(seat, fence);
      if ok { guards := guards[process := Guard(seat, fence)]; }
    }

    // -------------------------------------------------------------- native binding

    method StartBinding(seat: Seat, harness: Harness, id: string, owner: Owner)
      modifies `binder
      ensures Now() == StartBind(old(Now()), seat, harness, id, owner)
    {
      if binder.None? { binder := Some(Binder(seat, harness, id, owner, Inspecting(leases.Keys, {}, map[]))); }
    }

    method InspectForBinding(seat: Seat) returns (seen: Observation)
      modifies `binder
      ensures Now() == InspectSeat(old(Now()), seat, seen)
    {
      seen := Ambiguous;
      if binder.None? || !binder.value.phase.Inspecting? || !NoClaim(Now(), seat.project) { return; }
      var b := binder.value;
      var found := b.phase.found;
      if seat in leases && leases[seat].harness == b.harness {
        seen := Observe(leases[seat].owner);
        if !seen.Stale? { found := found[seat := Sighting(leases[seat].fence, seen)]; }
      }
      binder := Some(b.(phase := Inspecting(b.phase.listed, b.phase.inspected + {seat}, found)));
    }

    /** A seat that already carries the native root ends the attempt, unless it is the seat itself. */
    method CheckForBinding(seat: Seat)
      modifies `binder
      ensures Now() == CheckSeat(old(Now()), seat)
    {
      if binder.None? || !binder.value.phase.Checking? || seat !in binder.value.phase.found { return; }
      var b := binder.value;
      var sighting := b.phase.found[seat];
      if Carries(Now(), seat, sighting.fence, b.id) && (sighting.seen.Ambiguous? || seat != b.seat) {
        binder := None;
      } else {
        binder := Some(b.(phase := Checking(b.phase.found, b.phase.checked + {seat})));
      }
    }

    method ClaimForBinding(session: string) returns (seen: Observation)
      modifies `claims, `binder
      ensures Now() == ClaimForBind(old(Now()), session, seen)
    {
      seen := Ambiguous;
      if binder.None? || !binder.value.phase.Checking? ||
         !(binder.value.phase.found.Keys <= binder.value.phase.checked) { return; }
      var b := binder.value;
      var existing := LeaseOf(Now(), b.seat);
      if existing.Some? { seen := Observe(existing.value.owner); }
      if existing.Some? && !seen.Stale? {
        binder := None;
      } else if NoClaim(Now(), b.seat.project) && NoGuard(Now(), b.seat.project) && b.owner !in dead {
        claims := claims[b.seat.project := Claim(b.seat.agent, b.harness, b.owner, session, None, {})];
        binder := Some(b.(phase := Claiming));
      }
    }

    /** The last write of a binding, under the fence its own claim received. */
    method RecordNativeRoot() returns (ok: bool, seen: Observation)
      modifies `binder, `capabilities, `recorded
      ensures Now() == RecordBinding(old(Now()), seen)
      ensures ok <==>
        && old(binder).Some? && old(binder).value.phase.Recording? &&
           NoClaim(old(Now()), old(binder).value.seat.project)
        && Fenced(old(Now()), old(binder).value.seat, old(binder).value.phase.fence, seen)
    {
      ok, seen := false, Ambiguous;
      if binder.None? || !binder.value.phase.Recording? || !NoClaim(Now(), binder.value.seat.project) { return; }
      var b := binder.value;
      binder := None;
      ok, seen := LoadFenced(b.seat, b.phase.fence);
      if ok { PutCapability(b.seat, Unchanged, Unchanged, Unchanged, Set(Some(Native(b.harness, b.id, b.owner)))); }
    }

    // -------------------------------------------------------------- any schedule

    /** One step, with whatever the look at the owner showed filled in. */
    method Perform(a: Action) returns (ghost done: Action)
      modifies this
      ensures Now() == Step(old(Now()), done)
    {
      done := a;
      if a.BeginBind? || a.Inspect? || a.StartChecks? || a.Check? || a.BindClaim? || a.RecordNative? || a.AbandonBind? {
        done := PerformBinding(a);
      } else {
        done := PerformSeat(a);
      }
    }

    method PerformSeat(a: Action) returns (ghost done: Action)
      requires !OfBinder(a)
      modifies this
      ensures Now() == Step(old(Now()), done)
      ensures !OfBinder(done) && forall project :: OfClaimOn(done, project) <==> OfClaimOn(a, project)
    {
      hide Begin, Scan, Write, Refuse, ReleaseSeat, TouchSeat, RecordSeat, Enter;
      done := a;
      match a
      case OwnerDies(owner) => dead := dead + {owner};
      case BeginClaim(seat, harness, owner, session, takeover) =>
        BeginClaim(seat, Claim(seat.agent, harness, owner, session, takeover, {}));
      case ScanRecord(project, agent, _) =>
        var seen := ScanRecord(project, agent);
        done := Action.ScanRecord(project, agent, seen);
      case WriteLease(project, _) =>
        var seen := WriteClaim(project);
        done := WriteLease(project, seen);
      case AbandonClaim(project) => RefuseClaim(project);
      case Release(seat, fence, _) =>
        var released, seen := ReleaseLease(seat, fence);
        done := Release(seat, fence, seen);
      case Touch(seat, fence, _) =>
        var ok, seen := UpdateActivity(seat, fence);
        done := Touch(seat, fence, seen);
      case Record(process, seat, harness, fence, _, thread, binding, surface) =>
        var ok, seen := RecordCapability(process, seat, harness, fence, thread, binding, surface);
        done := Record(process, seat, harness, fence, seen, thread, binding, surface);
      case ClearCapability(seat) =>
        if NoClaim(Now(), seat.project) && NoGuard(Now(), seat.project) { capabilities := capabilities - {seat}; }
      case EnterGuard(process, seat, fence, _) =>
        var ok, seen := EnterSharedGuard(process, seat, fence);
        done := EnterGuard(process, seat, fence, seen);
      case LeaveGuard(process) => guards := guards - {process};
    }

    method PerformBinding(a: Action) returns (ghost done: Action)
      requires OfBinder(a)
      modifies this
      ensures Now() == Step(old(Now()), done)
    {
      hide StartBind, InspectSeat, CheckSeat, ClaimForBind, RecordBinding;
      done := a;
      match a
      case BeginBind(seat, harness, id, owner) => StartBinding(seat, harness, id, owner);
      case Inspect(seat, _) =>
        var seen := InspectForBinding(seat);
        done := Inspect(seat, seen);
      case StartChecks =>
        if binder.Some? && binder.value.phase.Inspecting? && binder.value.phase.listed <= binder.value.phase.inspected {
          binder := Some(binder.value.(phase := Checking(binder.value.phase.found, {})));
        }
      case Check(seat) => CheckForBinding(seat);
      case BindClaim(session, _) =>
        var seen := ClaimForBinding(session);
        done := BindClaim(session, seen);
      case RecordNative(process, _) =>
        var ok, seen := RecordNativeRoot();
        done := RecordNative(process, seen);
      case AbandonBind => if !(binder.Some? && binder.value.phase.Claiming?) { binder := None; }
    }

    /** Any schedule of any processes: no two live leases of one harness in a project, and no native
        root bound to two live seats of the host. */
    method Execute(schedule: seq<Action>)
      requires Inv(Now())
      modifies this
      ensures Inv(Now()) && Exclusive(Now()) && UniqueRoots(Now())
    {
      for k := 0 to |schedule|
        invariant Inv(Now())
      {
        ghost var before := Now();
        ghost var done := Perform(schedule[k]);
        StepKeeps(before, done);
      }
    }

    // -------------------------------------------------------------- whole bindings under interference

    /** Other processes, while this one holds the host binding lock and perhaps one project's claim lock. */
    method Interfere(project: Option<Project>)
      requires Inv(Now())
      requires binder.Some? && binder.value.phase.Claiming? ==> project == Some(binder.value.seat.project)
      requires project.Some? ==> project.value in claims
      modifies this
      ensures Inv(Now()) && binder == old(binder) && nextRevision >= old(nextRevision)
      ensures project.Some? ==> project.value in claims && claims[project.value] == old(claims)[project.value]
    {
      hide Inv;
      var steps: int := *;
      for k := 0 to if steps < 0 then 0 else steps
        invariant Inv(Now()) && binder == old(binder) && nextRevision >= old(nextRevision)
        invariant project.Some? ==> project.value in claims && claims[project.value] == old(claims)[project.value]
      {
        var a: Action := *;
        if !OfBinder(a) && !OfClaimOn(a, project) {
          ghost var before := Now();
          ghost var done := PerformSeat(a);
          OthersStay(before, done, project);
          StepKeeps(before, done);
        }
      }
    }

    /** Sight every seat that was listed when the attempt began. */
    method SurveySeats(t: Attempt) returns (ok: bool)
      requires Inv(Now()) && Making(binder, t) && binder.value.phase.Inspecting?
      modifies this
      ensures Inv(Now()) && Making(binder, t) && nextRevision >= old(nextRevision)
      ensures !binder.value.phase.Claiming?
      ensures ok ==> binder.value.phase.Checking?
    {
      hide Inv;
      var todo := binder.value.phase.listed;
      while todo != {}
        invariant Inv(Now()) && Making(binder, t) && binder.value.phase.Inspecting? && nextRevision >= old(nextRevision)
        decreases |todo|
      {
        var s :| s in todo;
        todo := todo - {s};
        Interfere(None);
        ghost var before := Now();
        var seen := InspectForBinding(s);
        InspectKeeps(before, s, seen);
      }
      ok := binder.value.phase.listed <= binder.value.phase.inspected;
      if ok {
        ghost var before := Now();
        binder := Some(binder.value.(phase := Checking(binder.value.phase.found, {})));
        assert Now() == FinishInspection(before);
        FinishKeeps(before);
      }
    }

    /** Read the capability of every seat sighted, and claim the seat when none of them carries the root. */
    method CheckSightings(t: Attempt) returns (ok: bool)
      requires Inv(Now()) && Making(binder, t) && binder.value.phase.Checking?
      modifies this
      ensures Inv(Now()) && nextRevision >= old(nextRevision)
      ensures ok ==> Making(binder, t) && binder.value.phase.Checking?
      ensures !ok ==> binder.None?
    {
      hide Inv;
      var todo := binder.value.phase.found.Keys;
      ok := true;
      while todo != {} && ok
        invariant Inv(Now()) && nextRevision >= old(nextRevision)
        invariant if ok then Making(binder, t) && binder.value.phase.Checking? else binder.None?
        decreases |todo|, ok
      {
        var s :| s in todo;
        todo := todo - {s};
        Interfere(None);
        ghost var before := Now();
        CheckForBinding(s);
        CheckKeeps(before, s);
        ok := binder.Some?;
      }
    }

    /** Claim the seat for the attempt: no takeover, so no live owner is displaced. */
    method ClaimWhole(t: Attempt, session: string) returns (ok: bool)
      requires Inv(Now()) && Making(binder, t) && binder.value.phase.Checking?
      modifies this
      ensures Inv(Now()) && nextRevision >= old(nextRevision)
      ensures ok ==>
        && Making(binder, t) && binder.value.phase.Recording?
        && binder.value.phase.fence.session == session && old(nextRevision) <= binder.value.phase.fence.revision
      ensures !ok && binder.Some? ==> !binder.value.phase.Claiming?
    {
      hide Inv;
      Interfere(None);
      ghost var before := Now();
      var seen := ClaimForBinding(session);
      ClaimForBindKeeps(before, session, seen);
      ok := binder.Some? && binder.value.phase.Claiming?;
      if ok { ok := ScanProject(t, session); }
      if ok { ok := WriteOwnClaim(t, session); }
    }

    predicate OwnClaim(t: Attempt, session: string)
      reads `binder, `claims
    {
      && Making(binder, t) && binder.value.phase.Claiming?
      && t.seat.project in claims && claims[t.seat.project].session == session &&
         claims[t.seat.project].agent == t.seat.agent
    }

    /** The claim's scan of the project, record by record. */
    method ScanProject(t: Attempt, session: string) returns (ok: bool)
      requires Inv(Now()) && OwnClaim(t, session)
      modifies this
      ensures Inv(Now()) && nextRevision >= old(nextRevision)
      ensures if ok then OwnClaim(t, session) else binder.None?
    {
      hide Inv;
      var project := t.seat.project;
      var todo := set s | s in leases && s.project == project;
      ok := true;
      while todo != {} && ok
        invariant Inv(Now()) && nextRevision >= old(nextRevision)
        invariant if ok then OwnClaim(t, session) else binder.None?
        decreases |todo|, ok
      {
        var s :| s in todo;
        todo := todo - {s};
        Interfere(Some(project));
        ghost var before := Now();
        var seen := ScanRecord(project, s.agent);
        ScanKeeps(before, project, s.agent, seen);
        ok := binder.Some?;
      }
    }

    method WriteOwnClaim(t: Attempt, session: string) returns (ok: bool)
      requires Inv(Now()) && OwnClaim(t, session)
      modifies this
      ensures Inv(Now()) && nextRevision >= old(nextRevision)
      ensures ok ==>
        && Making(binder, t) && binder.value.phase.Recording?
        && binder.value.phase.fence.session == session && old(nextRevision) <= binder.value.phase.fence.revision
      ensures !ok ==> binder.None?
    {
      hide Inv;
      Interfere(Some(t.seat.project));
      ghost var before := Now();
      var seen := WriteClaim(t.seat.project);
      WriteKeeps(before, t.seat.project, seen);
      ok := binder.Some? && binder.value.phase.Recording?;
      if !ok && binder.Some? {
        ghost var held := Now();
        RefuseClaim(t.seat.project);
        RefuseKeeps(held, t.seat.project);
      }
    }

    /** This seat's current generation belongs to the given owner and carries the root already. */
    predicate Carrying(t: Attempt)
      reads this
    {
      && t.seat in leases && leases[t.seat].harness == t.harness && leases[t.seat].owner == t.owner
      && Carries(Now(), t.seat, leases[t.seat].fence, t.id)
      && var c := capabilities[t.seat];
         c.harness == t.harness && c.native == Some(Native(t.harness, t.id, t.owner)) &&
         (c.thread.Some? ==> c.thread.value == t.id)
    }

    /** Read the capability record, then the lease it names. */
    method SeesBinding(t: Attempt) returns (bound: bool, seen: Observation)
      ensures bound <==> Carrying(t) && seen.Active?
      ensures t.seat in leases ==> Truthful(Now(), leases[t.seat].owner, seen)
    {
      seen := Ambiguous;
      if t.seat in leases { seen := Observe(leases[t.seat].owner); }
      bound := Carrying(t) && seen.Active?;
    }

    /** The root is bound to this seat and to no other of the whole host, under this generation of the
        given owner, who is alive. */
    ghost predicate BoundHere(t: Attempt, fence: Fence)
      reads this
    {
      && Generation(Now(), t.seat) == Some(fence) && leases[t.seat].owner == t.owner && t.owner !in dead
      && forall s :: BoundTo(Now(), s, t.harness, t.id) <==> s == t.seat
    }

    /** An active seat is never claimed: it is looked at twice, the second time under its own fence, and
        either carries this very root for this very owner or the attempt fails. */
    method Rebind(t: Attempt) returns (bound: bool, fence: Fence)
      requires Inv(Now()) && Making(binder, t) && !binder.value.phase.Claiming?
      modifies this
      ensures Inv(Now()) && binder == old(binder)
      ensures bound ==> BoundHere(t, fence) && old(Carrying(t)) && old(leases)[t.seat].fence == fence
    {
      hide Minted, GuardsHold, ScansHold, Exclusive, CapabilitiesMatch, BinderHolds, EvidenceKept;
      fence := if t.seat in leases then leases[t.seat].fence else Fence("", 0);
      var seen;
      bound, seen := SeesBinding(t);
      if bound {
        Interfere(None);
        bound, seen := SeesBinding(t);
        bound := bound && leases[t.seat].fence == fence;
        if bound { assert BoundTo(Now(), t.seat, t.harness, t.id); }
      }
    }

    /** Bind a native root, while every other process does what it likes. If it succeeds, the root is
        bound to this seat and to no other of the whole host, for the given owner, who is alive: under a
        generation that this very call minted, or, where the seat was active, under the generation that
        carried it already. If not, nothing is left of the attempt. */
    method BindNative(t: Attempt, session: string) returns (r: Binding)
      requires Inv(Now()) && binder.None?
      modifies this
      ensures Inv(Now()) && binder.None?
      ensures !r.Unbound? ==> BoundHere(t, r.fence)
      ensures r.Claimed? ==> r.fence.session == session && r.fence.revision >= old(nextRevision)
    {
      hide Inv, BoundTo;
      r := Unbound;
      ghost var before := Now();
      StartBinding(t.seat, t.harness, t.id, t.owner);
      StartKeeps(before, t.seat, t.harness, t.id, t.owner);
      var ok := SurveySeats(t);
      if ok { ok := CheckSightings(t); }
      if ok { r := BindSeat(t, session); }
      if binder.Some? { Abandon(t); }
    }

    /** The part of a binding that looks at its own seat. */
    method BindSeat(t: Attempt, session: string) returns (r: Binding)
      requires Inv(Now()) && Making(binder, t) && binder.value.phase.Checking?
      modifies this
      ensures Inv(Now()) && (binder.Some? ==> !binder.value.phase.Claiming?)
      ensures !r.Unbound? ==> BoundHere(t, r.fence)
      ensures r.Claimed? ==> r.fence.session == session && r.fence.revision >= old(nextRevision)
    {
      hide Inv, BoundTo;
      Interfere(None);
      var seen, bound, fence := Stale, false, Fence(session, 0);
      if t.seat in leases { seen := Observe(leases[t.seat].owner); }
      match seen
      case Active =>
        bound, fence := Rebind(t);
        r := if bound then Already(fence) else Unbound;
      case Ambiguous =>
        r := Unbound;
      case Stale =>
        bound := ClaimWhole(t, session);
        if bound { bound, fence := Conclude(t); }
        r := if bound then Claimed(fence) else Unbound;
    }

    /** The last write of the attempt, under the fence its claim received. */
    method Conclude(t: Attempt) returns (bound: bool, fence: Fence)
      requires Inv(Now()) && Making(binder, t) && binder.value.phase.Recording?
      modifies this
      ensures Inv(Now()) && fence == old(binder).value.phase.fence
      ensures binder.Some? ==> !binder.value.phase.Claiming?
      ensures bound ==>
        binder.None? && BoundHere(t, fence)
    {
      fence := binder.value.phase.fence;
      Interfere(None);
      ghost var before, b := Now(), binder.value;
      var seen;
      bound, seen := RecordNativeRoot();
      BindingKeeps(before, seen);
      if bound {
        assert BinderKnows(before, b);
        assert BoundTo(Now(), t.seat, t.harness, t.id);
      }
    }

    /** Give up the host binding lock. No binding depends on it. */
    method Abandon(t: Attempt)
      requires Inv(Now()) && binder.Some? && !binder.value.phase.Claiming?
      modifies `binder
      ensures Inv(Now()) && binder.None?
      ensures forall fence :: old(BoundHere(t, fence)) ==> BoundHere(t, fence)
    {
      hide Inv;
      AbandonKeeps(Now());
      SameBindings(Now(), Now().(binder := None));
      binder := None;
    }
  }
}
