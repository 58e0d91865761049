/** Fenced seat leases: claim, takeover, release, fenced updates, capabilities, shared guards and
    native-root binding, as steps of concurrent processes. One step is one section under the seat's
    state lock; the project claim lock and the host binding lock are held across steps. */
module Leases {
  import opened Wrappers

  type Project = string
  type Agent = string
  type Harness = string

  /** A process identity: a reused pid has another start fingerprint. */
  datatype Owner = Owner(pid: nat, start: string)

  datatype Seat = Seat(project: Project, agent: Agent)

  /** One lease generation. Revisions are minted and never repeat; session ids may. */
  datatype Fence = Fence(session: string, revision: nat)

  datatype Lease = Lease(harness: Harness, fence: Fence, owner: Owner, activity: nat)

  datatype Native = Native(harness: Harness, id: string, owner: Owner)

  datatype Capability = Capability(
    harness: Harness, fence: Fence, thread: Option<string>, binding: Option<string>, surface: Option<string>,
    native: Option<Native>)

  /** What looking at an owner's process says. */
  datatype Observation = Active | Stale | Ambiguous

  /** A claim in progress; it holds the project's claim lock exclusively. */
  datatype Claim = Claim(
    agent: Agent, harness: Harness, owner: Owner, session: string, takeover: Option<Fence>, scanned: set<Agent>)

  /** A lease some binder saw while inspecting the host's seats. */
  datatype Sighting = Sighting(fence: Fence, seen: Observation)

  datatype Phase =
    | Inspecting(listed: set<Seat>, inspected: set<Seat>, found: map<Seat, Sighting>)
    | Checking(found: map<Seat, Sighting>, checked: set<Seat>)
    | Claiming
    | Recording(fence: Fence)

  /** The one process that holds the host binding lock exclusively. */
  datatype Binder = Binder(seat: Seat, harness: Harness, id: string, owner: Owner, phase: Phase)

  /** A process inside a shared seat guard. */
  datatype Guard = Guard(seat: Seat, fence: Fence)

  /** That a surface was recorded for a seat under a generation. */
  datatype Evidence = Evidence(seat: Seat, fence: Fence, surface: Option<string>)

  type ProcessId = nat

  datatype World = World(
    leases: map<Seat, Lease>,
    capabilities: map<Seat, Capability>,
    dead: set<Owner>,
    nextRevision: nat,
    claims: map<Project, Claim>,
    guards: map<ProcessId, Guard>,
    binder: Option<Binder>,
    recorded: set<Evidence>)

  /** A field of the capability record: keep the recorded value or replace it. */
  datatype Change<T> = Unchanged | Set(value: Option<T>)

  datatype Action =
    | OwnerDies(owner: Owner)
    | BeginClaim(seat: Seat, harness: Harness, owner: Owner, session: string, takeover: Option<Fence>)
    | ScanRecord(project: Project, agent: Agent, seen: Observation)
    | WriteLease(project: Project, seen: Observation)
    | AbandonClaim(project: Project)
    | Release(seat: Seat, fence: Fence, seen: Observation)
    | Touch(seat: Seat, fence: Fence, seen: Observation)
    | Record(process: ProcessId, seat: Seat, harness: Harness, fence: Fence, seen: Observation,
             thread: Change<string>, binding: Change<string>, surface: Change<string>)
    | ClearCapability(seat: Seat)
    | EnterGuard(process: ProcessId, seat: Seat, fence: Fence, seen: Observation)
    | LeaveGuard(process: ProcessId)
    | BeginBind(seat: Seat, harness: Harness, id: string, owner: Owner)
    | Inspect(seat: Seat, seen: Observation)
    | StartChecks
    | Check(seat: Seat)
    | BindClaim(session: string, seen: Observation)
    | RecordNative(process: ProcessId, seen: Observation)
    | AbandonBind

  // ---------------------------------------------------------------- the locked sections

  /** Looking can say less than the truth, never the opposite of it. */
  predicate Truthful(w: World, owner: Owner, seen: Observation) {
    match seen
    case Active => owner !in w.dead
    case Stale => owner in w.dead
    case Ambiguous => true
  }

  /** The fenced read every update starts with. */
  predicate Fenced(w: World, seat: Seat, fence: Fence, seen: Observation) {
    seat in w.leases && w.leases[seat].fence == fence && seen.Active? && Truthful(w, w.leases[seat].owner, seen)
  }

  predicate NoClaim(w: World, project: Project) {
    project !in w.claims
  }

  predicate NoGuard(w: World, project: Project) {
    forall p :: p in w.guards ==> w.guards[p].seat.project != project
  }

  /** What one record does to a claim's scan: go on, or refuse. */
  predicate ScanPasses(c: Claim, agent: Agent, lease: Lease, seen: Observation) {
    var sameAgent := agent == c.agent;
    if !sameAgent && lease.harness != c.harness then true
    else if c.takeover.Some? && sameAgent && lease.fence != c.takeover.value then false
    else match seen
         case Stale => true
         case Ambiguous => false
         case Active => c.takeover.Some? && sameAgent
  }

  /** What the re-read under the seat's state lock allows the claim to replace. */
  predicate WritePasses(c: Claim, existing: Option<Lease>, seen: Observation) {
    match existing
    case None => c.takeover.None?
    case Some(lease) =>
      && (c.takeover.Some? ==> lease.fence == c.takeover.value)
      && (seen.Stale? || (seen.Active? && c.takeover.Some?))
  }

  function LeaseOf(w: World, seat: Seat): Option<Lease> {
    if seat in w.leases then Some(w.leases[seat]) else None
  }

  /** The capability record that survives as the base of an update: one of the same generation. */
  function Previous(w: World, seat: Seat, lease: Lease): Option<Capability> {
    if seat in w.capabilities && w.capabilities[seat].fence == lease.fence then Some(w.capabilities[seat]) else None
  }

  function Apply<T>(change: Change<T>, previous: Option<T>): Option<T> {
    match change
    case Unchanged => previous
    case Set(value) => value
  }

  function Recorded(w: World, seat: Seat, lease: Lease, thread: Change<string>, binding: Change<string>,
                    surface: Change<string>, native: Change<Native>): World
  {
    var previous := Previous(w, seat, lease);
    var base := match previous
                case None => Capability(lease.harness, lease.fence, None, None, None, None)
                case Some(c) => c;
    var c := Capability(lease.harness, lease.fence,
                        Apply(thread, base.thread), Apply(binding, base.binding),
                        Apply(surface, base.surface), Apply(native, base.native));
    w.(capabilities := w.capabilities[seat := c], recorded := w.recorded + {Evidence(seat, lease.fence, c.surface)})
  }

  // ---------------------------------------------------------------- steps

  function Refuse(w: World, project: Project): World {
    w.(claims := w.claims - {project},
       binder := if w.binder.Some? && w.binder.value.phase.Claiming? && w.binder.value.seat.project == project
                 then None else w.binder)
  }

  /** Every agent of the project that has a lease has been scanned. */
  predicate ScanComplete(w: World, project: Project, c: Claim) {
    forall s :: s in w.leases && s.project == project ==> s.agent in c.scanned
  }

  function Begin(w: World, seat: Seat, c: Claim): World {
    if NoClaim(w, seat.project) && NoGuard(w, seat.project) && c.owner !in w.dead then
      w.(claims := w.claims[seat.project := c])
    else w
  }

  function Scan(w: World, project: Project, agent: Agent, seen: Observation): World {
    var seat := Seat(project, agent);
    if project in w.claims && seat in w.leases && Truthful(w, w.leases[seat].owner, seen) then
      var c := w.claims[project];
      if ScanPasses(c, agent, w.leases[seat], seen)
         then w.(claims := w.claims[project := c.(scanned := c.scanned + {agent})])
      else Refuse(w, project)
    else w
  }

  /** The world after a claim's write goes through. */
  function Written(w: World, project: Project): World
    requires project in w.claims
  {
    var c := w.claims[project];
    var seat := Seat(project, c.agent);
    var fence := Fence(c.session, w.nextRevision);
    w.(leases := w.leases[seat := Lease(c.harness, fence, c.owner, 0)],
       nextRevision := w.nextRevision + 1,
       claims := w.claims - {project},
       binder := if w.binder.Some? && w.binder.value.phase.Claiming? && w.binder.value.seat == seat
                 then Some(w.binder.value.(phase := Recording(fence))) else w.binder)
  }

  function Write(w: World, project: Project, seen: Observation): World {
    if project in w.claims && ScanComplete(w, project, w.claims[project]) then
      var c := w.claims[project];
      var seat := Seat(project, c.agent);
      var existing := LeaseOf(w, seat);
      if existing.Some? && !Truthful(w, existing.value.owner, seen) then w
      else if !WritePasses(c, existing, seen) then Refuse(w, project)
      else
        Written(w, project)
    else w
  }

  function ReleaseSeat(w: World, seat: Seat, fence: Fence, seen: Observation): World {
    if NoClaim(w, seat.project) && NoGuard(w, seat.project) && Fenced(w, seat, fence, seen) then
      Dropped(w, seat)
    else w
  }

  function TouchSeat(w: World, seat: Seat, fence: Fence, seen: Observation): World {
    if Fenced(w, seat, fence, seen) then Touched(w, seat) else w
  }

  /** Recording takes the claim lock exclusively, unless the process is inside its own guard. */
  predicate MayRecord(w: World, process: ProcessId, project: Project) {
    || (process in w.guards && w.guards[process].seat.project == project)
    || (NoClaim(w, project) && NoGuard(w, project))
  }

  function RecordSeat(w: World, process: ProcessId, seat: Seat, harness: Harness, fence: Fence, seen: Observation,
                      thread: Change<string>, binding: Change<string>, surface: Change<string>): World
  {
    if MayRecord(w, process, seat.project) && Fenced(w, seat, fence, seen) && w.leases[seat].harness == harness then
      Recorded(w, seat, w.leases[seat], thread, binding, surface, Unchanged)
    else w
  }

  function Enter(w: World, process: ProcessId, seat: Seat, fence: Fence, seen: Observation): World {
    if process !in w.guards && NoClaim(w, seat.project) && Fenced(w, seat, fence, seen) then
      w.(guards := w.guards[process := Guard(seat, fence)])
    else w
  }

  // ---------------------------------------------------------------- native binding

  function StartBind(w: World, seat: Seat, harness: Harness, id: string, owner: Owner): World {
    if w.binder.None? then
      w.(binder := Some(Binder(seat, harness, id, owner, Inspecting(w.leases.Keys, {}, map[]))))
    else w
  }

  function InspectSeat(w: World, seat: Seat, seen: Observation): World {
    if w.binder.Some? && w.binder.value.phase.Inspecting? && NoClaim(w, seat.project) then
      var b := w.binder.value;
      var ph := b.phase.(inspected := b.phase.inspected + {seat});
      if seat !in w.leases || w.leases[seat].harness != b.harness then
        w.(binder := Some(b.(phase := ph)))
      else if !Truthful(w, w.leases[seat].owner, seen) then w
      else if seen.Stale? then w.(binder := Some(b.(phase := ph)))
      else
        var found := ph.found[seat := Sighting(w.leases[seat].fence, seen)];
        w.(binder := Some(b.(phase := Inspecting(ph.listed, ph.inspected, found))))
    else w
  }

  function FinishInspection(w: World): World {
    if w.binder.Some? && w.binder.value.phase.Inspecting? &&
       w.binder.value.phase.listed <= w.binder.value.phase.inspected then
      w.(binder := Some(w.binder.value.(phase := Checking(w.binder.value.phase.found, {}))))
    else w
  }

  /** A capability of the sighted generation that carries the native id being bound. */
  predicate Carries(w: World, seat: Seat, fence: Fence, id: string) {
    && seat in w.capabilities && w.capabilities[seat].fence == fence
    && w.capabilities[seat].native.Some? && w.capabilities[seat].native.value.id == id
  }

  function CheckSeat(w: World, seat: Seat): World {
    if w.binder.Some? && w.binder.value.phase.Checking? && seat in w.binder.value.phase.found then
      var b := w.binder.value;
      var sighting := b.phase.found[seat];
      if Carries(w, seat, sighting.fence, b.id) && (sighting.seen.Ambiguous? || seat != b.seat) then
        w.(binder := None)
      else w.(binder := Some(b.(phase := b.phase.(checked := b.phase.checked + {seat}))))
    else w
  }

  function ClaimForBind(w: World, session: string, seen: Observation): World {
    if w.binder.Some? && w.binder.value.phase.Checking? &&
       w.binder.value.phase.found.Keys <= w.binder.value.phase.checked then
      var b := w.binder.value;
      var existing := LeaseOf(w, b.seat);
      if existing.Some? && !Truthful(w, existing.value.owner, seen) then w
      else if existing.Some? && !seen.Stale? then w.(binder := None)
      else if NoClaim(w, b.seat.project) && NoGuard(w, b.seat.project) && b.owner !in w.dead then
        w.(claims := w.claims[b.seat.project := Claim(b.seat.agent, b.harness, b.owner, session, None, {})],
           binder := Some(b.(phase := Claiming)))
      else w
    else w
  }

  function RecordBinding(w: World, seen: Observation): World {
    if w.binder.Some? && w.binder.value.phase.Recording? && NoClaim(w, w.binder.value.seat.project) then
      var b := w.binder.value;
      var released := w.(binder := None);
      if Fenced(w, b.seat, b.phase.fence, seen) then
        Recorded(released, b.seat, w.leases[b.seat], Unchanged, Unchanged, Unchanged,
                 Set(Some(Native(b.harness, b.id, b.owner))))
      else released
    else w
  }

  function Step(w: World, a: Action): World {
    match a
    case OwnerDies(owner) => w.(dead := w.dead + {owner})
    case BeginClaim(seat, harness, owner, session, takeover) =>
      Begin(w, seat, Claim(seat.agent, harness, owner, session, takeover, {}))
    case ScanRecord(project, agent, seen) => Scan(w, project, agent, seen)
    case WriteLease(project, seen) => Write(w, project, seen)
    case AbandonClaim(project) => Refuse(w, project)
    case Release(seat, fence, seen) => ReleaseSeat(w, seat, fence, seen)
    case Touch(seat, fence, seen) => TouchSeat(w, seat, fence, seen)
    case Record(process, seat, harness, fence, seen, thread, binding, surface) =>
      RecordSeat(w, process, seat, harness, fence, seen, thread, binding, surface)
    case ClearCapability(seat) =>
      if NoClaim(w, seat.project) && NoGuard(w, seat.project) then w.(capabilities := w.capabilities - {seat}) else w
    case EnterGuard(process, seat, fence, seen) => Enter(w, process, seat, fence, seen)
    case LeaveGuard(process) => w.(guards := w.guards - {process})
    case BeginBind(seat, harness, id, owner) => StartBind(w, seat, harness, id, owner)
    case Inspect(seat, seen) => InspectSeat(w, seat, seen)
    case StartChecks => FinishInspection(w)
    case Check(seat) => CheckSeat(w, seat)
    case BindClaim(session, seen) => ClaimForBind(w, session, seen)
    case RecordNative(process, seen) => RecordBinding(w, seen)
    case AbandonBind => if w.binder.Some? && w.binder.value.phase.Claiming? then w else w.(binder := None)
  }

  function Run(w: World, actions: seq<Action>): World {
    if actions == [] then w else Step(Run(w, actions[..|actions| - 1]), actions[|actions| - 1])
  }

  const Empty: World := World(map[], map[], {}, 0, map[], map[], None, {})

  // ---------------------------------------------------------------- invariants

  /** Every generation in sight was minted. */
  ghost predicate Minted(w: World) {
    && (forall s :: s in w.leases ==> w.leases[s].fence.revision < w.nextRevision)
    && (forall s :: s in w.capabilities ==> w.capabilities[s].fence.revision < w.nextRevision)
  }

  /** While a guard is held, its generation is the current one and nobody holds the claim lock. */
  ghost predicate GuardsHold(w: World) {
    forall p :: p in w.guards ==>
      var g := w.guards[p];
      g.seat in w.leases && w.leases[g.seat].fence == g.fence && NoClaim(w, g.seat.project)
  }

  /** What a claim has scanned so far is out of its way for good. */
  ghost predicate ScansHold(w: World) {
    forall project, s :: project in w.claims && s in w.leases && s.project == project ==>
      var c := w.claims[project];
      s.agent in c.scanned && s.agent != c.agent && w.leases[s].harness == c.harness ==> w.leases[s].owner in w.dead
  }

  /** At most one seat per project and harness has a live owner. */
  ghost predicate Exclusive(w: World) {
    forall s, t :: s in w.leases && t in w.leases && s != t && s.project == t.project ==>
      w.leases[s].harness == w.leases[t].harness ==>
      w.leases[s].owner in w.dead || w.leases[t].owner in w.dead
  }

  /** A capability of the current generation describes the lease it belongs to. */
  ghost predicate CapabilitiesMatch(w: World) {
    forall s :: s in w.capabilities && s in w.leases && w.capabilities[s].fence == w.leases[s].fence ==>
      var c, lease := w.capabilities[s], w.leases[s];
      c.harness == lease.harness &&
      (c.native.Some? ==> c.native.value.harness == lease.harness && c.native.value.owner == lease.owner)
  }

  /** A seat whose live lease carries this native root. */
  ghost predicate BoundTo(w: World, s: Seat, harness: Harness, id: string) {
    && s in w.leases && w.leases[s].owner !in w.dead && w.leases[s].harness == harness
    && Carries(w, s, w.leases[s].fence, id)
  }

  /** Host-wide, a native root is bound to at most one seat. */
  ghost predicate UniqueRoots(w: World) {
    forall s, t, harness, id :: BoundTo(w, s, harness, id) && BoundTo(w, t, harness, id) ==> s == t
  }

  ghost predicate BinderKnows(w: World, b: Binder) {
    match b.phase
    case Inspecting(listed, inspected, found) =>
      forall s :: s != b.seat && BoundTo(w, s, b.harness, b.id) ==>
        s in listed && (s in inspected ==> s in found && found[s].fence == w.leases[s].fence)
    case Checking(found, checked) =>
      forall s :: s != b.seat && BoundTo(w, s, b.harness, b.id) ==>
        s in found && found[s].fence == w.leases[s].fence && s !in checked
    case Claiming =>
      && (forall s :: s != b.seat ==> !BoundTo(w, s, b.harness, b.id))
      && b.seat.project in w.claims
      && w.claims[b.seat.project].agent == b.seat.agent && w.claims[b.seat.project].harness == b.harness
      && w.claims[b.seat.project].owner == b.owner
    case Recording(fence) =>
      && (forall s :: s != b.seat ==> !BoundTo(w, s, b.harness, b.id))
      && fence.revision < w.nextRevision
      && (b.seat in w.leases && w.leases[b.seat].fence == fence ==>
            w.leases[b.seat].harness == b.harness && w.leases[b.seat].owner == b.owner)
  }

  ghost predicate BinderHolds(w: World) {
    w.binder.Some? ==> BinderKnows(w, w.binder.value)
  }

  ghost predicate EvidenceKept(w: World) {
    forall s :: s in w.capabilities ==> Evidence(s, w.capabilities[s].fence, w.capabilities[s].surface) in w.recorded
  }

  ghost predicate Inv(w: World) {
    && Minted(w) && GuardsHold(w) && ScansHold(w) && Exclusive(w)
    && CapabilitiesMatch(w) && UniqueRoots(w) && BinderHolds(w) && EvidenceKept(w)
  }

  // ---------------------------------------------------------------- every step keeps them

  lemma DeathKeeps(w: World, owner: Owner)
    requires Inv(w)
    ensures Inv(w.(dead := w.dead + {owner}))
  {
    var v := w.(dead := w.dead + {owner});
    assert forall s, h, id :: BoundTo(v, s, h, id) ==> BoundTo(w, s, h, id);
  }

  lemma BeginKeeps(w: World, seat: Seat, c: Claim)
    requires Inv(w) && c.scanned == {}
    ensures Inv(Begin(w, seat, c))
  {
    var v := Begin(w, seat, c);
    assert forall s, h, id :: BoundTo(v, s, h, id) ==> BoundTo(w, s, h, id);
  }

  lemma RefuseKeeps(w: World, project: Project)
    requires Inv(w)
    ensures Inv(Refuse(w, project))
  {
    var v := Refuse(w, project);
    assert forall s, h, id :: BoundTo(v, s, h, id) ==> BoundTo(w, s, h, id);
  }

  /** The world after a record was scanned and passed. */
  function Passed(w: World, project: Project, agent: Agent): World
    requires project in w.claims
  {
    w.(claims := w.claims[project := w.claims[project].(scanned := w.claims[project].scanned + {agent})])
  }

  lemma PassedIsOutOfTheWay(w: World, project: Project, agent: Agent, seen: Observation)
    requires ScansHold(w) && project in w.claims && Seat(project, agent) in w.leases
    requires Truthful(w, w.leases[Seat(project, agent)].owner, seen)
    requires ScanPasses(w.claims[project], agent, w.leases[Seat(project, agent)], seen)
    ensures ScansHold(Passed(w, project, agent))
  {
  }

  lemma PassedKeeps(w: World, project: Project, agent: Agent)
    requires Inv(w) && project in w.claims && ScansHold(Passed(w, project, agent))
    ensures Inv(Passed(w, project, agent))
  {
    var v := Passed(w, project, agent);
    assert forall s, h, id :: BoundTo(v, s, h, id) ==> BoundTo(w, s, h, id);
  }

  lemma ScanKeeps(w: World, project: Project, agent: Agent, seen: Observation)
    requires Inv(w)
    ensures Inv(Scan(w, project, agent, seen))
  {
    RefuseKeeps(w, project);
    var seat := Seat(project, agent);
    if project in w.claims && seat in w.leases && Truthful(w, w.leases[seat].owner, seen)
       && ScanPasses(w.claims[project], agent, w.leases[seat], seen) {
      PassedIsOutOfTheWay(w, project, agent, seen);
      PassedKeeps(w, project, agent);
    }
  }

  lemma WrittenExcludes(w: World, project: Project)
    requires Inv(w) && project in w.claims && ScanComplete(w, project, w.claims[project])
    ensures var v := Written(w, project); Minted(v) && GuardsHold(v) && ScansHold(v) && Exclusive(v)
  {
  }

  lemma WrittenBinds(w: World, project: Project)
    requires Inv(w) && project in w.claims
    ensures var v := Written(w, project); CapabilitiesMatch(v) && UniqueRoots(v) && EvidenceKept(v)
    ensures forall s, h, id :: BoundTo(Written(w, project), s, h, id) ==>
      BoundTo(w, s, h, id) && s != Seat(project, w.claims[project].agent)
  {
    var v := Written(w, project);
    forall s, h, id | BoundTo(v, s, h, id)
      ensures BoundTo(w, s, h, id) && s != Seat(project, w.claims[project].agent)
    {
    }
  }

  lemma WrittenKnows(w: World, project: Project)
    requires Inv(w) && project in w.claims
    ensures BinderHolds(Written(w, project))
  {
    WrittenBinds(w, project);
  }

  lemma WriteKeeps(w: World, project: Project, seen: Observation)
    requires Inv(w)
    ensures Inv(Write(w, project, seen))
  {
    RefuseKeeps(w, project);
    if project in w.claims && ScanComplete(w, project, w.claims[project]) {
      WrittenExcludes(w, project);
      WrittenBinds(w, project);
      WrittenKnows(w, project);
    }
  }

  lemma ReleaseKeeps(w: World, seat: Seat, fence: Fence, seen: Observation)
    requires Inv(w)
    ensures Inv(ReleaseSeat(w, seat, fence, seen))
  {
    if NoGuard(w, seat.project) {
      DroppedExcludes(w, seat);
      DroppedBinds(w, seat);
    }
  }

  /** The world after a release went through. */
  function Dropped(w: World, seat: Seat): World {
    w.(leases := w.leases - {seat}, capabilities := w.capabilities - {seat})
  }

  lemma DroppedExcludes(w: World, seat: Seat)
    requires Inv(w) && NoGuard(w, seat.project)
    ensures var v := Dropped(w, seat); Minted(v) && GuardsHold(v) && ScansHold(v) && Exclusive(v)
  {
    hide CapabilitiesMatch, UniqueRoots, BinderHolds, EvidenceKept;
  }

  lemma DroppedBinds(w: World, seat: Seat)
    requires Inv(w)
    ensures var v := Dropped(w, seat); CapabilitiesMatch(v) && UniqueRoots(v) && BinderHolds(v) && EvidenceKept(v)
  {
    hide Minted, GuardsHold, ScansHold, Exclusive;
    assert forall s, h, id :: BoundTo(Dropped(w, seat), s, h, id) ==> BoundTo(w, s, h, id);
  }

  /** The world after an activity update. */
  function Touched(w: World, seat: Seat): World
    requires seat in w.leases
  {
    w.(leases := w.leases[seat := w.leases[seat].(activity := w.leases[seat].activity + 1)])
  }

  lemma TouchedExcludes(w: World, seat: Seat)
    requires Inv(w) && seat in w.leases
    ensures var v := Touched(w, seat); Minted(v) && GuardsHold(v) && ScansHold(v) && Exclusive(v)
  {
  }

  lemma TouchedBinds(w: World, seat: Seat)
    requires Inv(w) && seat in w.leases
    ensures var v := Touched(w, seat); CapabilitiesMatch(v) && UniqueRoots(v) && BinderHolds(v) && EvidenceKept(v)
  {
    assert forall s, h, id :: BoundTo(Touched(w, seat), s, h, id) ==> BoundTo(w, s, h, id);
  }

  lemma TouchKeeps(w: World, seat: Seat, fence: Fence, seen: Observation)
    requires Inv(w)
    ensures Inv(TouchSeat(w, seat, fence, seen))
  {
    if Fenced(w, seat, fence, seen) {
      TouchedExcludes(w, seat);
      TouchedBinds(w, seat);
    }
  }

  lemma RecordedKeeps(w: World, seat: Seat, thread: Change<string>, binding: Change<string>, surface: Change<string>)
    requires Inv(w) && seat in w.leases
    ensures Inv(Recorded(w, seat, w.leases[seat], thread, binding, surface, Unchanged))
  {
    var v := Recorded(w, seat, w.leases[seat], thread, binding, surface, Unchanged);
    assert forall s, h, id :: BoundTo(v, s, h, id) ==> BoundTo(w, s, h, id);
  }

  lemma ClearKeeps(w: World, seat: Seat)
    requires Inv(w)
    ensures Inv(w.(capabilities := w.capabilities - {seat}))
  {
    var v := w.(capabilities := w.capabilities - {seat});
    assert forall s, h, id :: BoundTo(v, s, h, id) ==> BoundTo(w, s, h, id);
  }

  lemma EnterKeeps(w: World, process: ProcessId, seat: Seat, fence: Fence, seen: Observation)
    requires Inv(w)
    ensures Inv(Enter(w, process, seat, fence, seen))
  {
    var v := Enter(w, process, seat, fence, seen);
    assert forall s, h, id :: BoundTo(v, s, h, id) ==> BoundTo(w, s, h, id);
  }

  lemma LeaveKeeps(w: World, process: ProcessId)
    requires Inv(w)
    ensures Inv(w.(guards := w.guards - {process}))
  {
    var v := w.(guards := w.guards - {process});
    assert forall s, h, id :: BoundTo(v, s, h, id) ==> BoundTo(w, s, h, id);
  }

  /** Steps of the binder that change nothing but its own knowledge. */
  lemma BinderOnly(w: World, v: World)
    requires Inv(w) && v == w.(binder := v.binder) && BinderHolds(v)
    ensures Inv(v)
  {
    assert forall s, h, id :: BoundTo(v, s, h, id) ==> BoundTo(w, s, h, id);
  }

  lemma StartKeeps(w: World, seat: Seat, harness: Harness, id: string, owner: Owner)
    requires Inv(w)
    ensures Inv(StartBind(w, seat, harness, id, owner))
  {
    if w.binder.None? { BinderOnly(w, StartBind(w, seat, harness, id, owner)); }
  }

  lemma SameBindings(w: World, v: World)
    requires v == w.(binder := v.binder)
    ensures forall s, h, id :: BoundTo(v, s, h, id) <==> BoundTo(w, s, h, id)
  {
  }

  lemma InspectKnows(w: World, seat: Seat, seen: Observation)
    requires BinderHolds(w)
    ensures BinderHolds(InspectSeat(w, seat, seen))
  {
    SameBindings(w, InspectSeat(w, seat, seen));
  }

  lemma InspectKeeps(w: World, seat: Seat, seen: Observation)
    requires Inv(w)
    ensures Inv(InspectSeat(w, seat, seen))
  {
    InspectKnows(w, seat, seen);
    BinderOnly(w, InspectSeat(w, seat, seen));
  }

  lemma FinishKeeps(w: World)
    requires Inv(w)
    ensures Inv(FinishInspection(w))
  {
    var v := FinishInspection(w);
    if v != w {
      assert forall s, h, id :: BoundTo(v, s, h, id) <==> BoundTo(w, s, h, id);
      BinderOnly(w, v);
    }
  }

  lemma CheckKnows(w: World, seat: Seat)
    requires BinderHolds(w)
    ensures BinderHolds(CheckSeat(w, seat))
  {
    SameBindings(w, CheckSeat(w, seat));
  }

  lemma CheckKeeps(w: World, seat: Seat)
    requires Inv(w)
    ensures Inv(CheckSeat(w, seat))
  {
    CheckKnows(w, seat);
    BinderOnly(w, CheckSeat(w, seat));
  }

  lemma ClaimingKnows(w: World, b: Binder, u: World, session: string)
    requires w.binder == Some(b) && BinderKnows(w, b) && b.phase.Checking? && b.phase.found.Keys <= b.phase.checked
    requires u == w.(claims := w.claims[b.seat.project := Claim(b.seat.agent, b.harness, b.owner, session, None, {})])
    ensures BinderHolds(u.(binder := Some(b.(phase := Claiming))))
  {
    var v := u.(binder := Some(b.(phase := Claiming)));
    assert forall s, h, id :: BoundTo(v, s, h, id) <==> BoundTo(w, s, h, id);
  }

  lemma ClaimingKeeps(w: World, b: Binder, session: string)
    requires Inv(w) && w.binder == Some(b) && b.phase.Checking? && b.phase.found.Keys <= b.phase.checked
    requires NoClaim(w, b.seat.project) && NoGuard(w, b.seat.project) && b.owner !in w.dead
    ensures var c := Claim(b.seat.agent, b.harness, b.owner, session, None, {});
      Inv(w.(claims := w.claims[b.seat.project := c], binder := Some(b.(phase := Claiming))))
  {
    var c := Claim(b.seat.agent, b.harness, b.owner, session, None, {});
    var u := Begin(w, b.seat, c);
    BeginKeeps(w, b.seat, c);
    ClaimingKnows(w, b, u, session);
    BinderOnly(u, u.(binder := Some(b.(phase := Claiming))));
  }

  lemma ClaimForBindKeeps(w: World, session: string, seen: Observation)
    requires Inv(w)
    ensures Inv(ClaimForBind(w, session, seen))
  {
    BinderOnly(w, w.(binder := None));
    if w.binder.Some? {
      var b := w.binder.value;
      if b.phase.Checking? && b.phase.found.Keys <= b.phase.checked
         && NoClaim(w, b.seat.project) && NoGuard(w, b.seat.project) && b.owner !in w.dead {
        ClaimingKeeps(w, b, session);
      }
    }
  }

  lemma BindingKeeps(w: World, seen: Observation)
    requires Inv(w)
    ensures Inv(RecordBinding(w, seen))
  {
    if w.binder.Some? && w.binder.value.phase.Recording? && NoClaim(w, w.binder.value.seat.project) {
      BinderOnly(w, w.(binder := None));
      var b := w.binder.value;
      if Fenced(w, b.seat, b.phase.fence, seen) { NativeKeeps(w, b); }
    }
  }

  /** The binding's last write, under the fence its claim received. */
  function Bound(w: World, b: Binder): World
    requires b.seat in w.leases
  {
    Recorded(w.(binder := None), b.seat, w.leases[b.seat], Unchanged, Unchanged, Unchanged,
             Set(Some(Native(b.harness, b.id, b.owner))))
  }

  lemma NativeKeeps(w: World, b: Binder)
    requires Inv(w) && w.binder == Some(b) && b.phase.Recording? && b.seat in w.leases &&
             w.leases[b.seat].fence == b.phase.fence
    ensures Inv(Bound(w, b))
  {
    NativeIsUnique(w, b);
    NativeMatches(w, b);
  }

  lemma NativeMatches(w: World, b: Binder)
    requires Inv(w) && w.binder == Some(b) && b.phase.Recording? && b.seat in w.leases &&
             w.leases[b.seat].fence == b.phase.fence
    ensures var v := Bound(w, b); CapabilitiesMatch(v) && EvidenceKept(v) && Minted(v)
  {
  }

  lemma NativeIsUnique(w: World, b: Binder)
    requires UniqueRoots(w) && BinderKnows(w, b) && b.phase.Recording? && b.seat in w.leases &&
             w.leases[b.seat].fence == b.phase.fence
    ensures UniqueRoots(Bound(w, b))
  {
    var v := Bound(w, b);
    forall s, h, id | BoundTo(v, s, h, id)
      ensures (s != b.seat && BoundTo(w, s, h, id)) || (s == b.seat && h == b.harness && id == b.id)
    {
    }
  }

  lemma AbandonKeeps(w: World)
    requires Inv(w)
    ensures Inv(w.(binder := None))
  {
    BinderOnly(w, w.(binder := None));
  }

  predicate OfBinder(a: Action) {
    a.BeginBind? || a.Inspect? || a.StartChecks? || a.Check? || a.BindClaim? || a.RecordNative? || a.AbandonBind?
  }

  predicate OfClaim(a: Action) {
    a.BeginClaim? || a.ScanRecord? || a.WriteLease? || a.AbandonClaim?
  }

  lemma BinderStepKeeps(w: World, a: Action)
    requires Inv(w) && OfBinder(a)
    ensures Inv(Step(w, a))
  {
    hide Inv;
    match a
    case BeginBind(seat, harness, id, owner) => StartKeeps(w, seat, harness, id, owner);
    case Inspect(seat, seen) => InspectKeeps(w, seat, seen);
    case StartChecks => FinishKeeps(w);
    case Check(seat) => CheckKeeps(w, seat);
    case BindClaim(session, seen) => ClaimForBindKeeps(w, session, seen);
    case RecordNative(process, seen) => BindingKeeps(w, seen);
    case AbandonBind => AbandonKeeps(w);
  }

  lemma ClaimStepKeeps(w: World, a: Action)
    requires Inv(w) && OfClaim(a)
    ensures Inv(Step(w, a))
  {
    hide Inv;
    match a
    case BeginClaim(seat, harness, owner, session, takeover) =>
      BeginKeeps(w, seat, Claim(seat.agent, harness, owner, session, takeover, {}));
    case ScanRecord(project, agent, seen) => ScanKeeps(w, project, agent, seen);
    case WriteLease(project, seen) => WriteKeeps(w, project, seen);
    case AbandonClaim(project) => RefuseKeeps(w, project);
  }

  lemma StepKeeps(w: World, a: Action)
    requires Inv(w)
    ensures Inv(Step(w, a))
  {
    hide Inv;
    if OfBinder(a) { BinderStepKeeps(w, a); }
    else if OfClaim(a) { ClaimStepKeeps(w, a); }
    else { SeatStepKeeps(w, a); }
  }

  lemma SeatStepKeeps(w: World, a: Action)
    requires Inv(w) && !OfBinder(a) && !OfClaim(a)
    ensures Inv(Step(w, a))
  {
    hide Inv;
    match a
    case OwnerDies(owner) => DeathKeeps(w, owner);
    case Release(seat, fence, seen) => ReleaseKeeps(w, seat, fence, seen);
    case Touch(seat, fence, seen) => TouchKeeps(w, seat, fence, seen);
    case Record(process, seat, harness, fence, seen, thread, binding, surface) =>
      if seat in w.leases { RecordedKeeps(w, seat, thread, binding, surface); }
    case ClearCapability(seat) => ClearKeeps(w, seat);
    case EnterGuard(process, seat, fence, seen) => EnterKeeps(w, process, seat, fence, seen);
    case LeaveGuard(process) => LeaveKeeps(w, process);
  }

  /** Every reachable state: whatever the interleaving of claims, takeovers, releases, fenced updates,
      guards, bindings and deaths. */
  lemma {:induction false} RunKeeps(w: World, actions: seq<Action>)
    requires Inv(w)
    ensures Inv(Run(w, actions))
  {
    if actions != [] {
      RunKeeps(w, actions[..|actions| - 1]);
      StepKeeps(Run(w, actions[..|actions| - 1]), actions[|actions| - 1]);
    }
  }

  // ---------------------------------------------------------------- what the steps promise

  lemma EmptyInv()
    ensures Inv(Empty)
  {
  }

  /** In every reachable state at most one lease per project and harness has a live owner, and a native
      root is bound to at most one live seat of the whole host. */
  lemma ReachableStates(actions: seq<Action>)
    ensures Exclusive(Run(Empty, actions)) && UniqueRoots(Run(Empty, actions))
  {
    EmptyInv();
    RunKeeps(Empty, actions);
  }

  function Generation(w: World, s: Seat): Option<Fence> {
    if s in w.leases then Some(w.leases[s].fence) else None
  }

  /** A lease with a live owner goes away only by the release of exactly that generation, or by a
      takeover that names exactly that generation. */
  lemma LiveLeaseDisplaced(w: World, a: Action, s: Seat)
    requires Inv(w) && s in w.leases && w.leases[s].owner !in w.dead
    requires Generation(Step(w, a), s) != Generation(w, s)
    ensures
      || (a.Release? && a.seat == s && a.fence == w.leases[s].fence)
      || (a.WriteLease? && a.project == s.project && a.project in w.claims
          && w.claims[a.project].agent == s.agent && w.claims[a.project].takeover == Some(w.leases[s].fence))
  {
    if !a.Release? && !a.WriteLease? { GenerationsStay(w, a, s); }
  }

  /** Only a claim's write and a release change any generation. */
  lemma GenerationsStay(w: World, a: Action, s: Seat)
    requires !a.Release? && !a.WriteLease?
    ensures Generation(Step(w, a), s) == Generation(w, s)
  {
    if OfBinder(a) {
      BinderStays(w, a);
    } else if OfClaim(a) {
      assert Step(w, a).leases == w.leases;
    }
  }

  /** Nothing but the binder, the claim locks and the capability records change. */
  predicate SameLeases(w: World, v: World) {
    v.leases == w.leases && v.nextRevision == w.nextRevision
  }

  lemma InspectionStays(w: World, seat: Seat, seen: Observation)
    ensures SameLeases(w, InspectSeat(w, seat, seen)) && SameLeases(w, CheckSeat(w, seat)) &&
            SameLeases(w, FinishInspection(w))
  {
    hide Carries, NoClaim, Truthful;
  }

  lemma ClaimForBindStays(w: World, session: string, seen: Observation)
    ensures SameLeases(w, ClaimForBind(w, session, seen))
  {
    hide NoClaim, NoGuard, Truthful;
  }

  lemma RecordBindingStays(w: World, seen: Observation)
    ensures SameLeases(w, RecordBinding(w, seen))
  {
    hide NoClaim, Fenced;
  }

  lemma BinderStays(w: World, a: Action)
    requires OfBinder(a)
    ensures SameLeases(w, Step(w, a))
  {
    hide InspectSeat, CheckSeat, FinishInspection, ClaimForBind, RecordBinding;
    match a
    case BindClaim(session, seen) => ClaimForBindStays(w, session, seen);
    case RecordNative(process, seen) => RecordBindingStays(w, seen);
    case Inspect(seat, seen) => InspectionStays(w, seat, seen);
    case Check(seat) => InspectionStays(w, seat, Ambiguous);
    case StartChecks => InspectionStays(w, Seat("", ""), Ambiguous);
    case _ =>
  }

  /** Generations change by the claim that owns the project's claim lock or by a release; a new one
      was never seen before. */
  lemma GenerationsFresh(w: World, a: Action, s: Seat)
    requires Inv(w) && Generation(Step(w, a), s) != Generation(w, s)
    ensures NoGuard(w, s.project)
    ensures Generation(Step(w, a), s).Some? ==> Generation(Step(w, a), s).value.revision >= w.nextRevision
  {
    if !a.Release? && !a.WriteLease? {
      GenerationsStay(w, a, s);
    } else if a.WriteLease? {
      assert forall p :: p in w.guards ==> NoClaim(w, w.guards[p].seat.project);
    }
  }

  /** While any shared guard is held, no generation of its project changes. */
  lemma GuardedGenerations(w: World, a: Action, process: ProcessId, s: Seat)
    requires Inv(w) && process in w.guards && w.guards[process].seat.project == s.project
    ensures Generation(Step(w, a), s) == Generation(w, s)
  {
    if Generation(Step(w, a), s) != Generation(w, s) { GenerationsFresh(w, a, s); }
  }

  /** A generation that is gone never comes back, and no fenced write under it has any effect. */
  lemma {:induction false} GoneForGood(w: World, actions: seq<Action>, s: Seat, f: Fence)
    requires Inv(w) && f.revision < w.nextRevision && Generation(w, s) != Some(f)
    ensures var v := Run(w, actions);
            && Inv(v) && f.revision < v.nextRevision && Generation(v, s) != Some(f)
            && (forall seen :: TouchSeat(v, s, f, seen) == v && ReleaseSeat(v, s, f, seen) == v)
            && (forall p, h, seen, t, b, x :: RecordSeat(v, p, s, h, f, seen, t, b, x) == v)
            && (forall p, seen :: Enter(v, p, s, f, seen) == v)
  {
    if actions != [] {
      var before := actions[..|actions| - 1];
      GoneForGood(w, before, s, f);
      var u, a := Run(w, before), actions[|actions| - 1];
      StepKeeps(u, a);
      RevisionsGrow(u, a);
      if Generation(Step(u, a), s) != Generation(u, s) { GenerationsFresh(u, a, s); }
    }
  }

  lemma RevisionsGrow(w: World, a: Action)
    ensures Step(w, a).nextRevision >= w.nextRevision
  {
    hide Carries, NoClaim, NoGuard, Truthful, Fenced, ScanComplete, WritePasses, ScanPasses;
    if OfBinder(a) { BinderStays(w, a); }
  }

  // ---------------------------------------------------------------- capability resolution

  datatype Resolution = Resolved(fence: Fence, surface: Option<string>) | Unresolved

  /** The stored association of a project's native thread with its fenced seat. */
  datatype ThreadBinding = ThreadBinding(thread: string, seat: Seat, revision: string, fence: Fence)

  /** Three reads that share no lock: the lease, the seat's inspection, the capability record. */
  function ResolveThread(b: ThreadBinding, thread: string, first: World, seen: Observation, second: World,
                         again: Observation, third: World): Resolution
  {
    if b.thread != thread then Unresolved
    else if !Fenced(first, b.seat, b.fence, seen) || first.leases[b.seat].harness != "codex" then Unresolved
    else if b.seat !in second.leases || !again.Active? ||
            !Truthful(second, second.leases[b.seat].owner, again) then Unresolved
    else if second.leases[b.seat].fence != b.fence then Unresolved
    else if b.seat !in third.capabilities then Resolved(b.fence, None)
    else
      var c := third.capabilities[b.seat];
      if c.fence != b.fence || (c.thread.Some? && c.thread.value != thread) ||
         (c.binding.Some? && c.binding.value != b.revision)
      then Unresolved
      else Resolved(b.fence, c.surface)
  }

  /** The same for a fence that came in environment variables; the inspected generation is not compared. */
  function ResolveAmbient(seat: Seat, fence: Fence, first: World, seen: Observation, second: World, again: Observation,
                          third: World): Resolution
  {
    if !Fenced(first, seat, fence, seen) then Unresolved
    else if seat !in second.leases || !again.Active? ||
            !Truthful(second, second.leases[seat].owner, again) then Unresolved
    else if seat !in third.capabilities then Resolved(fence, None)
    else if third.capabilities[seat].fence != fence then Unresolved
    else Resolved(fence, third.capabilities[seat].surface)
  }

  lemma {:induction false} RunAppend(w: World, a: seq<Action>, b: seq<Action>)
    ensures Run(w, a + b) == Run(Run(w, a), b)
  {
    if b == [] {
      assert a + b == a;
    } else {
      assert (a + b)[..|a + b| - 1] == a + b[..|b| - 1];
      RunAppend(w, a, b[..|b| - 1]);
    }
  }

  /** A generation that is current at the ends of a run was current all along it. */
  lemma CurrentThroughout(w: World, actions: seq<Action>, s: Seat, f: Fence, i: nat)
    requires Inv(w) && Generation(w, s) == Some(f) && Generation(Run(w, actions), s) == Some(f)
    requires i <= |actions|
    ensures Generation(Run(w, actions[..i]), s) == Some(f)
  {
    var middle := Run(w, actions[..i]);
    RunKeeps(w, actions[..i]);
    RevisionsGrowAlong(w, actions[..i]);
    assert actions == actions[..i] + actions[i..];
    RunAppend(w, actions[..i], actions[i..]);
    if Generation(middle, s) != Some(f) { GoneForGood(middle, actions[i..], s, f); }
  }

  lemma {:induction false} RevisionsGrowAlong(w: World, actions: seq<Action>)
    ensures Run(w, actions).nextRevision >= w.nextRevision
  {
    if actions != [] {
      RevisionsGrowAlong(w, actions[..|actions| - 1]);
      RevisionsGrow(Run(w, actions[..|actions| - 1]), actions[|actions| - 1]);
    }
  }

  /** A surface enters the record only under the generation that is current at that moment. */
  lemma EvidenceHonest(w: World, a: Action, e: Evidence)
    requires e !in w.recorded && e in Step(w, a).recorded
    ensures Generation(w, e.seat) == Some(e.fence) && w.leases[e.seat].owner !in w.dead
  {
  }

  /** Whatever runs between the three reads: a resolved thread gets the generation its binding names,
      which was current from the first read to the second, and a surface recorded under that very
      generation. */
  lemma ThreadResolution(b: ThreadBinding, thread: string, first: World, seen: Observation,
                         between: seq<Action>, again: Observation, later: seq<Action>)
    requires Inv(first)
    ensures
      var second := Run(first, between);
      var third := Run(second, later);
      var r := ResolveThread(b, thread, first, seen, second, again, third);
      r.Resolved? ==>
        && b.thread == thread && r.fence == b.fence
        && (forall i :: 0 <= i <= |between| ==> Generation(Run(first, between[..i]), b.seat) == Some(r.fence))
        && (r.surface.Some? ==> Evidence(b.seat, r.fence, r.surface) in third.recorded)
  {
    var second := Run(first, between);
    var third := Run(second, later);
    RunKeeps(first, between);
    RunKeeps(second, later);
    if ResolveThread(b, thread, first, seen, second, again, third).Resolved? {
      forall i | 0 <= i <= |between|
        ensures Generation(Run(first, between[..i]), b.seat) == Some(b.fence)
      {
        CurrentThroughout(first, between, b.seat, b.fence, i);
      }
    }
  }

  /** An ambient fence resolves to itself, with a surface recorded under it. It was current from the
      first read to the second exactly when the second read still sees it, which nobody checks. */
  lemma AmbientResolution(seat: Seat, fence: Fence, first: World, seen: Observation,
                          between: seq<Action>, again: Observation, later: seq<Action>)
    requires Inv(first)
    ensures
      var second := Run(first, between);
      var third := Run(second, later);
      var r := ResolveAmbient(seat, fence, first, seen, second, again, third);
      r.Resolved? ==>
        && r.fence == fence && Generation(first, seat) == Some(fence)
        && (r.surface.Some? ==> Evidence(seat, r.fence, r.surface) in third.recorded)
        && (Generation(second, seat) == Some(fence) <==>
              forall i :: 0 <= i <= |between| ==> Generation(Run(first, between[..i]), seat) == Some(fence))
  {
    var second := Run(first, between);
    RunKeeps(first, between);
    RunKeeps(second, later);
    assert between[..|between|] == between;
    if Generation(first, seat) == Some(fence) && Generation(second, seat) == Some(fence) {
      forall i | 0 <= i <= |between|
        ensures Generation(Run(first, between[..i]), seat) == Some(fence)
      {
        CurrentThroughout(first, between, seat, fence, i);
      }
    }
  }

  lemma RunTwo(w: World, a: Action, b: Action)
    ensures Run(w, [a, b]) == Step(Step(w, a), b)
  {
    assert [a, b][..1] == [a] && [a][..0] == [];
    assert Run(w, [a]) == Step(Run(w, []), a);
  }

  /** The ambient fence, unlike the thread's, can be resolved after its generation was replaced: a
      takeover between the two reads leaves the second one a live lease of another generation. */
  lemma AmbientMayBeOutdated(harness: Harness, owner: Owner)
    returns (seat: Seat, fence: Fence, first: World, between: seq<Action>)
    ensures Inv(first)
    ensures var second := Run(first, between);
      && ResolveAmbient(seat, fence, first, Active, second, Active, second) == Resolved(fence, None)
      && Generation(second, seat).Some? && Generation(second, seat) != Some(fence)
  {
    seat := Seat("project", "agent");
    var begin := BeginClaim(seat, harness, owner, "a", None);
    var write := WriteLease(seat.project, Active);
    EmptyInv();
    StepKeeps(Empty, begin);
    StepKeeps(Step(Empty, begin), write);
    first := Step(Step(Empty, begin), write);
    fence := Fence("a", 0);
    assert first.leases == map[seat := Lease(harness, fence, owner, 0)];
    var take := BeginClaim(seat, harness, owner, "b", Some(fence));
    var scan := ScanRecord(seat.project, seat.agent, Active);
    between := [take, scan, write];
    var u := Step(Step(first, take), scan);
    assert u.claims[seat.project].scanned == {seat.agent};
    assert between[..2] == [take, scan];
    RunTwo(first, take, scan);
    var second := Step(u, write);
    assert Run(first, between) == second;
    assert second.leases[seat].fence == Fence("b", 1);
  }
}
