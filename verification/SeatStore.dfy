/** The lease files of one project and the programs that rewrite them: the claim with its scan loop,
    and the fenced wake and activity updates that other processes run in between. */
module SeatStore {
  import opened Wrappers
  import opened Leases

  type Time = int

  /** The mutable part of a lease record. */
  datatype Wake = Wake(
    watcher: Option<int>, native: Option<string>, emptyBeats: Option<int>, messages: Option<seq<string>>,
    attempts: Option<int>,
    heartbeat: Option<Time>)

  /** What a wake update asks for. Only the watcher and the native session can be removed. */
  datatype WakeChange = WakeChange(
    watcher: Change<int>, native: Change<string>, emptyBeats: Change<int>, messages: Change<seq<string>>,
    attempts: Change<int>)

  datatype SeatRecord = SeatRecord(lease: Lease, wake: Wake)

  datatype ClaimResult =
    Claimed(fence: Fence) | FenceRejected | SeatOccupied(agent: Agent) | SeatAmbiguous(agent: Agent)

  /** NoLease: the fence is not current, or its owner is gone; Unclear: the owner cannot be classified. */
  datatype UpdateResult = Updated | NoLease | Unclear | WatcherChanged | WatcherBusy | Malformed

  const HEARTBEAT_TTL: Time := 30

  const NoWake := Wake(None, None, None, None, None, None)

  /** What a fenced update may not touch. */
  predicate SameIdentity(a: SeatRecord, b: SeatRecord) {
    a.lease.harness == b.lease.harness && a.lease.fence == b.lease.fence && a.lease.owner == b.lease.owner
  }

  ghost predicate SameIdentities(a: map<Agent, SeatRecord>, b: map<Agent, SeatRecord>) {
    a.Keys == b.Keys && forall x :: x in a ==> SameIdentity(a[x], b[x])
  }

  predicate GoodWatcher(u: WakeChange) {
    u.watcher.Set? && u.watcher.value.Some? ==> u.watcher.value.value > 0
  }

  predicate Count(change: Change<int>) {
    change.Set? ==> change.value.Some? && change.value.value >= 0
  }

  predicate WellFormed(u: WakeChange) {
    && GoodWatcher(u)
    && (u.native.Set? && u.native.value.Some? ==> u.native.value.value != "")
    && Count(u.emptyBeats) && Count(u.attempts)
    && (u.messages.Set? ==> u.messages.value.Some? && forall m :: m in u.messages.value.value ==> m != "")
  }

  function Changed(wake: Wake, u: WakeChange, now: Time): Wake {
    Wake(Apply(u.watcher, wake.watcher), Apply(u.native, wake.native), Apply(u.emptyBeats, wake.emptyBeats),
         Apply(u.messages, wake.messages), Apply(u.attempts, wake.attempts), Some(now))
  }

  function Waking(record: SeatRecord, u: WakeChange, now: Time): SeatRecord {
    record.(wake := Changed(record.wake, u, now))
  }

  /** This look at this record refuses the claim. */
  predicate StandsInTheWay(c: Claim, agent: Agent, lease: Lease, seen: Observation) {
    && (agent == c.agent || lease.harness == c.harness)
    && (|| (agent == c.agent && c.takeover.Some? && lease.fence != c.takeover.value)
        || seen.Ambiguous?
        || (seen.Active? && !(agent == c.agent && c.takeover.Some?)))
  }

  function Token(records: map<Agent, SeatRecord>, agent: Agent): Option<Lease> {
    if agent in records then Some(records[agent].lease) else None
  }

  class ProjectSeats {
    var records: map<Agent, SeatRecord>
    var nextRevision: nat
    var dead: set<Owner>

    ghost predicate Minted()
      reads this
    {
      forall a :: a in records ==> records[a].lease.fence.revision < nextRevision
    }

    /** Look at a process: never the opposite of the truth. */
    method Observe(owner: Owner) returns (seen: Observation)
      ensures seen.Active? ==> owner !in dead
      ensures seen.Stale? ==> owner in dead
    {
      seen := *;
      if (seen.Active? && owner in dead) || (seen.Stale? && owner !in dead) { seen := Ambiguous; }
    }

    /** Other processes while this one holds the claim lock but no state lock: owners die, and wake and
        activity updates rewrite records under their own fences. */
    method Interfere()
      modifies `records, `dead
      ensures SameIdentities(old(records), records) && old(dead) <= dead
    {
      var steps: int := *;
      for i := 0 to if steps < 0 then 0 else steps
        invariant SameIdentities(old(records), records) && old(dead) <= dead
      {
        var agent: Agent, wake: Wake, activity: nat := *, *, *;
        var owner: Owner := *;
        if agent in records {
          var r := records[agent];
          records := records[agent := SeatRecord(r.lease.(activity := activity), wake)];
        }
        dead := dead + {owner};
      }
    }

    /** Every record of the project that stands in the claim's way has been ruled out for good, or is
        the very generation the claim takes over. */
    ghost predicate Passed(c: Claim, agents: set<Agent>)
      reads this
    {
      forall a :: a in agents && a in records ==>
        (a == c.agent || records[a].lease.harness == c.harness) ==>
          records[a].lease.owner in dead || (a == c.agent && c.takeover == Some(records[a].lease.fence))
    }

    /** The scan under the project's claim lock. It passes exactly when no record, at the moment it was
        looked at, stood in the claim's way, and stops at the first one that did. */
    method ScanRecords(c: Claim) returns (verdict: Option<ClaimResult>, at: Agent, seen: Observation)
      modifies `records, `dead
      ensures SameIdentities(old(records), records) && old(dead) <= dead
      ensures verdict.None? ==> Passed(c, records.Keys)
      ensures verdict.Some? ==>
        && at in old(records) && StandsInTheWay(c, at, old(records)[at].lease, seen)
        && (seen.Active? ==> old(records)[at].lease.owner !in old(dead)) &&
           (seen.Stale? ==> old(records)[at].lease.owner in dead)
        && verdict.value == Refusal(c, at, old(records)[at].lease, seen)
    {
      at, seen := c.agent, Ambiguous;
      var todo := records.Keys;
      while todo != {}
        invariant todo <= records.Keys
        invariant SameIdentities(old(records), records) && old(dead) <= dead
        invariant Passed(c, records.Keys - todo)
        decreases |todo|
      {
        var a :| a in todo;
        todo := todo - {a};
        Interfere();
        verdict, seen := ScanOne(c, a);
        if verdict.Some? {
          at := a;
          return;
        }
      }
      verdict := None;
    }

    method ScanOne(c: Claim, a: Agent) returns (verdict: Option<ClaimResult>, seen: Observation)
      requires a in records
      ensures verdict.None? ==> Passed(c, {a})
      ensures verdict.None? <==> !StandsInTheWay(c, a, records[a].lease, seen)
      ensures verdict.Some? ==> verdict.value == Refusal(c, a, records[a].lease, seen)
      ensures (seen.Active? ==> records[a].lease.owner !in dead) && (seen.Stale? ==> records[a].lease.owner in dead)
    {
      var lease := records[a].lease;
      seen := Observe(lease.owner);
      if a != c.agent && lease.harness != c.harness { return None, seen; }
      if c.takeover.Some? && a == c.agent && lease.fence != c.takeover.value { return Some(FenceRejected), seen; }
      verdict := match seen
                 case Stale => None
                 case Ambiguous => Some(SeatAmbiguous(a))
                 case Active => if c.takeover.Some? && a == c.agent then None else Some(SeatOccupied(a));
    }

    /** Claim one seat. A granted claim has a generation never seen before, changed no other record,
        and displaced a live owner only under the fence it names; afterwards no other seat of the same
        harness has a live owner. A refused claim changed no identity at all. */
    method ClaimSeat(c: Claim) returns (r: ClaimResult)
      requires Minted()
      modifies this
      ensures Minted()
      ensures r.Claimed? ==>
        && c.agent in records && records[c.agent].lease == Lease(c.harness, r.fence, c.owner, 0)
        && r.fence.session == c.session && r.fence.revision >= old(nextRevision)
        && SameIdentities(old(records) - {c.agent}, records - {c.agent})
        && (forall a :: a in records && a != c.agent && records[a].lease.harness == c.harness ==>
            records[a].lease.owner in dead)
        && (c.takeover.Some? ==> Displaced(old(records), c.agent) == c.takeover)
        && (c.takeover.None? && c.agent in old(records) ==> old(records)[c.agent].lease.owner in dead)
      ensures !r.Claimed? ==> SameIdentities(old(records), records)
      ensures r.SeatOccupied? ==>
        && r.agent in old(records) && old(records)[r.agent].lease.owner !in old(dead)
        && (r.agent == c.agent || old(records)[r.agent].lease.harness == c.harness)
      ensures r.FenceRejected? ==> c.takeover.Some? && Displaced(old(records), c.agent) != c.takeover
    {
      var verdict, at, seen := ScanRecords(c);
      if verdict.Some? { return verdict.value; }
      Interfere();
      r := WriteRecord(c);
    }

    /** The re-read and the replacing write, under the seat's state lock. */
    method WriteRecord(c: Claim) returns (r: ClaimResult)
      requires Minted() && Passed(c, records.Keys)
      modifies `records, `nextRevision
      ensures Minted() && nextRevision >= old(nextRevision)
      ensures r.Claimed? ==>
        && r.fence == Fence(c.session, old(nextRevision))
        && records == old(records)[c.agent := SeatRecord(Lease(c.harness, r.fence, c.owner, 0), NoWake)]
        && (c.takeover.Some? ==> Displaced(old(records), c.agent) == c.takeover)
        && (c.takeover.None? && c.agent in old(records) ==> old(records)[c.agent].lease.owner in dead)
      ensures !r.Claimed? ==> records == old(records)
      ensures r.SeatOccupied? ==> r.agent == c.agent && c.agent in records && records[c.agent].lease.owner !in dead
      ensures r.FenceRejected? ==> c.takeover.Some? && Displaced(old(records), c.agent) != c.takeover
    {
      if c.agent in records {
        var lease := records[c.agent].lease;
        if c.takeover.Some? && lease.fence != c.takeover.value { return FenceRejected; }
        var seen := Observe(lease.owner);
        if seen.Active? && c.takeover.None? { return SeatOccupied(c.agent); }
        if seen.Ambiguous? { return SeatAmbiguous(c.agent); }
      } else if c.takeover.Some? {
        return FenceRejected;
      }
      var fence := Fence(c.session, nextRevision);
      nextRevision := nextRevision + 1;
      records := records[c.agent := SeatRecord(Lease(c.harness, fence, c.owner, 0), NoWake)];
      r := Claimed(fence);
    }

    /** A process with this pid exists. */
    predicate Running(pid: int)
      reads this
    {
      exists o :: o in live && o.pid == pid
    }

    var live: set<Owner>

    /** A watcher may take the slot from another only when that one is invalid, dead or silent. */
    predicate Replaceable(wake: Wake, now: Time)
      reads this
    {
      || wake.watcher.None? || wake.watcher.value <= 0 || !Running(wake.watcher.value)
      || wake.heartbeat.None? || now - wake.heartbeat.value > HEARTBEAT_TTL
    }

    /** The update may put its watcher into the slot. */
    predicate SlotFree(wake: Wake, u: WakeChange, now: Time)
      reads this
    {
      u.watcher.Set? && u.watcher.value.Some? && wake.watcher.Some? && wake.watcher != u.watcher.value ==>
        Replaceable(wake, now)
    }

    /** Fenced heartbeat and wake-slot update: it goes through exactly when the fence is current, its
        owner was seen alive, the slot is as expected and free for the new watcher, and the request is
        well formed. Then the wake part is as asked and nothing else has changed; else nothing has. */
    method UpdateWake(agent: Agent, fence: Fence, u: WakeChange, expected: Option<int>, now: Time)
      returns (r: UpdateResult, seen: Observation)
      modifies `records
      ensures agent in records ==>
        (seen.Active? ==> records[agent].lease.owner !in dead) && (seen.Stale? ==> records[agent].lease.owner in dead)
      ensures r.Updated? <==>
        && agent in old(records) && old(records)[agent].lease.fence == fence && seen.Active?
        && (expected.Some? ==> old(records)[agent].wake.watcher == expected)
        && WellFormed(u) && old(SlotFree(records[agent].wake, u, now))
      ensures r.NoLease? <==> agent !in old(records) || old(records)[agent].lease.fence != fence || seen.Stale?
      ensures records ==
              if r.Updated? then old(records)[agent := Waking(old(records)[agent], u, now)] else old(records)
      ensures SameIdentities(old(records), records)
    {
      seen := Ambiguous;
      if agent !in records { return NoLease, seen; }
      var record := records[agent];
      seen := Observe(record.lease.owner);
      r := if record.lease.fence != fence || seen.Stale? then NoLease
           else if seen.Ambiguous? then Unclear
           else if expected.Some? && record.wake.watcher != expected then WatcherChanged
           else if !GoodWatcher(u) then Malformed
           else if !SlotFree(record.wake, u, now) then WatcherBusy
           else if !WellFormed(u) then Malformed
           else Updated;
      if r.Updated? { records := records[agent := Waking(record, u, now)]; }
    }
  }

  /** How a claim is refused by a record that stands in its way. */
  function Refusal(c: Claim, agent: Agent, lease: Lease, seen: Observation): ClaimResult {
    if agent == c.agent && c.takeover.Some? && lease.fence != c.takeover.value then FenceRejected
    else if seen.Active? then SeatOccupied(agent)
    else SeatAmbiguous(agent)
  }

  function Displaced(records: map<Agent, SeatRecord>, agent: Agent): Option<Fence> {
    if agent in records then Some(records[agent].lease.fence) else None
  }
}
