/** Reply alarms of one seat: added under the seat's fence, cleared by an acknowledgement or consumed
    when they fall due. The file outlives watchers and lease generations. */
module ReplyAlarms {
  import opened Wrappers
  import opened Leases

  type Time = int

  datatype Alarm = Alarm(id: string, peer: string, sentAt: Time, deadline: Time)

  datatype Fate = Cleared | Fired | Kept

  /** An acknowledgement wins over a deadline. */
  function FateOf(a: Alarm, acknowledged: set<string>, now: Time): Fate {
    if a.id in acknowledged then Cleared else if a.deadline <= now then Fired else Kept
  }

  /** The alarms of one fate, in file order. */
  function Select(items: seq<Alarm>, fate: Fate, acknowledged: set<string>, now: Time): seq<Alarm> {
    if items == [] then []
    else
      var rest := Select(items[..|items| - 1], fate, acknowledged, now);
      var last := items[|items| - 1];
      if FateOf(last, acknowledged, now) == fate then rest + [last] else rest
  }

  /** Every alarm meets exactly one fate. */
  lemma {:induction false} FatesPartition(items: seq<Alarm>, acknowledged: set<string>, now: Time)
    ensures multiset(items) ==
            multiset(Select(items, Cleared, acknowledged, now)) +
            multiset(Select(items, Fired, acknowledged, now)) +
            multiset(Select(items, Kept, acknowledged, now))
  {
    if items != [] {
      FatesPartition(items[..|items| - 1], acknowledged, now);
      assert items == items[..|items| - 1] + [items[|items| - 1]];
    }
  }

  lemma {:induction false} SelectMembers(items: seq<Alarm>, fate: Fate, acknowledged: set<string>, now: Time, a: Alarm)
    ensures a in Select(items, fate, acknowledged, now) <==> a in items && FateOf(a, acknowledged, now) == fate
  {
    if items != [] {
      SelectMembers(items[..|items| - 1], fate, acknowledged, now, a);
      assert items == items[..|items| - 1] + [items[|items| - 1]];
    }
  }

  predicate DistinctIds(items: seq<Alarm>) {
    forall i, j :: 0 <= i < j < |items| ==> items[i].id != items[j].id
  }

  lemma {:induction false} SelectDistinct(items: seq<Alarm>, fate: Fate, acknowledged: set<string>, now: Time)
    requires DistinctIds(items)
    ensures DistinctIds(Select(items, fate, acknowledged, now))
  {
    if items != [] {
      var before, last := items[..|items| - 1], items[|items| - 1];
      SelectDistinct(before, fate, acknowledged, now);
      forall a | a in Select(before, fate, acknowledged, now)
        ensures a.id != last.id
      {
        SelectMembers(before, fate, acknowledged, now, a);
      }
    }
  }

  lemma SelectedFates(items: seq<Alarm>, acknowledged: set<string>, now: Time)
    ensures forall a :: a in Select(items, Fired, acknowledged, now) ==>
      a in items && a.id !in acknowledged && a.deadline <= now
    ensures forall a :: a in Select(items, Kept, acknowledged, now) ==>
      a in items && a.id !in acknowledged && a.deadline > now
  {
    forall a { SelectMembers(items, Fired, acknowledged, now, a); }
    forall a { SelectMembers(items, Kept, acknowledged, now, a); }
  }

  /** What a watcher or a sender does to the seat, under the fence it holds, and what else happens to it. */
  datatype Event =
    | Add(fence: Fence, alarm: Alarm)
    | Reconcile(fence: Fence, acknowledged: set<string>, now: Time)
    | Replace(lease: Option<Lease>)
    | Death(owner: Owner)

  /** Unclear: the owner's process cannot be classified. */
  datatype Verdict = Accepted | Rejected | Unclear | Duplicate

  class SeatAlarms {
    var pending: seq<Alarm>
    var lease: Option<Lease>
    var dead: set<Owner>
    ghost var added: multiset<Alarm>
    ghost var cleared: multiset<Alarm>
    ghost var fired: multiset<Alarm>

    /** Conservation: nothing is lost, nothing fires twice. */
    ghost predicate Valid()
      reads this
    {
      DistinctIds(pending) && added == multiset(pending) + cleared + fired
    }

    /** The seat's current lease is of this generation. */
    predicate Current(fence: Fence)
      reads `lease
    {
      lease.Some? && lease.value.fence == fence
    }

    /** The fenced read every update starts with: the generation is compared, then its owner looked at. */
    method LoadFenced(fence: Fence) returns (v: Verdict, seen: Observation)
      ensures v.Accepted? <==> Current(fence) && seen.Active?
      ensures v.Rejected? <==> !Current(fence) || seen.Stale?
      ensures v.Unclear? <==> Current(fence) && seen.Ambiguous?
      ensures Current(fence) ==>
        (seen.Active? ==> lease.value.owner !in dead) && (seen.Stale? ==> lease.value.owner in dead)
    {
      v, seen := Rejected, Ambiguous;
      if Current(fence) {
        seen := *;
        if (seen.Active? && lease.value.owner in dead) ||
           (seen.Stale? && lease.value.owner !in dead) { seen := Ambiguous; }
        v := match seen case Active => Accepted case Stale => Rejected case Ambiguous => Unclear;
      }
    }

    /** Add one alarm: exactly when the fence is current, its owner was seen alive and the id is new. */
    method AddAlarm(fence: Fence, alarm: Alarm) returns (v: Verdict, seen: Observation)
      requires Valid()
      modifies `pending, `added
      ensures Valid()
      ensures v.Accepted? <==> Current(fence) && seen.Active? && forall a :: a in old(pending) ==> a.id != alarm.id
      ensures v.Rejected? <==> !Current(fence) || seen.Stale?
      ensures v.Unclear? <==> Current(fence) && seen.Ambiguous?
      ensures Current(fence) ==>
        (seen.Active? ==> lease.value.owner !in dead) && (seen.Stale? ==> lease.value.owner in dead)
      ensures if v.Accepted? then pending == old(pending) + [alarm] && added == old(added) + multiset{alarm}
              else pending == old(pending) && added == old(added)
    {
      v, seen := LoadFenced(fence);
      if !v.Accepted? { return; }
      for i := 0 to |pending|
        invariant forall k :: 0 <= k < i ==> pending[k].id != alarm.id
      {
        if pending[i].id == alarm.id { return Duplicate, seen; }
      }
      pending := pending + [alarm];
      added := added + multiset{alarm};
    }

    /** Sort the pending alarms by their fate. */
    method Sift(acknowledged: set<string>, now: Time) returns (gone: seq<Alarm>, due: seq<Alarm>, remaining: seq<Alarm>)
      ensures gone == Select(pending, Cleared, acknowledged, now)
      ensures due == Select(pending, Fired, acknowledged, now)
      ensures remaining == Select(pending, Kept, acknowledged, now)
    {
      gone, due, remaining := [], [], [];
      for i := 0 to |pending|
        invariant gone == Select(pending[..i], Cleared, acknowledged, now)
        invariant due == Select(pending[..i], Fired, acknowledged, now)
        invariant remaining == Select(pending[..i], Kept, acknowledged, now)
      {
        var item := pending[i];
        assert pending[..i + 1][..i] == pending[..i];
        if item.id in acknowledged {
          gone := gone + [item];
        } else if item.deadline <= now {
          due := due + [item];
        } else {
          remaining := remaining + [item];
        }
      }
      assert pending[..|pending|] == pending;
    }

    /** One atomic rewrite removes what was acknowledged and what fell due; only the latter fires. It
        happens exactly when the fence is current and its owner was seen alive. */
    method ReconcileAlarms(fence: Fence, acknowledged: set<string>, now: Time)
      returns (v: Verdict, seen: Observation, gone: seq<Alarm>, due: seq<Alarm>)
      requires Valid()
      modifies `pending, `cleared, `fired
      ensures Valid()
      ensures v.Accepted? <==> Current(fence) && seen.Active?
      ensures v.Rejected? <==> !Current(fence) || seen.Stale?
      ensures v.Unclear? <==> Current(fence) && seen.Ambiguous?
      ensures Current(fence) ==>
        (seen.Active? ==> lease.value.owner !in dead) && (seen.Stale? ==> lease.value.owner in dead)
      ensures !v.Accepted? ==> pending == old(pending) && gone == due == []
      ensures v.Accepted? ==>
        && gone == Select(old(pending), Cleared, acknowledged, now)
        && due == Select(old(pending), Fired, acknowledged, now)
        && pending == Select(old(pending), Kept, acknowledged, now)
      ensures fired == old(fired) + multiset(due) && cleared == old(cleared) + multiset(gone)
      ensures forall a :: a in due ==> a in old(pending) && a.id !in acknowledged && a.deadline <= now
      ensures v.Accepted? ==> forall a :: a in pending ==> a.id !in acknowledged && a.deadline > now
    {
      gone, due := [], [];
      v, seen := LoadFenced(fence);
      if v.Accepted? { gone, due := Consume(acknowledged, now); }
    }

    method Consume(acknowledged: set<string>, now: Time) returns (gone: seq<Alarm>, due: seq<Alarm>)
      requires Valid()
      modifies `pending, `cleared, `fired
      ensures Valid()
      ensures gone == Select(old(pending), Cleared, acknowledged, now)
      ensures due == Select(old(pending), Fired, acknowledged, now)
      ensures pending == Select(old(pending), Kept, acknowledged, now)
      ensures fired == old(fired) + multiset(due) && cleared == old(cleared) + multiset(gone)
      ensures forall a :: a in due ==> a in old(pending) && a.id !in acknowledged && a.deadline <= now
      ensures forall a :: a in pending ==> a.id !in acknowledged && a.deadline > now
    {
      hide DistinctIds;
      var remaining;
      gone, due, remaining := Sift(acknowledged, now);
      FatesPartition(pending, acknowledged, now);
      SelectDistinct(pending, Kept, acknowledged, now);
      SelectedFates(pending, acknowledged, now);
      cleared, fired := cleared + multiset(gone), fired + multiset(due);
      pending := remaining;
    }

    method Perform(event: Event)
      requires Valid()
      modifies this
      ensures Valid() && old(fired) <= fired && old(cleared) <= cleared && old(dead) <= dead
    {
      match event
      case Add(fence, alarm) =>
        var v, seen := AddAlarm(fence, alarm);
      case Reconcile(fence, acknowledged, now) =>
        var v, seen, gone, due := ReconcileAlarms(fence, acknowledged, now);
      case Replace(another) =>
        lease := another;
      case Death(owner) =>
        dead := dead + {owner};
    }

    /** Over every run of senders, watchers, deaths, restarts and takeovers, what was added is exactly what is
        pending, was cleared, or fired; an alarm added once is never both cleared and fired, nor fired
        twice. */
    method Run(script: seq<Event>)
      requires Valid()
      modifies this
      ensures Valid() && old(fired) <= fired && old(cleared) <= cleared
      ensures forall a :: a in added && added[a] == 1 ==> fired[a] + cleared[a] <= 1
    {
      for i := 0 to |script|
        invariant Valid() && old(fired) <= fired && old(cleared) <= cleared
      {
        Perform(script[i]);
      }
    }
  }
}
