/** The Codex launch intent of one project: armed by the launcher, taken by the first acceptable root
    thread, held for it against every other thread. Every operation runs under the project claim lock. */
module LaunchIntent {
  import opened Wrappers

  type Agent = string
  type Thread = string

  /** Milliseconds. */
  type Time = int

  datatype Fence = Fence(session: string, revision: nat)

  datatype Intent = Intent(agent: Agent, fence: Fence, armedAt: Time, active: Option<Thread>)

  datatype LeaseView = LeaseView(harness: string, fence: Fence, live: bool)

  datatype Source = Startup | Resume | Clear

  /** What a thread id tells about its creation. */
  datatype ThreadKind = NotUuid | NotV7 | V7(created: Time) | V7InvalidTime

  datatype Reason =
    | IntentMissing | FenceRejected | WrongHarness | UnclaimedSource | ArmedInFuture | TimeInvalid
    | TimeUnavailable | StartupNotV7 | OutsideWindow | ActiveMismatch

  datatype Outcome = Token(agent: Agent, fence: Fence) | Rejected(reason: Reason)

  const CLOCK_SKEW: Time := 5000

  /** Whether an unclaimed intent may go to this thread. */
  function Admission(armedAt: Time, source: Source, kind: ThreadKind, now: Time, window: Time): Option<Reason> {
    var age := now - armedAt;
    if source.Clear? then Some(UnclaimedSource)
    else if age < -CLOCK_SKEW then Some(ArmedInFuture)
    else match kind
         case V7InvalidTime => Some(TimeInvalid)
         case NotUuid => if age > window then Some(TimeUnavailable) else None
         case NotV7 => if source.Startup? then Some(StartupNotV7) else None
         case V7(created) =>
           var delta := created - armedAt;
           if source.Startup? && (delta < -CLOCK_SKEW || delta > window) then Some(OutsideWindow)
           else if source.Resume? && delta > window then Some(OutsideWindow)
           else None
  }

  /** What can happen to an intent between two armings. */
  datatype Event =
    | Start(thread: Thread, source: Source, kind: ThreadKind, now: Time, window: Time)
    | ReleaseThread(thread: Thread)
    | DropStale
    | LeaseChanges(seat: Agent, lease: Option<LeaseView>)

  /** The ways a holder loses the intent: it is released, a clear event of another thread is granted, or
      the intent is dropped as stale. */
  predicate Ends(e: Event, holder: Thread, r: Option<Outcome>) {
    match e
    case Start(thread, source, _, _, _) => thread != holder && source.Clear? && r.Some? && r.value.Token?
    case ReleaseThread(thread) => thread == holder
    case DropStale => true
    case LeaseChanges(_, _) => false
  }

  class IntentFile {
    var intent: Option<Intent>
    var leases: map<Agent, LeaseView>

    predicate Fenced(agent: Agent, fence: Fence)
      reads this
    {
      agent in leases && leases[agent].fence == fence && leases[agent].live
    }

    method ArmIntent(agent: Agent, fence: Fence, at: Time) returns (ok: bool)
      modifies `intent
      ensures ok <==> Fenced(agent, fence) && leases[agent].harness == "codex"
      ensures intent == if ok then Some(Intent(agent, fence, at, None)) else old(intent)
    {
      if !Fenced(agent, fence) || leases[agent].harness != "codex" { return false; }
      intent := Some(Intent(agent, fence, at, None));
      ok := true;
    }

    /** One SessionStart event. A token is granted only for the armed generation while it is current;
        an established thread keeps the intent against every startup and resume of another thread. */
    method ResolveStart(thread: Thread, source: Source, kind: ThreadKind, now: Time, window: Time) returns (r: Outcome)
      modifies `intent
      ensures r.Token? ==>
        && old(intent).Some? && r == Token(old(intent).value.agent, old(intent).value.fence)
        && Fenced(r.agent, r.fence) && leases[r.agent].harness == "codex"
        && intent == Some(old(intent).value.(active := Some(thread)))
      ensures r.Rejected? ==> intent == old(intent)
      ensures r.Token? <==>
        && old(intent).Some?
        && Fenced(old(intent).value.agent, old(intent).value.fence)
        && leases[old(intent).value.agent].harness == "codex"
        && match old(intent).value.active
           case None => Admission(old(intent).value.armedAt, source, kind, now, window).None?
           case Some(holder) => source.Clear? || holder == thread
      ensures old(intent).Some? && old(intent).value.active.Some? && old(intent).value.active.value != thread ==>
        !source.Clear? ==> r.Rejected?
    {
      if intent.None? { return Rejected(IntentMissing); }
      var i := intent.value;
      if !Fenced(i.agent, i.fence) { return Rejected(FenceRejected); }
      if leases[i.agent].harness != "codex" { return Rejected(WrongHarness); }
      if i.active.None? {
        var refusal := Admission(i.armedAt, source, kind, now, window);
        if refusal.Some? { return Rejected(refusal.value); }
      } else if !source.Clear? && i.active.value != thread {
        return Rejected(ActiveMismatch);
      }
      intent := Some(i.(active := Some(thread)));
      r := Token(i.agent, i.fence);
    }

    method ReleaseClaim(thread: Thread) returns (released: bool)
      modifies `intent
      ensures released <==> old(intent).Some? && old(intent).value.active == Some(thread)
      ensures intent == if released then Some(old(intent).value.(active := None)) else old(intent)
    {
      if intent.None? || intent.value.active != Some(thread) { return false; }
      intent := Some(intent.value.(active := None));
      released := true;
    }

    /** Remove the intent only when its seat is vacant or holds exactly its generation with a dead owner. */
    method ClearIfStale() returns (cleared: bool)
      modifies `intent
      ensures cleared <==>
        && old(intent).Some?
        && var i := old(intent).value;
           i.agent !in leases || (!leases[i.agent].live && leases[i.agent].fence == i.fence)
      ensures intent == if cleared then None else old(intent)
    {
      if intent.None? { return false; }
      var i := intent.value;
      if i.agent in leases && (leases[i.agent].live || leases[i.agent].fence != i.fence) { return false; }
      intent := None;
      cleared := true;
    }

    /** Between armings: once a thread holds the intent, any run of events leaves it the holder, grants
        a token to nobody else and only for the armed generation, up to the first event that ends
        its hold; a refused clear event ends nothing. */
    method HoldsAgainstOthers(holder: Thread, events: seq<Event>) returns (results: seq<Option<Outcome>>, ended: bool)
      requires intent.Some? && intent.value.active == Some(holder)
      modifies `intent, `leases
      ensures |results| <= |events|
      ensures !ended ==> |results| == |events| && intent == old(intent)
      ensures ended ==>
        results != [] && Ends(events[|results| - 1], holder, results[|results| - 1]) && intent != old(intent)
      ensures forall k :: 0 <= k < |results| && results[k].Some? && results[k].value.Token? ==>
        && results[k].value == Token(old(intent).value.agent, old(intent).value.fence)
        && events[k].Start? && (events[k].thread == holder || (ended && k == |results| - 1))
    {
      results, ended := [], false;
      while |results| < |events| && !ended
        invariant |results| <= |events|
        invariant !ended ==> intent == old(intent)
        invariant ended ==>
          results != [] && Ends(events[|results| - 1], holder, results[|results| - 1]) && intent != old(intent)
        invariant forall k :: 0 <= k < |results| && results[k].Some? && results[k].value.Token? ==>
          && results[k].value == Token(old(intent).value.agent, old(intent).value.fence)
          && events[k].Start? && (events[k].thread == holder || (ended && k == |results| - 1))
        decreases |events| - |results|
      {
        var r := Happens(events[|results|]);
        results := results + [r];
        ended := intent.None? || intent.value.active != Some(holder);
      }
    }

    method Happens(e: Event) returns (r: Option<Outcome>)
      modifies `intent, `leases
      ensures r.Some? <==> e.Start?
      ensures r.Some? && r.value.Token? ==>
        && old(intent).Some? && r.value == Token(old(intent).value.agent, old(intent).value.fence)
        && intent == Some(old(intent).value.(active := Some(e.thread)))
        && (old(intent).value.active.Some? && old(intent).value.active.value != e.thread ==> e.source.Clear?)
      ensures r.Some? && r.value.Rejected? ==> intent == old(intent)
      ensures e.ReleaseThread? ==>
        intent == if old(intent).Some? && old(intent).value.active == Some(e.thread)
                  then Some(old(intent).value.(active := None)) else old(intent)
      ensures e.DropStale? ==> intent == old(intent) || intent.None?
      ensures e.LeaseChanges? ==> intent == old(intent)
    {
      r := None;
      match e
      case Start(thread, source, kind, now, window) =>
        var outcome := ResolveStart(thread, source, kind, now, window);
        r := Some(outcome);
      case ReleaseThread(thread) =>
        var released := ReleaseClaim(thread);
      case DropStale =>
        var cleared := ClearIfStale();
      case LeaseChanges(seat, lease) =>
        leases := if lease.Some? then leases[seat := lease.value] else leases - {seat};
    }
  }
}
