/** Project-local hook settings: adding the managed worktree hooks to a JSON document somebody else
    owns, recording what had to be created for them, and taking exactly that away again. */
module HookSettings {
  import opened Wrappers

  datatype Json = Object(fields: map<string, Json>) | List(items: seq<Json>) | Text(text: string) | Number(number: int)

  type Fields = map<string, Json>

  const HOOKS := "hooks"
  const CREATE_TIMEOUT_SECONDS := 120
  const REMOVE_TIMEOUT_SECONDS := 120

  /** A managed group and the event it belongs to. */
  datatype Managed = Managed(event: string, group: Json)

  function HookGroup(command: string, argument: string, timeout: int): Json {
    Object(map["hooks" := List([Object(map[
      "type" := Text("command"), "command" := Text(command),
      "args" := List([Text(argument)]), "timeout" := Number(timeout)])])])
  }

  function HookGroups(command: string): seq<Managed> {
    [Managed("WorktreeCreate", HookGroup(command, "hook-create", CREATE_TIMEOUT_SECONDS)),
     Managed("WorktreeRemove", HookGroup(command, "hook-remove", REMOVE_TIMEOUT_SECONDS))]
  }

  predicate DistinctEvents(plan: seq<Managed>) {
    forall i, j :: 0 <= i < j < |plan| ==> plan[i].event != plan[j].event
  }

  /** The managed hooks of any command form such a plan. */
  lemma ManagedPlan(command: string)
    ensures DistinctEvents(HookGroups(command)) && |HookGroups(command)| == 2
  {
    assert HookGroups(command)[0].event == "WorktreeCreate";
    assert HookGroups(command)[1].event[8] == 'R' && HookGroups(command)[0].event[8] == 'C';
  }

  /** What enabling records: whether it created the file, the hooks object, and each event's list. */
  datatype Owned = Owned(event: string, containerAdded: bool, group: Json)

  datatype Ownership = Ownership(created: bool, hooksAdded: bool, events: seq<Owned>)

  datatype Error = HooksNotObject | EventNotList | Unowned | Drifted | OwnershipDrifted | Missing

  function Count(items: seq<Json>, g: Json): nat {
    if items == [] then 0 else (if items[0] == g then 1 else 0) + Count(items[1..], g)
  }

  /** The list without its first occurrence of g. */
  function Without(items: seq<Json>, g: Json): seq<Json> {
    if items == [] then [] else if items[0] == g then items[1..] else [items[0]] + Without(items[1..], g)
  }

  lemma {:induction false} CountSplits(a: seq<Json>, b: seq<Json>, g: Json)
    ensures Count(a + b, g) == Count(a, g) + Count(b, g)
    ensures Count(a, g) == 0 <==> g !in a
  {
    if a == [] {
      assert a + b == b;
    } else {
      assert (a + b)[1..] == a[1..] + b;
      CountSplits(a[1..], b, g);
      assert a == [a[0]] + a[1..];
    }
  }

  /** Everything around the one managed group stays, in order. */
  lemma {:induction false} WithoutKeepsOthers(a: seq<Json>, b: seq<Json>, g: Json)
    requires g !in a
    ensures Without(a + [g] + b, g) == a + b
  {
    if a == [] {
      assert a + [g] + b == [g] + b;
    } else {
      assert (a + [g] + b)[1..] == a[1..] + [g] + b;
      WithoutKeepsOthers(a[1..], b, g);
      assert [a[0]] + (a[1..] + b) == a + b;
    }
  }

  function ItemsAt(hooks: Fields, event: string): seq<Json> {
    if event in hooks && hooks[event].List? then hooks[event].items else []
  }

  predicate IsList(hooks: Fields, event: string) {
    event in hooks ==> hooks[event].List?
  }

  /** The event belongs to one of the first n managed groups. */
  predicate Among(plan: seq<Managed>, n: nat, event: string)
    requires n <= |plan|
  {
    exists i :: 0 <= i < n && plan[i].event == event
  }

  // ---------------------------------------------------------------- enabling

  function Document(before: Option<Fields>): Fields {
    if before.Some? then before.value else map[]
  }

  function HooksOf(doc: Fields): Fields {
    if HOOKS in doc && doc[HOOKS].Object? then doc[HOOKS].fields else map[]
  }

  /** The hooks object after the first n groups were appended, and what was recorded of them. */
  ghost predicate Appended(hooks: Fields, plan: seq<Managed>, n: nat, after: Fields, events: seq<Owned>)
    requires n <= |plan|
  {
    && |events| == n
    && (forall i :: 0 <= i < n ==> events[i] == Owned(plan[i].event, plan[i].event !in hooks, plan[i].group))
    && (forall i :: 0 <= i < n ==>
          plan[i].event in after && after[plan[i].event] == List(ItemsAt(hooks, plan[i].event) + [plan[i].group]))
    && forall e :: !Among(plan, n, e) ==> SameAt(hooks, after, e)
  }

  predicate SameAt(a: Fields, b: Fields, e: string) {
    (e in a <==> e in b) && (e in a ==> a[e] == b[e])
  }

  /** A first enabling is honoured when hooks is an object or absent, every event's value a list or
      absent, and no managed group is already there. */
  predicate Enableable(doc: Fields, plan: seq<Managed>) {
    && (HOOKS in doc ==> doc[HOOKS].Object?)
    && forall i :: 0 <= i < |plan| ==> Free(HooksOf(doc), plan[i])
  }

  predicate Free(hooks: Fields, m: Managed) {
    IsList(hooks, m.event) && m.group !in ItemsAt(hooks, m.event)
  }

  method Enable(before: Option<Fields>, plan: seq<Managed>) returns (r: Result<(Fields, Ownership), Error>)
    requires DistinctEvents(plan)
    ensures r.Ok? <==> Enableable(Document(before), plan)
    ensures r.Ok? ==>
      && r.value.0 - {HOOKS} == Document(before) - {HOOKS}
      && HOOKS in r.value.0 && r.value.0[HOOKS].Object?
      && r.value.1.created == before.None? && r.value.1.hooksAdded == (HOOKS !in Document(before))
      && Appended(HooksOf(Document(before)), plan, |plan|, HooksOf(r.value.0), r.value.1.events)
  {
    var doc := Document(before);
    if HOOKS in doc && !doc[HOOKS].Object? { return Err(HooksNotObject); }
    var original := HooksOf(doc);
    var hooks, events := original, [];
    for i := 0 to |plan|
      invariant forall j :: 0 <= j < i ==> Free(original, plan[j])
      invariant Appended(original, plan, i, hooks, events)
    {
      var event, group := plan[i].event, plan[i].group;
      assert !Among(plan, i, event);
      assert SameAt(original, hooks, event);
      var added := event !in hooks;
      if !IsList(hooks, event) { return Err(EventNotList); }
      var items := ItemsAt(hooks, event);
      CountSplits(items, [], group);
      if Count(items, group) != 0 { return Err(Unowned); }
      AppendedMore(original, plan, i, hooks, events);
      hooks := hooks[event := List(items + [group])];
      events := events + [Owned(event, added, group)];
    }
    r := Ok((doc[HOOKS := Object(hooks)], Ownership(before.None?, HOOKS !in doc, events)));
  }

  lemma AppendedMore(hooks: Fields, plan: seq<Managed>, i: nat, after: Fields, events: seq<Owned>)
    requires i < |plan| && DistinctEvents(plan) && Appended(hooks, plan, i, after, events)
    ensures var m := plan[i];
      Appended(hooks, plan, i + 1, after[m.event := List(ItemsAt(hooks, m.event) + [m.group])],
               events + [Owned(m.event, m.event !in hooks, m.group)])
  {
    var m := plan[i];
    var next := after[m.event := List(ItemsAt(hooks, m.event) + [m.group])];
    forall e | !Among(plan, i + 1, e)
      ensures SameAt(hooks, next, e)
    {
      assert plan[i].event != e;
      assert !Among(plan, i, e);
      assert SameAt(hooks, after, e);
    }
  }

  // ---------------------------------------------------------------- enabling again

  /** The record of one event, if there is one. */
  method FindOwned(events: seq<Owned>, event: string) returns (k: Option<nat>)
    ensures k.Some? ==> k.value < |events| && events[k.value].event == event && forall j :: 0 <= j < k.value ==>
      events[j].event != event
    ensures k.None? ==> forall j :: 0 <= j < |events| ==> events[j].event != event
  {
    for i := 0 to |events|
      invariant forall j :: 0 <= j < i ==> events[j].event != event
    {
      if events[i].event == event { return Some(i); }
    }
    k := None;
  }

  /** With an earlier record the groups must all be in place, once each; nothing is added, and what
      was recorded about containers is what stays recorded. */
  method EnableAgain(before: Option<Fields>, plan: seq<Managed>, prior: Ownership)
    returns (r: Result<(Fields, Ownership), Error>)
    ensures r.Ok? ==>
      && r.value.0 == Document(before)
      && r.value.1.created == prior.created && r.value.1.hooksAdded == prior.hooksAdded
      && |r.value.1.events| == |plan|
      && forall i :: 0 <= i < |plan| ==>
           Count(ItemsAt(HooksOf(Document(before)), plan[i].event), plan[i].group) == 1
    ensures r.Ok? && Records(plan, prior) ==> r.value.1 == prior
    ensures r.Err? && Records(plan, prior) ==>
      (HOOKS in Document(before) && !Document(before)[HOOKS].Object?)
      || exists i :: 0 <= i < |plan| && (!IsList(HooksOf(Document(before)), plan[i].event)
                       || Count(ItemsAt(HooksOf(Document(before)), plan[i].event), plan[i].group) != 1)
  {
    var doc := Document(before);
    if HOOKS in doc && !doc[HOOKS].Object? { return Err(HooksNotObject); }
    var hooks, events := HooksOf(doc), [];
    for i := 0 to |plan|
      invariant |events| == i
      invariant forall j :: 0 <= j < i ==> Count(ItemsAt(hooks, plan[j].event), plan[j].group) == 1
      invariant Records(plan, prior) ==> events == prior.events[..i]
    {
      var event, group := plan[i].event, plan[i].group;
      if !IsList(hooks, event) { return Err(EventNotList); }
      if Count(ItemsAt(hooks, event), group) != 1 { return Err(Drifted); }
      var k := FindOwned(prior.events, event);
      assert Records(plan, prior) ==> prior.events[i].event == event && k == Some(i);
      if k.Some? && prior.events[k.value].group != group { return Err(OwnershipDrifted); }
      events := events + [Owned(event, k.Some? && prior.events[k.value].containerAdded, group)];
    }
    r := Ok((doc, Ownership(prior.created, prior.hooksAdded, events)));
  }

  /** The earlier record is one that enabling this plan made. */
  predicate Records(plan: seq<Managed>, prior: Ownership) {
    && |prior.events| == |plan| && DistinctEvents(plan)
    && forall i :: 0 <= i < |plan| ==> prior.events[i].event == plan[i].event && prior.events[i].group == plan[i].group
  }

  // ---------------------------------------------------------------- disabling

  predicate DistinctOwned(events: seq<Owned>) {
    forall i, j :: 0 <= i < j < |events| ==> events[i].event != events[j].event
  }

  predicate Recorded(events: seq<Owned>, n: nat, event: string)
    requires n <= |events|
  {
    exists i :: 0 <= i < n && events[i].event == event
  }

  predicate RemovedAt(hooks: Fields, o: Owned, after: Fields) {
    var rest := Without(ItemsAt(hooks, o.event), o.group);
    if o.containerAdded && rest == [] then o.event !in after else o.event in after && after[o.event] == List(rest)
  }

  /** The hooks object after the first n groups were taken out, with the lists that were added for
      them and are empty again; every other event is as it was. */
  ghost predicate Removed(hooks: Fields, events: seq<Owned>, n: nat, after: Fields)
    requires n <= |events|
  {
    && (forall i :: 0 <= i < n ==> RemovedAt(hooks, events[i], after))
    && forall e :: !Recorded(events, n, e) ==> SameAt(hooks, after, e)
  }

  /** Each managed group is in place exactly once. */
  predicate Intact(hooks: Fields, o: Owned) {
    o.event in hooks && hooks[o.event].List? && Count(hooks[o.event].items, o.group) == 1
  }

  predicate Disableable(current: Option<Fields>, own: Ownership) {
    && current.Some? && HOOKS in current.value && current.value[HOOKS].Object?
    && forall i :: 0 <= i < |own.events| ==> Intact(HooksOf(current.value), own.events[i])
  }

  /** What disabling leaves of a document, given what is left of its hooks. */
  function Left(doc: Fields, hooks: Fields, own: Ownership): Option<Fields> {
    var after := if own.hooksAdded && hooks == map[] then doc - {HOOKS} else doc[HOOKS := Object(hooks)];
    if own.created && after == map[] then None else Some(after)
  }

  method Disable(current: Option<Fields>, own: Ownership)
    returns (r: Result<Option<Fields>, Error>, ghost hooks: Fields)
    requires DistinctOwned(own.events)
    ensures r.Ok? <==> Disableable(current, own)
    ensures r.Ok? ==> Removed(HooksOf(current.value), own.events, |own.events|, hooks)
    ensures r.Ok? ==> r.value == Left(current.value, hooks, own)
  {
    hooks := map[];
    if current.None? || HOOKS !in current.value || !current.value[HOOKS].Object? { return Err(Missing), hooks; }
    var original := HooksOf(current.value);
    var after := original;
    for i := 0 to |own.events|
      invariant forall j :: 0 <= j < i ==> Intact(original, own.events[j])
      invariant Removed(original, own.events, i, after)
    {
      var o := own.events[i];
      assert !Recorded(own.events, i, o.event);
      assert SameAt(original, after, o.event);
      if !Intact(after, o) { return Err(Drifted), hooks; }
      RemovedMore(original, own.events, i, after);
      var rest := Without(after[o.event].items, o.group);
      after := if o.containerAdded && rest == [] then after - {o.event} else after[o.event := List(rest)];
    }
    hooks := after;
    r := Ok(Left(current.value, after, own));
  }

  lemma RemovedMore(hooks: Fields, events: seq<Owned>, i: nat, after: Fields)
    requires i < |events| && DistinctOwned(events) && Removed(hooks, events, i, after)
    ensures var o := events[i];
      var rest := Without(ItemsAt(hooks, o.event), o.group);
      Removed(hooks, events, i + 1,
              if o.containerAdded && rest == [] then after - {o.event} else after[o.event := List(rest)])
  {
    var o := events[i];
    var rest := Without(ItemsAt(hooks, o.event), o.group);
    var next := if o.containerAdded && rest == [] then after - {o.event} else after[o.event := List(rest)];
    forall j | 0 <= j < i
      ensures RemovedAt(hooks, events[j], next)
    {
      assert RemovedAt(hooks, events[j], after);
    }
    forall e | !Recorded(events, i + 1, e)
      ensures SameAt(hooks, next, e)
    {
      assert events[i].event != e;
      assert !Recorded(events, i, e);
      assert SameAt(hooks, after, e);
    }
  }

  // ---------------------------------------------------------------- undo

  /** Taking the managed groups out again restores the hooks object exactly. */
  lemma UndoHooks(hooks: Fields, plan: seq<Managed>, enabled: Fields, events: seq<Owned>, after: Fields)
    requires forall i :: 0 <= i < |plan| ==> Free(hooks, plan[i])
    requires Appended(hooks, plan, |plan|, enabled, events) && Removed(enabled, events, |events|, after)
    ensures after == hooks
  {
    forall e
      ensures SameAt(hooks, after, e)
    {
      if Among(plan, |plan|, e) {
        var i :| 0 <= i < |plan| && plan[i].event == e;
        assert Free(hooks, plan[i]) && RemovedAt(enabled, events[i], after);
        WithoutKeepsOthers(ItemsAt(hooks, e), [], plan[i].group);
        assert ItemsAt(hooks, e) + [plan[i].group] + [] == ItemsAt(hooks, e) + [plan[i].group];
        assert ItemsAt(hooks, e) + [] == ItemsAt(hooks, e);
      } else {
        assert !Recorded(events, |events|, e);
        assert SameAt(hooks, enabled, e) && SameAt(enabled, after, e);
      }
    }
    SameMaps(hooks, after);
  }

  lemma Rebuilt(doc: Fields, base: Fields)
    requires doc - {HOOKS} == base - {HOOKS}
    ensures HOOKS in base ==> doc[HOOKS := base[HOOKS]] == base
    ensures HOOKS !in base ==> doc - {HOOKS} == base
  {
    forall k | k != HOOKS
      ensures SameAt(doc, base, k)
    {
      assert k in doc <==> k in doc - {HOOKS};
      assert k in base <==> k in base - {HOOKS};
      assert k in doc && k in base ==> (doc - {HOOKS})[k] == (base - {HOOKS})[k];
    }
    if HOOKS in base {
      var again := doc[HOOKS := base[HOOKS]];
      forall k
        ensures SameAt(again, base, k)
      {
        assert k != HOOKS ==> SameAt(doc, base, k);
      }
      SameMaps(again, base);
    } else {
      assert base - {HOOKS} == base;
    }
  }

  lemma SameMaps(a: Fields, b: Fields)
    requires forall k :: SameAt(a, b, k)
    ensures a == b
  {
    forall k
      ensures (k in a <==> k in b) && (k in a ==> a[k] == b[k])
    {
      assert SameAt(a, b, k);
    }
    assert a.Keys == b.Keys;
  }

  lemma EnabledIsIntact(hooks: Fields, plan: seq<Managed>, enabled: Fields, events: seq<Owned>, i: nat)
    requires i < |plan| && Free(hooks, plan[i]) && Appended(hooks, plan, |plan|, enabled, events)
    ensures Intact(enabled, events[i])
  {
    CountSplits(ItemsAt(hooks, plan[i].event), [plan[i].group], plan[i].group);
    assert Count([plan[i].group], plan[i].group) == 1;
  }

  /** Disabling what was just enabled, or enabled any number of times, gives the original value back:
      the missing file, the missing or empty containers, and everything else. */
  method EnableThenDisable(before: Option<Fields>, plan: seq<Managed>, again: nat) returns (restored: Option<Fields>)
    requires DistinctEvents(plan) && Enableable(Document(before), plan)
    ensures restored == before
  {
    var enabled := Enable(before, plan);
    var doc, own := enabled.value.0, enabled.value.1;
    ghost var original := HooksOf(Document(before));
    forall i | 0 <= i < |plan|
      ensures Intact(HooksOf(doc), own.events[i])
    {
      EnabledIsIntact(original, plan, HooksOf(doc), own.events, i);
    }
    for k := 0 to again {
      var repeated := EnableAgain(Some(doc), plan, own);
      assert repeated == Ok((doc, own));
    }
    var disabled, hooks := Disable(Some(doc), own);
    UndoHooks(original, plan, HooksOf(doc), own.events, hooks);
    restored := disabled.value;
    Rebuilt(doc, Document(before));
  }

  /** Whatever else is in the lists when the groups are taken out stays in them, in number and order. */
  lemma OthersSurvive(hooks: Fields, events: seq<Owned>, after: Fields, i: nat, a: seq<Json>, b: seq<Json>)
    requires Removed(hooks, events, |events|, after) && i < |events| && Intact(hooks, events[i])
    requires ItemsAt(hooks, events[i].event) == a + [events[i].group] + b && events[i].group !in a
    ensures a + b != [] ==> events[i].event in after && after[events[i].event] == List(a + b)
    ensures ItemsAt(after, events[i].event) == a + b
  {
    assert RemovedAt(hooks, events[i], after);
    WithoutKeepsOthers(a, b, events[i].group);
  }

  /** A group somebody else puts into a managed list after enabling, at any place, is where it would
      have been without the managed group. */
  lemma InsertedSurvives(items: seq<Json>, g: Json, x: Json, k: nat)
    requires g !in items && x != g && k <= |items| + 1
    ensures var enabled := items + [g];
      Without(enabled[..k] + [x] + enabled[k..], g) ==
        if k <= |items| then items[..k] + [x] + items[k..] else items + [x]
  {
    var enabled := items + [g];
    if k <= |items| {
      assert enabled[..k] + [x] + enabled[k..] == (items[..k] + [x] + items[k..]) + [g] + [];
      WithoutKeepsOthers(items[..k] + [x] + items[k..], [], g);
    } else {
      assert enabled[..k] + [x] + enabled[k..] == items + [g] + [x];
      WithoutKeepsOthers(items, [x], g);
    }
  }
}
