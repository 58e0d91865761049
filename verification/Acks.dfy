/** Acknowledging mail: one quiet receipt per batch and sender, published before any message it names
    is archived. The directories are the only record; every step can fail or be the last one. */
module Acks {
  import opened Wrappers
  import opened MessageIds
  import Envelopes

  type Inode = nat

  /** A file name in one seat's inbox, without its suffix; it may stand in new/, in cur/ or in both. */
  datatype Slot = Slot(inbox: string, name: string)

  const QUIET := "ack-"
  const SYNC_ACK := "sync-ack"

  predicate Quiet(name: string) {
    |name| >= 4 && name[..4] == QUIET
  }

  function RefsIn(p: Envelopes.Parsed): seq<string> {
    if p.Mail? then RefsOf(p.envelope.body) else []
  }

  predicate Distinct(refs: seq<string>) {
    forall i, j :: 0 <= i < j < |refs| ==> refs[i] != refs[j]
  }

  /** A receipt that proves the route of every message it names. */
  predicate Proper(s: Slot, p: Envelopes.Parsed, project: string) {
    && p.Mail?
    && p.envelope.kind == SYNC_ACK && p.envelope.to == s.inbox && p.envelope.origin == Some(project)
    && s.name == QUIET + p.envelope.id
    && ParseFor(p.envelope.id, s.inbox) == Some((p.envelope.from, s.inbox))
    && Distinct(RefsIn(p))
    && forall r :: r in RefsIn(p) ==> ParseFor(r, p.envelope.from) == Some((s.inbox, p.envelope.from))
  }

  // ---------------------------------------------------------------- what the directories must satisfy

  /** A quiet file stands in an inbox. */
  predicate Stands(held: map<Slot, Inode>, files: map<Inode, Envelopes.Parsed>, s: Slot) {
    s in held && held[s] in files && Quiet(s.name)
  }

  predicate Names(held: map<Slot, Inode>, files: map<Inode, Envelopes.Parsed>, s: Slot, inbox: string, ref: string) {
    Stands(held, files, s) && s.inbox == inbox && ref in RefsIn(files[held[s]])
  }

  /** Every quiet file is a proper receipt, and at most one of an inbox names a message. */
  ghost predicate Sound(held: map<Slot, Inode>, files: map<Inode, Envelopes.Parsed>, project: string) {
    && (forall s {:trigger held[s]} :: s in held ==> held[s] in files)
    && (forall s {:trigger Stands(held, files, s)} :: Stands(held, files, s) ==> Proper(s, files[held[s]], project))
    && forall s, t, inbox, ref :: Names(held, files, s, inbox, ref) && Names(held, files, t, inbox, ref) ==> s == t
  }

  ghost predicate Named(held: map<Slot, Inode>, files: map<Inode, Envelopes.Parsed>, inbox: string, ref: string) {
    exists s :: Names(held, files, s, inbox, ref)
  }

  /** The sender of this message holds a receipt for it. */
  ghost predicate Answered(held: map<Slot, Inode>, files: map<Inode, Envelopes.Parsed>, s: Slot) {
    var route := ParseFor(s.name, s.inbox);
    route.Some? && Named(held, files, route.value.0, s.name)
  }

  /** Nothing held before is gone or changed. */
  predicate Keeps(held: map<Slot, Inode>, files: map<Inode, Envelopes.Parsed>,
                  heldAfter: map<Slot, Inode>, filesAfter: map<Inode, Envelopes.Parsed>) {
    && (forall s :: s in held ==> s in heldAfter && heldAfter[s] == held[s])
    && forall i :: i in files ==> i in filesAfter && filesAfter[i] == files[i]
  }

  lemma KeepsSelf(held: map<Slot, Inode>, files: map<Inode, Envelopes.Parsed>)
    ensures Keeps(held, files, held, files)
  {
  }

  lemma KeepsAlong(heldA: map<Slot, Inode>, filesA: map<Inode, Envelopes.Parsed>, heldB: map<Slot, Inode>,
                   filesB: map<Inode, Envelopes.Parsed>, heldC: map<Slot, Inode>, filesC: map<Inode, Envelopes.Parsed>)
    requires Keeps(heldA, filesA, heldB, filesB) && Keeps(heldB, filesB, heldC, filesC)
    ensures Keeps(heldA, filesA, heldC, filesC)
  {
  }

  lemma KeepsNamed(held: map<Slot, Inode>, files: map<Inode, Envelopes.Parsed>,
                   heldAfter: map<Slot, Inode>, filesAfter: map<Inode, Envelopes.Parsed>, inbox: string, ref: string)
    requires Keeps(held, files, heldAfter, filesAfter) && Named(held, files, inbox, ref)
    ensures Named(heldAfter, filesAfter, inbox, ref)
  {
    var s :| Names(held, files, s, inbox, ref);
    assert Names(heldAfter, filesAfter, s, inbox, ref);
  }

  lemma KeepsAllNamed(held: map<Slot, Inode>, files: map<Inode, Envelopes.Parsed>,
                      heldAfter: map<Slot, Inode>, filesAfter: map<Inode, Envelopes.Parsed>)
    requires Keeps(held, files, heldAfter, filesAfter)
    ensures forall inbox, r :: Named(held, files, inbox, r) ==> Named(heldAfter, filesAfter, inbox, r)
  {
    forall inbox, r | Named(held, files, inbox, r)
      ensures Named(heldAfter, filesAfter, inbox, r)
    {
      KeepsNamed(held, files, heldAfter, filesAfter, inbox, r);
    }
  }

  lemma KeepsAnswered(held: map<Slot, Inode>, files: map<Inode, Envelopes.Parsed>,
                      heldAfter: map<Slot, Inode>, filesAfter: map<Inode, Envelopes.Parsed>)
    requires Keeps(held, files, heldAfter, filesAfter)
    ensures forall s :: Answered(held, files, s) ==> Answered(heldAfter, filesAfter, s)
  {
    forall s | Answered(held, files, s)
      ensures Answered(heldAfter, filesAfter, s)
    {
      KeepsNamed(held, files, heldAfter, filesAfter, ParseFor(s.name, s.inbox).value.0, s.name);
    }
  }

  /** A new file in one inbox names nothing in another. */
  lemma NamedElsewhere(held: map<Slot, Inode>, files: map<Inode, Envelopes.Parsed>,
                       heldAfter: map<Slot, Inode>, filesAfter: map<Inode, Envelopes.Parsed>, added: Slot)
    requires Keeps(held, files, heldAfter, filesAfter) && heldAfter.Keys - {added} <= held.Keys
    requires forall s :: s in held ==> held[s] in files
    ensures forall inbox, r :: inbox != added.inbox && Named(heldAfter, filesAfter, inbox, r) ==>
      Named(held, files, inbox, r)
  {
    forall inbox, r | inbox != added.inbox && Named(heldAfter, filesAfter, inbox, r)
      ensures Named(held, files, inbox, r)
    {
      var s :| Names(heldAfter, filesAfter, s, inbox, r);
      assert Names(held, files, s, inbox, r);
    }
  }

  /** Adding a file keeps the directories sound when it is no quiet file, or a proper receipt for
      messages no receipt named yet. */
  lemma AddingKeepsSound(held: map<Slot, Inode>, files: map<Inode, Envelopes.Parsed>, project: string,
                         s: Slot, inode: Inode, p: Envelopes.Parsed)
    requires Sound(held, files, project) && s !in held && inode !in files
    requires Quiet(s.name) ==> Proper(s, p, project) && forall r :: r in RefsIn(p) ==> !Named(held, files, s.inbox, r)
    ensures Sound(held[s := inode], files[inode := p], project)
    ensures Keeps(held, files, held[s := inode], files[inode := p])
    ensures forall r :: Quiet(s.name) && r in RefsIn(p) ==> Names(held[s := inode], files[inode := p], s, s.inbox, r)
  {
    var heldAfter, filesAfter := held[s := inode], files[inode := p];
    forall t | Stands(heldAfter, filesAfter, t)
      ensures Proper(t, filesAfter[heldAfter[t]], project)
    {
      if t != s { assert Stands(held, files, t); }
    }
    forall t, u, inbox, r | Names(heldAfter, filesAfter, t, inbox, r) && Names(heldAfter, filesAfter, u, inbox, r)
      ensures t == u
    {
      OneNames(held, files, project, s, inode, p, t, u, inbox, r);
    }
  }

  lemma OneNames(held: map<Slot, Inode>, files: map<Inode, Envelopes.Parsed>, project: string,
                 s: Slot, inode: Inode, p: Envelopes.Parsed, t: Slot, u: Slot, inbox: string, r: string)
    requires Sound(held, files, project) && s !in held && inode !in files
    requires Quiet(s.name) ==> forall q :: q in RefsIn(p) ==> !Named(held, files, s.inbox, q)
    requires Names(held[s := inode], files[inode := p], t, inbox, r) &&
             Names(held[s := inode], files[inode := p], u, inbox, r)
    ensures t == u
  {
    if t != s { assert Names(held, files, t, inbox, r); }
    if u != s { assert Names(held, files, u, inbox, r); }
  }

  /** A receipt that names a message of this route is a receipt of this very route. */
  lemma ReceiptIsOurs(held: map<Slot, Inode>, files: map<Inode, Envelopes.Parsed>, project: string,
                      s: Slot, inbox: string, agent: string, ref: string)
    requires Sound(held, files, project) && Names(held, files, s, inbox, ref)
    requires ParseFor(ref, agent) == Some((inbox, agent))
    ensures files[held[s]].envelope.from == agent
  {
    var from := files[held[s]].envelope.from;
    ParseForIsExact(ref, agent);
    ParseForIsExact(ref, from);
    assert inbox + SEPARATOR + from == inbox + SEPARATOR + agent;
    assert (inbox + SEPARATOR + from)[|inbox| + 4..] == from;
    assert (inbox + SEPARATOR + agent)[|inbox| + 4..] == agent;
  }

  /** The two names of a file are one file; receipts are sound; everything archived here was answered first. */
  ghost predicate Whole(arrived: map<Slot, Inode>, kept: map<Slot, Inode>, files: map<Inode, Envelopes.Parsed>,
                        nextInode: Inode, archived: set<Slot>, project: string)
  {
    && (forall s {:trigger arrived[s], kept[s]} :: s in arrived && s in kept ==> arrived[s] == kept[s])
    && (forall i :: i in files ==> i < nextInode)
    && Sound(kept + arrived, files, project)
    && forall s :: s in archived ==> s in kept && Answered(kept + arrived, files, s)
  }

  lemma AppearingKeepsWhole(arrived: map<Slot, Inode>, kept: map<Slot, Inode>, files: map<Inode, Envelopes.Parsed>,
                            nextInode: Inode, archived: set<Slot>, project: string, s: Slot, p: Envelopes.Parsed)
    requires Whole(arrived, kept, files, nextInode, archived, project) && s !in kept + arrived
    requires Quiet(s.name) ==> Proper(s, p, project) && forall r :: r in RefsIn(p) ==>
      !Named(kept + arrived, files, s.inbox, r)
    ensures Whole(arrived[s := nextInode], kept, files[nextInode := p], nextInode + 1, archived, project)
    ensures kept + arrived[s := nextInode] == (kept + arrived)[s := nextInode]
    ensures Keeps(kept + arrived, files, kept + arrived[s := nextInode], files[nextInode := p])
  {
    var held := kept + arrived;
    assert kept + arrived[s := nextInode] == held[s := nextInode];
    AddingKeepsSound(held, files, project, s, nextInode, p);
    KeepsAnswered(held, files, held[s := nextInode], files[nextInode := p]);
  }

  lemma LinkingKeepsWhole(arrived: map<Slot, Inode>, kept: map<Slot, Inode>, files: map<Inode, Envelopes.Parsed>,
                          nextInode: Inode, archived: set<Slot>, project: string, s: Slot, here: set<Slot>)
    requires Whole(arrived, kept, files, nextInode, archived, project)
    requires s in arrived && s !in kept && here <= {s} && (here == {s} ==> Answered(kept + arrived, files, s))
    ensures Whole(arrived, kept[s := arrived[s]], files, nextInode, archived + here, project)
    ensures kept[s := arrived[s]] + arrived == kept + arrived
  {
    var held, keptAfter := kept + arrived, kept[s := arrived[s]];
    assert keptAfter + arrived == held;
    forall t | t in archived + here
      ensures t in keptAfter && Answered(held, files, t)
    {
    }
  }

  lemma UnlinkingKeepsWhole(arrived: map<Slot, Inode>, kept: map<Slot, Inode>, files: map<Inode, Envelopes.Parsed>,
                            nextInode: Inode, archived: set<Slot>, project: string, s: Slot)
    requires Whole(arrived, kept, files, nextInode, archived, project)
    requires s in arrived && s in kept
    ensures Whole(arrived - {s}, kept, files, nextInode, archived, project)
    ensures kept + (arrived - {s}) == kept + arrived
  {
    assert kept + (arrived - {s}) == kept + arrived;
  }

  // ---------------------------------------------------------------- a receipt's text

  /** Identifiers of messages from target to agent, in a form a list can hold. */
  predicate Routed(agent: string, target: string, refs: seq<string>) {
    && Agent(agent) && Agent(target) && |refs| > 0 && Distinct(refs)
    && forall r :: r in refs ==> Listable(r) && ParseFor(r, agent) == Some((target, agent))
  }

  /** What an identifier is minted from: the time, read anew for each, and a random nonce. */
  datatype Mark = Mark(stamp: string, nonce: string)

  predicate Tokened(agent: string, target: string, mark: Mark) {
    Mintable(mark.stamp, agent, target, mark.nonce) && Listable(mark.nonce) && ']' !in mark.nonce
  }

  function ReceiptSlot(agent: string, target: string, mark: Mark): Slot {
    Slot(target, QUIET + Mint(mark.stamp, agent, target, mark.nonce))
  }

  /** The receipt as any reader will parse the text that is written. */
  function Receipt(agent: string, target: string, refs: seq<string>, note: string, mark: Mark,
                   project: string): Envelopes.Parsed
  {
    match Envelopes.Format(agent, target, SYNC_ACK, Mint(mark.stamp, agent, target, mark.nonce),
                           ReceiptBody(refs, note), Some(project))
    case None => Envelopes.Invalid
    case Some(text) => Envelopes.Parse(text)
  }

  lemma ReceiptIsProper(agent: string, target: string, refs: seq<string>, note: string, mark: Mark, project: string)
    requires Routed(agent, target, refs) && Tokened(agent, target, mark) && Envelopes.Canonical(project)
    ensures RefsIn(Receipt(agent, target, refs, note, mark, project)) == refs
    ensures Proper(ReceiptSlot(agent, target, mark), Receipt(agent, target, refs, note, mark, project), project)
    ensures Quiet(ReceiptSlot(agent, target, mark).name)
  {
    var id := Mint(mark.stamp, agent, target, mark.nonce);
    MintedIsToken(mark, agent, target);
    SyncAckIsToken();
    Envelopes.RoundTripWithOrigin(agent, target, SYNC_ACK, id, ReceiptBody(refs, note), project);
    RefsReadBack(refs, note);
    RecoversFor(mark.stamp, agent, target, mark.nonce);
    assert (QUIET + id)[..4] == QUIET;
  }

  lemma SyncAckIsToken()
    ensures Envelopes.Token(SYNC_ACK) && Envelopes.Lower(SYNC_ACK) == SYNC_ACK
  {
    forall i | 0 <= i < |SYNC_ACK|
      ensures Envelopes.TokenChar(SYNC_ACK[i]) && Envelopes.LowerChar(SYNC_ACK[i]) == SYNC_ACK[i]
    {
      var c := SYNC_ACK[i];
      assert c == '-' || 'a' <= c <= 'z';
    }
  }

  lemma MintedIsToken(mark: Mark, sender: string, target: string)
    requires Tokened(sender, target, mark)
    ensures Envelopes.Token(Mint(mark.stamp, sender, target, mark.nonce))
  {
    MintedIsListable(mark.stamp, sender, target, mark.nonce);
    var id := Mint(mark.stamp, sender, target, mark.nonce);
    assert ']' !in mark.stamp && ']' !in sender && ']' !in target;
    assert ']' !in mark.stamp + "-" + sender;
    assert ']' !in id;
    forall i | 0 <= i < |id|
      ensures Envelopes.TokenChar(id[i])
    {
      assert id[i] in id;
    }
  }

  // ---------------------------------------------------------------- one batch

  datatype Item = Item(ref: string, sender: string, inNew: bool, inCur: bool) {
    predicate CurOnly() { inCur && !inNew }
  }

  datatype Status = Committed | Partial | Unknown | Rejected | Died

  datatype Report = Report(status: Status, archived: seq<string>)

  datatype Verdict = Fine | Unproven | Multiple

  datatype Evidence = Found(receipts: map<string, Slot>) | Unreadable | Conflict(verdict: Verdict)

  function WithReceipt(found: map<string, Slot>, s: Slot, p: Envelopes.Parsed, wanted: seq<string>): map<string, Slot> {
    found + map r | r in wanted && r in RefsIn(p) :: s
  }

  /** What has been found is exactly what the slots looked at name. */
  ghost predicate Covers(held: map<Slot, Inode>, files: map<Inode, Envelopes.Parsed>, sender: string,
                         wanted: seq<string>,
                         done: set<Slot>, found: map<string, Slot>)
  {
    && (forall r :: r in found ==> r in wanted && found[r] in done && Names(held, files, found[r], sender, r))
    && forall s, r :: s in done && r in wanted && Names(held, files, s, sender, r) ==> r in found
  }

  lemma CoverOne(held: map<Slot, Inode>, files: map<Inode, Envelopes.Parsed>, sender: string, wanted: seq<string>,
                 done: set<Slot>, found: map<string, Slot>, s: Slot)
    requires Covers(held, files, sender, wanted, done, found) && Stands(held, files, s) && s.inbox == sender
    ensures Covers(held, files, sender, wanted, done + {s}, WithReceipt(found, s, files[held[s]], wanted))
  {
    var after := WithReceipt(found, s, files[held[s]], wanted);
    forall r | r in after
      ensures r in wanted && after[r] in done + {s} && Names(held, files, after[r], sender, r)
    {
      assert r in found || (r in wanted && r in RefsIn(files[held[s]]));
    }
  }

  lemma CoversAll(held: map<Slot, Inode>, files: map<Inode, Envelopes.Parsed>, sender: string, wanted: seq<string>,
                  done: set<Slot>, found: map<string, Slot>)
    requires Covers(held, files, sender, wanted, done, found)
    requires forall s :: Stands(held, files, s) && s.inbox == sender ==> s in done
    ensures found.Keys == set r | r in wanted && Named(held, files, sender, r)
  {
    forall r | r in wanted && Named(held, files, sender, r)
      ensures r in found
    {
      var s :| Names(held, files, s, sender, r);
      assert s in done;
    }
  }

  /** The references one sender's messages have, in batch order. */
  function RefsFrom(items: seq<Item>, sender: string): seq<string> {
    if items == [] then []
    else
      var last := items[|items| - 1];
      RefsFrom(items[..|items| - 1], sender) + if last.sender == sender then [last.ref] else []
  }

  predicate DistinctItems(items: seq<Item>) {
    forall i, j :: 0 <= i < j < |items| ==> items[i].ref != items[j].ref
  }

  lemma {:induction false} RefsFromMembers(items: seq<Item>, sender: string)
    ensures forall r :: r in RefsFrom(items, sender) <==>
      exists i :: 0 <= i < |items| && items[i].ref == r && items[i].sender == sender
  {
    if items != [] {
      var front := items[..|items| - 1];
      RefsFromMembers(front, sender);
      assert items == front + [items[|items| - 1]];
    }
  }

  lemma {:induction false} RefsFromDistinct(items: seq<Item>, sender: string)
    requires DistinctItems(items)
    ensures Distinct(RefsFrom(items, sender))
  {
    if items != [] {
      var front, last := items[..|items| - 1], items[|items| - 1];
      RefsFromDistinct(front, sender);
      RefsFromMembers(front, sender);
      assert last.ref !in RefsFrom(front, sender);
      assert forall i :: 0 <= i < |RefsFrom(front, sender)| ==> RefsFrom(front, sender)[i] in RefsFrom(front, sender);
    }
  }

  lemma {:induction false} NoneFrom(items: seq<Item>, sender: string)
    requires forall i :: 0 <= i < |items| ==> items[i].sender != sender
    ensures RefsFrom(items, sender) == []
  {
    if items != [] { NoneFrom(items[..|items| - 1], sender); }
  }

  predicate Grouped(items: seq<Item>, senders: seq<string>, groups: map<string, seq<string>>) {
    && Distinct(senders) && groups.Keys == (set s | s in senders)
    && (forall s :: s in groups ==> groups[s] != [] && groups[s] == RefsFrom(items, s))
    && forall i :: 0 <= i < |items| ==> items[i].sender in senders
  }

  lemma RefsFromAppend(items: seq<Item>, item: Item)
    ensures forall s :: RefsFrom(items + [item], s) == RefsFrom(items, s) + if item.sender == s then [item.ref] else []
  {
    assert (items + [item])[..|items|] == items;
  }

  lemma NewSenderGrouped(items: seq<Item>, item: Item, senders: seq<string>, groups: map<string, seq<string>>)
    requires Grouped(items, senders, groups) && item.sender !in groups
    ensures Grouped(items + [item], senders + [item.sender], groups[item.sender := [item.ref]])
  {
    RefsFromAppend(items, item);
    NoneFrom(items, item.sender);
  }

  lemma KnownSenderGrouped(items: seq<Item>, item: Item, senders: seq<string>, groups: map<string, seq<string>>)
    requires Grouped(items, senders, groups) && item.sender in groups
    ensures Grouped(items + [item], senders, groups[item.sender := groups[item.sender] + [item.ref]])
  {
    RefsFromAppend(items, item);
  }

  lemma ParsedAreAgents(id: string, recipient: string)
    requires ParseFor(id, recipient).Some?
    ensures Agent(ParseFor(id, recipient).value.0) && Agent(recipient)
  {
  }

  /** The first n items, and all those that need nothing, are on the list. */
  predicate Listed(items: seq<Item>, n: nat, done: seq<string>) {
    forall j :: 0 <= j < |items| && (j < n || items[j].CurOnly()) ==> items[j].ref in done
  }

  lemma ListMore(items: seq<Item>, n: nat, done: seq<string>)
    requires n < |items| && Listed(items, n, done)
    ensures Listed(items, n + 1, done + [items[n].ref])
    ensures items[n].CurOnly() ==> Listed(items, n + 1, done)
  {
  }

  datatype Action =
    | Deliver(slot: Slot, content: Envelopes.Parsed)
    | Drain(slot: Slot, whole: bool)
    | Ack(agent: string, refs: seq<string>, note: string, marks: map<string, Mark>)

  class Mailbox {
    const project: string
    const seats: set<string>
    var arrived: map<Slot, Inode>
    var kept: map<Slot, Inode>
    var drafts: set<Slot>
    var files: map<Inode, Envelopes.Parsed>
    var nextInode: Inode
    var calm: bool
    ghost var archived: set<Slot>

    constructor (project: string, seats: set<string>)
      ensures Valid() && Held() == map[] && this.project == project && this.seats == seats
    {
      this.project, this.seats := project, seats;
      arrived, kept, drafts, files, nextInode, calm, archived := map[], map[], {}, map[], 0, false, {};
    }

    function Held(): map<Slot, Inode>
      reads this
    {
      kept + arrived
    }

    ghost predicate Valid()
      reads this
    {
      Whole(arrived, kept, files, nextInode, archived, project)
    }

    twostate predicate Progress()
      reads this
    {
      Valid() && Keeps(old(Held()), old(files), Held(), files) && old(archived) <= archived
    }

    /** A new file appears in new/ under a name nobody has. */
    method Appear(s: Slot, p: Envelopes.Parsed) returns (inode: Inode)
      requires Valid() && s !in Held()
      requires Quiet(s.name) ==> Proper(s, p, project) && forall r :: r in RefsIn(p) ==>
        !Named(Held(), files, s.inbox, r)
      modifies `arrived, `files, `nextInode
      ensures Progress()
      ensures arrived == old(arrived)[s := inode] && files == old(files)[inode := p]
      ensures Held() == old(Held())[s := inode] && inode !in old(files)
    {
      inode := nextInode;
      AppearingKeepsWhole(arrived, kept, files, nextInode, archived, project, s, p);
      arrived := arrived[s := inode];
      files := files[inode := p];
      nextInode := nextInode + 1;
    }

    /** Only the names of this one file moved between the directories. */
    twostate predicate Shifts(s: Slot)
      reads this
    {
      && Valid() && Held() == old(Held()) && old(archived) <= archived
      && forall t :: t != s ==> (t in arrived) == (t in old(arrived)) && (t in kept) == (t in old(kept))
    }

    /** The no-clobber half of archiving: a second name for the same file. */
    method Link(s: Slot) returns (f: Fault)
      requires Valid() && s in arrived && s !in kept && Answered(Held(), files, s)
      modifies `kept, `archived
      ensures Shifts(s) && s in kept && s in archived
      ensures calm ==> f.Go?
    {
      LinkingKeepsWhole(arrived, kept, files, nextInode, archived, project, s, {s});
      kept := kept[s := arrived[s]];
      archived := archived + {s};
      f := Tick(calm);
    }

    method Unlink(s: Slot) returns (f: Fault)
      requires Valid() && s in arrived && s in kept
      modifies `arrived
      ensures Shifts(s) && kept == old(kept) && s !in arrived
      ensures calm ==> f.Go?
    {
      UnlinkingKeepsWhole(arrived, kept, files, nextInode, archived, project, s);
      arrived := arrived - {s};
      f := Tick(calm);
    }

    /** Move one file from new/ to cur/: link, then unlink; a retry completes what an earlier attempt left. */
    method Archive(s: Slot) returns (f: Fault)
      requires Valid() && (s in arrived && s !in kept ==> Answered(Held(), files, s))
      modifies `arrived, `kept, `archived
      ensures Shifts(s)
      ensures f.Go? ==> s in kept && s !in arrived
      ensures calm && s in Held() ==> f.Go?
    {
      f := Tick(calm);
      if f.Go? && s in arrived && s !in kept { f := Link(s); }
      if f.Go? && s in arrived { f := Unlink(s); }
      if f.Go? && s !in kept { f := Fail; }
    }

    /** Write a draft, then rename it into new/. The call can fail on either side of the rename. */
    method Publish(s: Slot, p: Envelopes.Parsed) returns (f: Fault)
      requires Valid() && s !in Held()
      requires Quiet(s.name) ==> Proper(s, p, project) && forall r :: r in RefsIn(p) ==>
        !Named(Held(), files, s.inbox, r)
      modifies `arrived, `files, `nextInode, `drafts
      ensures Progress()
      ensures s !in Held() ==> Held() == old(Held()) && arrived == old(arrived) && files == old(files)
      ensures s in Held() ==> Held().Keys == old(Held()).Keys + {s} && arrived.Keys == old(arrived).Keys + {s}
                              && Held()[s] in files && files[Held()[s]] == p
      ensures f.Go? ==> s in Held()
      ensures calm ==> f.Go?
    {
      f := Tick(calm);
      if !f.Go? { return; }
      drafts := drafts + {s};
      f := Tick(calm);
      if f.Die? { return; }
      drafts := drafts - {s};
      if f.Fail? { return; }
      var inode := Appear(s, p);
      f := Tick(calm);
    }

    /** Publish one receipt and say what is known of it. An error after the rename is still a commit
        when the file can be seen; an unreadable answer authorises no second attempt. */
    method PublishReceipt(agent: string, target: string, refs: seq<string>, note: string, mark: Mark)
      returns (status: Status)
      requires Valid() && Routed(agent, target, refs) && Envelopes.Canonical(project)
      requires Tokened(agent, target, mark) && ReceiptSlot(agent, target, mark) !in Held()
      requires forall r :: r in refs ==> !Named(Held(), files, target, r)
      modifies `arrived, `files, `nextInode, `drafts
      ensures Progress()
      ensures status.Committed? || status.Unknown? || status.Died?
      ensures status.Committed? ==> forall r :: r in refs ==> Named(Held(), files, target, r)
      ensures Held().Keys - {ReceiptSlot(agent, target, mark)} == old(Held()).Keys
      ensures Undisturbed()
      ensures calm ==> status.Committed?
      ensures forall inbox, r :: inbox != target && Named(Held(), files, inbox, r) ==>
        old(Named(Held(), files, inbox, r))
    {
      var s := ReceiptSlot(agent, target, mark);
      var p := Receipt(agent, target, refs, note, mark, project);
      ReceiptIsProper(agent, target, refs, note, mark, project);
      var f := Publish(s, p);
      if f.Fail? {
        f := Tick(calm);
        status := if f.Die? then Died else if f.Go? && s in Held() then Committed else Unknown;
      } else {
        status := if f.Die? then Died else Committed;
      }
      if status.Committed? {
        assert forall r :: r in refs ==> Names(Held(), files, s, target, r);
      }
      NamedElsewhere(old(Held()), old(files), Held(), files, s);
    }

    /** One preflight check: the message is addressed to this seat, came from another configured seat,
        is here, proves its own route and is no acknowledgement itself. */
    method Inbound(agent: string, ref: string) returns (item: Option<Item>)
      requires Valid()
      ensures item.Some? ==> Current(agent, item.value) && item.value.ref == ref
      ensures calm ==> (item.Some? <==> Acceptable(agent, ref))
    {
      var f := Tick(calm);
      if !f.Go? || !Acceptable(agent, ref) { return None; }
      var s := Slot(agent, ref);
      item := Some(Item(ref, ParseFor(ref, agent).value.0, s in arrived, s in kept));
    }

    predicate Acceptable(agent: string, ref: string)
      reads this
    {
      var s, route := Slot(agent, ref), ParseFor(ref, agent);
      && route.Some? && route.value.0 != agent && route.value.0 in seats
      && s in Held() && Held()[s] in files && files[Held()[s]].Mail?
      && var e := files[Held()[s]].envelope;
         e.id == ref && e.from == route.value.0 && e.to == agent && e.origin == Some(project) && e.kind != SYNC_ACK
    }

    /** What an item says is how the message stands. */
    predicate Current(agent: string, item: Item)
      reads this
    {
      var s := Slot(agent, item.ref);
      && ParseFor(item.ref, agent) == Some((item.sender, agent)) && item.sender in seats && s in Held()
      && item.inNew == (s in arrived) && item.inCur == (s in kept)
    }

    method Preflight(agent: string, refs: seq<string>) returns (items: Option<seq<Item>>)
      requires Valid()
      ensures items.Some? ==> |items.value| == |refs|
      ensures items.Some? ==> forall i :: 0 <= i < |refs| ==>
        items.value[i].ref == refs[i] && Current(agent, items.value[i])
      ensures calm ==> (items.Some? <==> forall r :: r in refs ==> Acceptable(agent, r))
    {
      var found: seq<Item> := [];
      for i := 0 to |refs|
        invariant |found| == i
        invariant forall j :: 0 <= j < i ==> found[j].ref == refs[j] && Current(agent, found[j])
        invariant calm ==> forall j :: 0 <= j < i ==> Acceptable(agent, refs[j])
      {
        var item := Inbound(agent, refs[i]);
        if item.None? { return None; }
        found := found + [item.value];
      }
      items := Some(found);
    }

    /** Look through one sender's inbox for receipts that name any of the wanted messages. It never
        finds a receipt that fails to prove the route, nor two receipts for one message. */
    method Collect(agent: string, sender: string, wanted: seq<string>) returns (e: Evidence)
      requires Valid()
      requires forall r :: r in wanted ==> ParseFor(r, agent) == Some((sender, agent))
      ensures !e.Conflict?
      ensures calm ==> e.Found?
      ensures e.Found? ==> e.receipts.Keys == set r | r in wanted && Named(Held(), files, sender, r)
      ensures e.Found? ==> forall r :: r in e.receipts ==> Names(Held(), files, e.receipts[r], sender, r)
    {
      var read, verdict, found := Scan(agent, sender, wanted);
      if !read { return Unreadable; }
      CoversAll(Held(), files, sender, wanted, QuietSlots(sender), found);
      e := if verdict.Fine? then Found(found) else Conflict(verdict);
    }

    method Scan(agent: string, sender: string, wanted: seq<string>)
      returns (read: bool, verdict: Verdict, found: map<string, Slot>)
      requires Valid()
      requires forall r :: r in wanted ==> ParseFor(r, agent) == Some((sender, agent))
      ensures verdict.Fine?
      ensures calm ==> read
      ensures read ==> Covers(Held(), files, sender, wanted, QuietSlots(sender), found)
    {
      read, verdict, found := true, Fine, map[];
      var slots := QuietSlots(sender);
      var left := slots;
      while left != {} && verdict.Fine?
        invariant left <= slots && verdict.Fine?
        invariant Covers(Held(), files, sender, wanted, slots - left, found)
        decreases left
      {
        var s :| s in left;
        var f := Tick(calm);
        if !f.Go? {
          read := false;
          return;
        }
        verdict, found := Judge(agent, sender, s, wanted, found, slots - left);
        left := left - {s};
        assert slots - left == slots - (left + {s}) + {s};
      }
      assert slots - left == slots;
    }

    function QuietSlots(inbox: string): set<Slot>
      reads this
    {
      set s | s in Held() && s.inbox == inbox && Quiet(s.name)
    }

    /** The two complaints a receipt can cause, neither of which a sound mailbox ever raises. */
    method Judge(agent: string, sender: string, s: Slot, wanted: seq<string>, found: map<string, Slot>,
                 ghost done: set<Slot>)
      returns (v: Verdict, next: map<string, Slot>)
      requires Valid() && s in Held() && s.inbox == sender && Quiet(s.name)
      requires forall r :: r in wanted ==> ParseFor(r, agent) == Some((sender, agent))
      requires Covers(Held(), files, sender, wanted, done, found)
      ensures v.Fine?
      ensures Covers(Held(), files, sender, wanted, done + {s}, next)
    {
      var p := files[Held()[s]];
      assert Stands(Held(), files, s);
      forall r | r in wanted && r in RefsIn(p)
        ensures p.envelope.from == agent && (r in found ==> found[r] == s)
      {
        assert Names(Held(), files, s, sender, r);
        ReceiptIsOurs(Held(), files, project, s, sender, agent, r);
      }
      var overlap := set r | r in wanted && r in RefsIn(p);
      v := if !p.Mail? || (overlap != {} && !(Proper(s, p, project) && p.envelope.from == agent)) then Unproven
           else if exists r :: r in overlap && r in found && found[r] != s then Multiple
           else Fine;
      CoverOne(Held(), files, sender, wanted, done, found, s);
      next := WithReceipt(found, s, p, wanted);
    }

    /** Every receipt that already answers a message of the batch. */
    method Gather(agent: string, items: seq<Item>) returns (e: Evidence)
      requires Valid() && forall i :: 0 <= i < |items| ==> Current(agent, items[i])
      ensures !e.Conflict?
      ensures calm ==> e.Found?
      ensures e.Found? ==> forall i :: 0 <= i < |items| ==>
        (items[i].ref in e.receipts <==> Named(Held(), files, items[i].sender, items[i].ref))
    {
      var senders, groups := GroupBySender(items);
      var receipts: map<string, Slot> := map[];
      for k := 0 to |senders|
        invariant forall i :: 0 <= i < |items| && items[i].ref in receipts ==>
          Named(Held(), files, items[i].sender, items[i].ref)
        invariant forall i :: 0 <= i < |items| && items[i].sender in senders[..k] ==>
          Named(Held(), files, items[i].sender, items[i].ref) ==>
          items[i].ref in receipts
      {
        var sender := senders[k];
        assert sender in groups;
        RefsFromMembers(items, sender);
        e := Collect(agent, sender, groups[sender]);
        if !e.Found? { return; }
        forall i | 0 <= i < |items| && items[i].ref in e.receipts
          ensures items[i].sender == sender
        {
          assert Current(agent, items[i]);
        }
        receipts := receipts + e.receipts;
      }
      assert senders[..|senders|] == senders;
      e := Found(receipts);
    }

    /** Every seat has an unused mark for a receipt of this agent: nonces are random. */
    predicate Ready(agent: string, marks: map<string, Mark>)
      reads this
    {
      forall t :: t in seats ==>
        t in marks && (Agent(agent) && Agent(t) ==>
          Tokened(agent, t, marks[t]) && ReceiptSlot(agent, t, marks[t]) !in Held())
    }

    /** One receipt for each sender whose messages are still unanswered. */
    method PublishAll(agent: string, pending: seq<Item>, note: string, marks: map<string, Mark>)
      returns (status: Status, some: bool)
      requires Valid() && Envelopes.Canonical(project) && Ready(agent, marks)
      requires DistinctItems(pending)
      requires forall i :: 0 <= i < |pending| ==>
        Current(agent, pending[i]) && Listable(pending[i].ref) &&
        !Named(Held(), files, pending[i].sender, pending[i].ref)
      modifies `arrived, `files, `nextInode, `drafts
      ensures Progress() && Undisturbed()
      ensures status.Committed? || status.Unknown? || status.Died?
      ensures status.Committed? ==> forall i :: 0 <= i < |pending| ==>
        Named(Held(), files, pending[i].sender, pending[i].ref)
      ensures calm ==> status.Committed?
    {
      var senders, groups := GroupBySender(pending);
      forall j | 0 <= j < |senders|
        ensures Unserved(agent, senders[j], groups, marks)
      {
        GroupIsUnserved(agent, pending, senders[j], groups, marks);
      }
      status, some := ServeAll(agent, senders, groups, note, marks);
      if !status.Committed? { return; }
      forall i | 0 <= i < |pending|
        ensures Named(Held(), files, pending[i].sender, pending[i].ref)
      {
        RefsFromMembers(pending, pending[i].sender);
        var j :| 0 <= j < |senders| && senders[j] == pending[i].sender;
        assert Served(senders[j], groups);
      }
    }

    method ServeAll(agent: string, senders: seq<string>, groups: map<string, seq<string>>, note: string,
                    marks: map<string, Mark>)
      returns (status: Status, some: bool)
      requires Valid() && Envelopes.Canonical(project) && Distinct(senders)
      requires forall j :: 0 <= j < |senders| ==> Unserved(agent, senders[j], groups, marks)
      modifies `arrived, `files, `nextInode, `drafts
      ensures Progress() && Undisturbed()
      ensures status.Committed? || status.Unknown? || status.Died?
      ensures status.Committed? ==> forall j :: 0 <= j < |senders| ==> Served(senders[j], groups)
      ensures calm ==> status.Committed?
    {
      hide Keeps, Sound, Whole, Named;
      KeepsSelf(Held(), files);
      status, some := Committed, false;
      var k := 0;
      while k < |senders| && status.Committed?
        invariant 0 <= k <= |senders| && (status.Committed? || status.Unknown? || status.Died?) &&
                  (calm ==> status.Committed?)
        invariant Progress() && Undisturbed()
        invariant status.Committed? ==> forall j :: 0 <= j < k ==> Served(senders[j], groups)
        invariant status.Committed? ==> forall j :: k <= j < |senders| ==> Unserved(agent, senders[j], groups, marks)
        decreases |senders| - k, status.Committed?
      {
        ghost var held, docs := Held(), files;
        status := Serve(agent, senders[k], groups, note, marks);
        KeepsAlong(old(Held()), old(files), held, docs, Held(), files);
        if status.Committed? {
          some := true;
          k := k + 1;
        }
      }
    }

    /** Every file held before stands in new/ exactly if it did. */
    twostate predicate Undisturbed()
      reads this
    {
      forall s :: s in old(Held()) ==> s in Held() && (s in arrived) == (s in old(arrived))
    }

    ghost predicate Served(sender: string, groups: map<string, seq<string>>)
      reads this
    {
      sender in groups && forall r :: r in groups[sender] ==> Named(Held(), files, sender, r)
    }

    lemma GroupIsUnserved(agent: string, pending: seq<Item>, sender: string, groups: map<string, seq<string>>,
                          marks: map<string, Mark>)
      requires DistinctItems(pending) && Ready(agent, marks)
      requires sender in groups && groups[sender] != [] && groups[sender] == RefsFrom(pending, sender)
      requires forall i :: 0 <= i < |pending| ==>
        Current(agent, pending[i]) && Listable(pending[i].ref) &&
        !Named(Held(), files, pending[i].sender, pending[i].ref)
      ensures Unserved(agent, sender, groups, marks)
    {
      RefsFromMembers(pending, sender);
      RefsFromDistinct(pending, sender);
      var first := groups[sender][0];
      assert first in groups[sender];
      var i :| 0 <= i < |pending| && pending[i].ref == first && pending[i].sender == sender;
      assert Current(agent, pending[i]);
      ParsedAreAgents(first, agent);
    }

    /** Publishing for one sender serves its group and leaves the other senders as they were. */
    method Serve(agent: string, sender: string, groups: map<string, seq<string>>, note: string,
                 marks: map<string, Mark>)
      returns (status: Status)
      requires Valid() && Envelopes.Canonical(project) && Unserved(agent, sender, groups, marks)
      modifies `arrived, `files, `nextInode, `drafts
      ensures Progress()
      ensures Undisturbed()
      ensures status.Committed? || status.Unknown? || status.Died?
      ensures status.Committed? ==> Served(sender, groups)
      ensures calm ==> status.Committed?
      ensures forall other :: old(Served(other, groups)) ==> Served(other, groups)
      ensures forall other :: other != sender && old(Unserved(agent, other, groups, marks)) ==>
        Unserved(agent, other, groups, marks)
    {
      status := PublishReceipt(agent, sender, groups[sender], note, marks[sender]);
      KeepsAllNamed(old(Held()), old(files), Held(), files);
    }

    /** This sender's group is routed, and no receipt names any of it yet. */
    ghost predicate Unserved(agent: string, sender: string, groups: map<string, seq<string>>, marks: map<string, Mark>)
      reads this
    {
      && sender in groups && sender in marks
      && Routed(agent, sender, groups[sender]) && Tokened(agent, sender, marks[sender])
      && ReceiptSlot(agent, sender, marks[sender]) !in Held()
      && forall r :: r in groups[sender] ==> !Named(Held(), files, sender, r)
    }

    predicate Done(agent: string, ref: string)
      reads this
    {
      Slot(agent, ref) in kept && Slot(agent, ref) !in arrived
    }

    /** From here on the batch is as its preflight found it, and what is not archived is answered. */
    ghost predicate Archivable(agent: string, items: seq<Item>, from: nat)
      reads this
    {
      forall j :: from <= j < |items| ==>
        Current(agent, items[j]) && (!items[j].inCur ==> Named(Held(), files, items[j].sender, items[j].ref))
    }

    predicate AllDone(agent: string, refs: seq<string>)
      reads this
    {
      forall ref :: ref in refs ==> Done(agent, ref)
    }

    /** Archive what is not archived yet. After an error the message is looked at once more, because
        its move may have taken effect; the report lists exactly what is known to be archived. */
    method ArchiveAll(agent: string, items: seq<Item>) returns (r: Report)
      requires Valid() && DistinctItems(items) && Archivable(agent, items, 0)
      modifies `arrived, `kept, `archived
      ensures Valid() && Held() == old(Held()) && old(archived) <= archived
      ensures r.status.Committed? || r.status.Partial? || r.status.Died?
      ensures AllDone(agent, r.archived)
      ensures r.status.Committed? ==> forall i :: 0 <= i < |items| ==> items[i].ref in r.archived
      ensures calm ==> r.status.Committed?
    {
      var done, i, f := ArchiveEach(agent, items);
      if f.Fail? {
        r := Settle(agent, items, done, Slot(agent, items[i].ref));
      } else {
        r := Report(if f.Go? then Committed else Died, done);
      }
    }

    method ArchiveEach(agent: string, items: seq<Item>) returns (done: seq<string>, i: nat, f: Fault)
      requires Valid() && DistinctItems(items) && Archivable(agent, items, 0)
      modifies `arrived, `kept, `archived
      ensures Valid() && Held() == old(Held()) && old(archived) <= archived
      ensures AllDone(agent, done)
      ensures f.Go? ==> Listed(items, |items|, done)
      ensures (f.Fail? ==> i < |items|) && (calm ==> f.Go?)
    {
      done := AlreadyArchived(agent, items);
      i, f := 0, Go;
      while i < |items| && f.Go?
        invariant 0 <= i <= |items| && (calm ==> f.Go?) && (f.Fail? ==> i < |items|)
        invariant Valid() && Held() == old(Held()) && old(archived) <= archived
        invariant f.Go? ==> Archivable(agent, items, i)
        invariant Listed(items, i, done) && AllDone(agent, done)
        decreases |items| - i, f.Go?
      {
        f := ArchiveItem(agent, items, i, done);
        if f.Go? {
          ListMore(items, i, done);
          if !items[i].CurOnly() { done := done + [items[i].ref]; }
          i := i + 1;
        }
      }
    }

    method ArchiveItem(agent: string, items: seq<Item>, i: nat, ghost done: seq<string>) returns (f: Fault)
      requires Valid() && i < |items| && DistinctItems(items) && AllDone(agent, done) && Archivable(agent, items, i)
      modifies `arrived, `kept, `archived
      ensures Valid() && Held() == old(Held()) && old(archived) <= archived
      ensures Archivable(agent, items, i + 1) && AllDone(agent, done)
      ensures f.Go? ==> AllDone(agent, done + [items[i].ref])
      ensures calm ==> f.Go?
    {
      hide Keeps, Sound, Whole, Named;
      assert Current(agent, items[i]);
      if items[i].CurOnly() { return Go; }
      assert items[i].ref !in done;
      f := Archive(Slot(agent, items[i].ref));
      forall j | i < j < |items|
        ensures Current(agent, items[j])
      {
        assert old(Current(agent, items[j]));
        assert Slot(agent, items[j].ref) != Slot(agent, items[i].ref);
      }
    }

    method AlreadyArchived(agent: string, items: seq<Item>) returns (done: seq<string>)
      requires forall i :: 0 <= i < |items| ==> Current(agent, items[i])
      ensures Listed(items, 0, done) && AllDone(agent, done)
    {
      done := [];
      for i := 0 to |items|
        invariant forall j :: 0 <= j < i && items[j].CurOnly() ==> items[j].ref in done
        invariant AllDone(agent, done)
      {
        if items[i].CurOnly() {
          assert Current(agent, items[i]);
          done := done + [items[i].ref];
        }
      }
    }

    method Settle(agent: string, items: seq<Item>, done: seq<string>, s: Slot) returns (r: Report)
      requires s.inbox == agent && AllDone(agent, done)
      ensures r.status.Committed? || r.status.Partial?
      ensures AllDone(agent, r.archived)
      ensures r.status.Committed? ==> forall i :: 0 <= i < |items| ==> items[i].ref in r.archived
    {
      var f := Tick(calm);
      var seen := done + if f.Go? && s in kept && s !in arrived then [s.name] else [];
      var all := forall i :: 0 <= i < |items| ==> items[i].ref in seen;
      r := Report(if all then Committed else Partial, seen);
    }

    method StillPending(items: seq<Item>, answered: map<string, Slot>) returns (pending: seq<Item>)
      requires DistinctItems(items)
      ensures DistinctItems(pending)
      ensures forall p :: p in pending <==> p in items && !p.inCur && p.ref !in answered
    {
      pending := [];
      for i := 0 to |items|
        invariant DistinctItems(pending)
        invariant forall p :: p in pending <==> p in items[..i] && !p.inCur && p.ref !in answered
      {
        if !items[i].inCur && items[i].ref !in answered {
          forall p | p in pending
            ensures p.ref != items[i].ref
          {
            var j :| 0 <= j < i && items[j] == p;
          }
          pending := pending + [items[i]];
        }
      }
      assert items[..|items|] == items;
    }

    /** What holds after an acknowledgement, wherever it stopped. */
    twostate predicate Acknowledges(agent: string, refs: seq<string>, r: Report)
      reads this
    {
      && Progress()
      && AllDone(agent, r.archived)
      && (r.status.Rejected? ==> Held() == old(Held()) && arrived == old(arrived) && kept == old(kept))
      && (r.status.Committed? ==> forall ref :: ref in refs ==>
            Done(agent, ref) && (Slot(agent, ref) in old(kept) || Answered(Held(), files, Slot(agent, ref))))
    }

    /** Acknowledge a batch: check every message, find the receipts there are, publish the missing
        ones, then archive. It may stop anywhere; the same batch, or one that overlaps it, can be
        given again. */
    method Ack(agent: string, refs: seq<string>, note: string, marks: map<string, Mark>) returns (r: Report)
      requires Valid() && Envelopes.Canonical(project) && Ready(agent, marks)
      requires Distinct(refs) && forall ref :: ref in refs ==> Listable(ref)
      modifies `arrived, `kept, `archived, `files, `nextInode, `drafts
      ensures Acknowledges(agent, refs, r)
      ensures calm && (forall ref :: ref in refs ==> old(Acceptable(agent, ref))) ==> r.status.Committed?
    {
      var items := Preflight(agent, refs);
      if items.None? { return Report(Rejected, []); }
      var evidence := Gather(agent, items.value);
      if !evidence.Found? { return Report(Rejected, []); }
      r := Settled(agent, refs, items.value, evidence.receipts, note, marks);
    }

    /** The part of an acknowledgement that writes. */
    method Settled(agent: string, refs: seq<string>, items: seq<Item>, answered: map<string, Slot>, note: string,
                   marks: map<string, Mark>)
      returns (r: Report)
      requires Valid() && Envelopes.Canonical(project) && Ready(agent, marks)
      requires |items| == |refs| && DistinctItems(items)
      requires forall i :: 0 <= i < |refs| ==> items[i].ref == refs[i] && Listable(refs[i]) && Current(agent, items[i])
      requires forall i :: 0 <= i < |items| ==>
        (items[i].ref in answered <==> Named(Held(), files, items[i].sender, items[i].ref))
      modifies `arrived, `kept, `archived, `files, `nextInode, `drafts
      ensures Acknowledges(agent, refs, r)
      ensures calm ==> r.status.Committed?
    {
      var done := AlreadyArchived(agent, items);
      var status, some := PublishMissing(agent, items, answered, note, marks);
      if status.Committed? {
        r := ArchiveAll(agent, items);
      } else {
        var known := some || |answered| > 0 || |done| > 0;
        r := Report(if status.Died? then Died else if known then Partial else Unknown, done);
      }
    }

    /** Publish what receipts are missing; then every message of the batch may be archived. */
    method PublishMissing(agent: string, items: seq<Item>, answered: map<string, Slot>, note: string,
                          marks: map<string, Mark>)
      returns (status: Status, some: bool)
      requires Valid() && Envelopes.Canonical(project) && Ready(agent, marks) && DistinctItems(items)
      requires forall i :: 0 <= i < |items| ==> Listable(items[i].ref) && Current(agent, items[i])
      requires forall i :: 0 <= i < |items| ==>
        (items[i].ref in answered <==> Named(Held(), files, items[i].sender, items[i].ref))
      modifies `arrived, `files, `nextInode, `drafts
      ensures Progress() && Undisturbed()
      ensures status.Committed? || status.Unknown? || status.Died?
      ensures status.Committed? ==> Archivable(agent, items, 0)
      ensures calm ==> status.Committed?
    {
      hide Sound, Whole;
      var pending := StillPending(items, answered);
      status, some := PublishAll(agent, pending, note, marks);
      KeepsAllNamed(old(Held()), old(files), Held(), files);
      forall i | 0 <= i < |items|
        ensures Current(agent, items[i])
        ensures !items[i].inCur && status.Committed? ==> Named(Held(), files, items[i].sender, items[i].ref)
      {
        assert old(Current(agent, items[i]));
        assert items[i] in pending || items[i].inCur || items[i].ref in answered;
      }
    }

    /** Someone else's message arrives; only this code writes quiet receipts. */
    method Deliver(s: Slot, p: Envelopes.Parsed)
      requires Valid() && s !in Held() && !Quiet(s.name)
      modifies `arrived, `files, `nextInode
      ensures Progress()
    {
      var _ := Appear(s, p);
    }

    /** Someone else archives a file, or stops half way through it. */
    method Drain(s: Slot, whole: bool)
      requires Valid()
      modifies `arrived, `kept
      ensures Valid() && Held() == old(Held())
    {
      if s in arrived && s !in kept {
        LinkingKeepsWhole(arrived, kept, files, nextInode, archived, project, s, {});
        assert archived + {} == archived;
        kept := kept[s := arrived[s]];
      }
      if whole && s in arrived { var _ := Unlink(s); }
    }

    method Perform(a: Action)
      requires Valid() && Envelopes.Canonical(project)
      modifies `arrived, `kept, `archived, `files, `nextInode, `drafts
      ensures Progress()
    {
      match a
      case Deliver(s, p) => if s !in Held() && !Quiet(s.name) { Deliver(s, p); }
      case Drain(s, whole) => Drain(s, whole);
      case Ack(agent, refs, note, marks) =>
        if Ready(agent, marks) && Distinct(refs) && (forall ref :: ref in refs ==> Listable(ref)) {
          var _ := Ack(agent, refs, note, marks);
        }
    }

    /** Over any sequence of batches, overlapping or repeated, stopped anywhere, among deliveries and
        other archiving: no file is lost or changed, no message is named by two receipts, and
        whatever this code archived has its receipt. */
    method Run(actions: seq<Action>)
      requires Valid() && Envelopes.Canonical(project)
      modifies `arrived, `kept, `archived, `files, `nextInode, `drafts
      ensures Progress()
      ensures forall s, t, inbox, ref :: Names(Held(), files, s, inbox, ref) && Names(Held(), files, t, inbox, ref) ==>
        s == t
      ensures forall s :: s in archived ==> Answered(Held(), files, s)
      ensures forall s :: s in old(Held()) ==> s in arrived || s in kept
    {
      for k := 0 to |actions|
        invariant Progress()
      {
        ghost var held, docs := Held(), files;
        Perform(actions[k]);
        KeepsAlong(old(Held()), old(files), held, docs, Held(), files);
      }
    }
  }

  /** Collect a batch by sender, senders in order of first appearance. */
  method GroupBySender(items: seq<Item>) returns (senders: seq<string>, groups: map<string, seq<string>>)
    ensures Grouped(items, senders, groups)
  {
    senders, groups := [], map[];
    for i := 0 to |items|
      invariant Grouped(items[..i], senders, groups)
    {
      var item := items[i];
      assert items[..i + 1] == items[..i] + [item];
      if item.sender !in groups {
        NewSenderGrouped(items[..i], item, senders, groups);
        senders := senders + [item.sender];
        groups := groups[item.sender := [item.ref]];
      } else {
        KnownSenderGrouped(items[..i], item, senders, groups);
        groups := groups[item.sender := groups[item.sender] + [item.ref]];
      }
    }
    assert items[..|items|] == items;
  }
}
