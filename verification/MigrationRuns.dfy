/** Whole runs of migrations, rollbacks, deliveries, archivals, purges, stray writers and crashes. */
module MigrationRuns {
  import opened Wrappers
  import opened Migration

  /** What happens without the layout lock, between two runs or while one is going on. The purge a run of
      migrate leaves behind opens the directory it was given, then removes what is in it, one entry at
      a time; what it removes lies in the directory it opened, whatever the name denotes by then. */
  datatype Unlocked =
    | OpenPurge(retired: ShelfName)
    | Removal(retired: ShelfName)
    | Stray(mail: Mail)
    | Bookmarked(replacement: Bookmark)

  /** What a process does under the layout lock, and what goes on without it. A migrate or rollback run
      may end at any crash point. What happens inside a run of migrate falls before it compares the local
      tree and looks at the retired directories. A purge step that comes later touches no directory the
      run still reads or writes, so it is the same after the run; for a stray write that comes later, see
      LateStray. A rollback, and a migrate that starts from the local layout, retire under an id of their
      own and look at no name in use: purge steps inside them are the same before the run. */
  datatype Action =
    | RunMigrate(inside: seq<Unlocked>)
    | RunRollback(manifest: Ref)
    | Deposit(name: string, content: string)
    | Move(source: string, destination: string)
    | Free(step: Unlocked)

  /** A retired directory, as it stood when the run that made it ended. */
  type Tree = (ShelfName, Shelf)

  predicate Intact(tree: Tree, shelves: map<ShelfName, Shelf>) {
    tree.0 in shelves && shelves[tree.0] == tree.1
  }

  /** It holds no mail, or it is the whole snapshot that the backup of a forward cutover keeps. */
  ghost predicate Committed(shelf: Shelf, archives: map<OpId, Record>) {
    HoldsNoMail(shelf) ||
    exists g :: g in archives && archives[g].direction.Forward? && IsExactly(shelf, archives[g].mail)
  }

  /** No retired tree was lost but the ones handed over. */
  ghost predicate Safe(retired: set<Tree>, handed: set<Tree>, shelves: map<ShelfName, Shelf>) {
    forall t :: t in retired ==> Intact(t, shelves) || t in handed
  }

  ghost predicate Honest(handed: set<Tree>, archives: map<OpId, Record>) {
    forall t: Tree :: t in handed ==> Committed(t.1, archives)
  }

  /** Where a purge will reach stands no whole tree but one handed over. */
  ghost predicate Guarded(waiting: multiset<ShelfName>, purging: set<ShelfName>, retired: set<Tree>, handed: set<Tree>,
                          shelves: map<ShelfName, Shelf>)
  {
    forall t :: t in retired && Intact(t, shelves) && (t.0 in waiting || t.0 in purging) ==> t in handed
  }

  /** Every name a purge was given was in use before. */
  ghost predicate Known(waiting: multiset<ShelfName>, next: OpId) {
    forall n :: n in waiting ==> !NeverUsed(n, next)
  }

  /** The directories a run made. */
  ghost function NewTrees(before: map<ShelfName, Shelf>, after: map<ShelfName, Shelf>): set<Tree> {
    set n | n in after && n !in before :: (n, after[n])
  }

  lemma CommittedIsDisposable(shelf: Shelf, archives: map<OpId, Record>)
    requires Committed(shelf, archives)
    ensures Disposable(shelf, archives)
  {
    if !HoldsNoMail(shelf) {
      var g :| g in archives && archives[g].direction.Forward? && IsExactly(shelf, archives[g].mail);
      assert PartOf(shelf, archives[g].mail);
    }
  }

  lemma PurgeableIsDisposable(p: Project, name: ShelfName)
    requires p.Valid() && p.Purgeable(name)
    ensures Committed(p.shelves[name], p.archives) && Disposable(p.shelves[name], p.archives)
  {
    if !HoldsNoMail(p.shelves[name]) {
      var g := p.central.value.op;
      assert p.archives[g].mail == p.central.value.digest;
      assert Committed(p.shelves[name], p.archives);
    }
    CommittedIsDisposable(p.shelves[name], p.archives);
  }

  lemma HonestStays(handed: set<Tree>, before: map<OpId, Record>, after: map<OpId, Record>)
    requires Honest(handed, before) && Grows(before, after)
    ensures Honest(handed, after)
  {
    forall t: Tree | t in handed
      ensures Committed(t.1, after)
    {
      if !HoldsNoMail(t.1) {
        var g :| g in before && before[g].direction.Forward? && IsExactly(t.1, before[g].mail);
        assert g in after && after[g] == before[g];
      }
    }
  }

  /** Runs that make directories under names no purge knows leave every purge where it was. */
  lemma NewTreesAreGuarded(waiting: multiset<ShelfName>, purging: set<ShelfName>, retired: set<Tree>, handed: set<Tree>,
                           before: map<ShelfName, Shelf>, after: map<ShelfName, Shelf>, next: OpId, op: Option<OpId>)
    requires Preserved(before, after) && purging <= before.Keys
    requires Safe(retired, handed, before) && Guarded(waiting, purging, retired, handed, before)
    requires NewNames(before, after, next, op) && Known(waiting, next)
    requires op.Some? && Plain(op.value) in waiting && Plain(op.value) !in before ==> after == before
    ensures Safe(retired + NewTrees(before, after), handed, after)
    ensures Guarded(waiting, purging, retired + NewTrees(before, after), handed, after)
  {
    forall t | t in retired + NewTrees(before, after) && Intact(t, after) && (t.0 in waiting || t.0 in purging)
      ensures t in handed
    {
      assert t.0 in before;
      assert Intact(t, before);
    }
  }

  /** A removal inside a directory that a purge has open destroys no tree but one handed over. */
  lemma RemovalIsSafe(waiting: multiset<ShelfName>, purging: set<ShelfName>, retired: set<Tree>, handed: set<Tree>,
                      before: map<ShelfName, Shelf>, after: map<ShelfName, Shelf>, name: ShelfName)
    requires Safe(retired, handed, before) && Guarded(waiting, purging, retired, handed, before) && name in purging
    requires after - {name} == before - {name}
    requires name in before && (name in after ==> after[name] != before[name])
    ensures Safe(retired, handed, after) && Guarded(waiting, purging, retired, handed, after)
  {
    forall t | t in retired
      ensures Intact(t, after) || t in handed
      ensures Intact(t, after) && (t.0 in waiting || t.0 in purging) ==> t in handed
    {
      if t.0 != name {
        assert t.0 in after <==> t.0 in after - {name};
        assert t.0 in before <==> t.0 in before - {name};
        assert Intact(t, after) <==> Intact(t, before);
      } else if Intact(t, before) {
        assert t in handed;
      }
    }
  }

  /** No backup of a forward cutover has all these files. */
  ghost predicate Unkept(mail: Mail, archives: map<OpId, Record>) {
    forall g :: g in archives ==> !(mail.inbox.Items <= archives[g].mail.inbox.Items)
  }

  /** There always is such mail. */
  method StrayMail(archives: map<OpId, Record>) returns (mail: Mail)
    ensures Unkept(mail, archives)
  {
    var path, longest: nat, left := "1", 0, archives.Keys;
    while left != {}
      invariant left <= archives.Keys
      invariant forall g :: g in archives && g !in left && path in archives[g].mail.inbox ==>
                  |archives[g].mail.inbox[path]| <= longest
    {
      var g :| g in left;
      left := left - {g};
      if path in archives[g].mail.inbox && longest < |archives[g].mail.inbox[path]| {
        longest := |archives[g].mail.inbox[path]|;
      }
    }
    var content := seq(longest + 1, i => 'x');
    mail := Mail(map[path := content], map[]);
    assert (path, content) in mail.inbox.Items;
  }

  lemma UnkeptIsNotDisposable(s: Shelf, mail: Mail, archives: map<OpId, Record>)
    requires s.inbox == Some(mail.inbox) && Unkept(mail, archives)
    ensures !Disposable(s, archives)
  {
    forall g | g in archives
      ensures !PartOf(s, archives[g].mail)
    {
      assert HalfOf(s.inbox) == mail.inbox;
    }
  }

  /** A project, the purges that runs of migrate have left behind, and the history of its retired trees. */
  class Host {
    const p: Project

    /** The names given to purges that have not opened their directory yet, and the directories open for purging. */
    var waiting: multiset<ShelfName>
    var purging: set<ShelfName>

    /** Every tree that stood retired at the start or was retired since, and every tree handed to a purge. */
    ghost var retired: set<Tree>
    ghost var handed: set<Tree>

    /** Some run of migrate began in a hazard. */
    ghost var overlapped: bool

    constructor (p: Project)
      requires p.Valid()
      ensures Inv() && this.p == p && !overlapped
      ensures waiting == multiset{} && purging == {} && handed == {} && retired == p.shelves.Items
    {
      this.p := p;
      waiting, purging, retired, handed, overlapped := multiset{}, {}, p.shelves.Items, {}, false;
    }

    ghost predicate Inv()
      reads this, p
    {
      && p.Valid()
      && purging <= p.shelves.Keys
      && Known(waiting, p.nextOp)
      && Honest(handed, p.archives)
      && (!overlapped ==> Safe(retired, handed, p.shelves) && Guarded(waiting, purging, retired, handed, p.shelves))
    }

    /** A purge waits on the name that a rerun would use again, and that name is free, or can become free
        inside the run while the purge still waits, because another purge waits on it or has it open. */
    predicate Hazard()
      reads this, p
    {
      && p.layout.Central? && p.central.Some?
      && var name := Plain(p.central.value.op);
         name in waiting && (name !in p.shelves || waiting[name] > 1 || name in purging)
    }

    /** One run of migrate, with what goes on without the lock while it lasts, and the start of the purge
        it leaves behind. It returns the retired directories that its look saw. */
    method Migrates(inside: seq<Unlocked>)
      returns (r: Outcome, purge: Option<ShelfName>, ghost seen: map<ShelfName, Shelf>)
      requires Inv()
      modifies this, p
      ensures Inv()
      ensures p.events == old(p.events) && overlapped == old(overlapped || Hazard())
      ensures seen.Keys <= old(p.shelves).Keys && Preserved(seen, p.shelves)
      ensures retired == old(retired) + NewTrees(seen, p.shelves)
      ensures purge.None? ==> handed == old(handed)
      ensures purge.Some? ==>
        && r.Done? && p.Purgeable(purge.value) && purge.value in waiting
        && handed == old(handed) + {(purge.value, p.shelves[purge.value])}
    {
      hide CentralBound, MarkerBound, RecordsAgree, Minted, RetirementFree, Safe, Guarded, Honest, Known;
      var f := Begins();
      for i := 0 to |inside|
        invariant Inv() && (!overlapped ==> !Hazard()) && overlapped == old(overlapped || Hazard())
        invariant p.events == old(p.events) && p.shelves.Keys <= old(p.shelves).Keys
        invariant retired == old(retired) && handed == old(handed)
      {
        Happens(inside[i]);
      }
      seen := p.shelves;
      r, purge := Finishes(f);
    }

    /** Up to the look. A run that starts from the local layout has none that matters. */
    method Begins() returns (f: Fault)
      requires Inv()
      modifies `overlapped, p`central, p`records, p`stagedRecords
      ensures Inv() && overlapped == old(overlapped || Hazard()) && Hazard() == old(Hazard())
      ensures p.layout.Central? ==> SameGeneration(old(p.central), p.central) && (f.Go? ==> p.MigrateReady())
      ensures p.layout.Central? && p.calm ==> (f.Go? <==> old(p.MigrateReady()))
      ensures p.layout.Local? ==> f.Go? && p.central == old(p.central)
    {
      hide CentralBound, MarkerBound, RecordsAgree, Minted, RetirementFree, Safe, Guarded, Honest, Known;
      overlapped := overlapped || Hazard();
      f := Go;
      if p.layout.Central? { f := p.BeginCentral(); }
    }

    /** From the look to the end of the run. */
    method Finishes(f: Fault) returns (r: Outcome, purge: Option<ShelfName>)
      requires Inv() && (!overlapped ==> !Hazard())
      modifies this, p
      ensures Inv()
      ensures p.calm == old(p.calm) && p.events == old(p.events) && overlapped == old(overlapped)
      ensures Preserved(old(p.shelves), p.shelves)
      ensures purging == old(purging) && retired == old(retired) + NewTrees(old(p.shelves), p.shelves)
      ensures purge.None? ==> waiting == old(waiting) && handed == old(handed)
      ensures purge.Some? ==>
        && r.Done? && p.Purgeable(purge.value)
        && waiting == old(waiting) + multiset{purge.value} &&
           handed == old(handed) + {(purge.value, p.shelves[purge.value])}
      // what the run itself promises
      ensures old(p.layout).Central? ==>
        && p.layout.Central? && p.central == old(p.central) && p.archives == old(p.archives) &&
           p.stagedRecords == old(p.stagedRecords)
        && (p.calm && f.Go? && !old(p.bookmark).Foreign? ==> r.Done? && !p.bookmark.Foreign?)
        && (r.Done? ==>
              Retires(old(p.inbox), old(p.messages), old(p.locks), old(p.shelves), p.shelves,
                      p.central.value.op, p.central.value.digest, purge))
      ensures old(p.layout).Local? && p.calm && f.Go? ==> (r.Done? <==> old(p.MigrateReady()))
      ensures old(p.layout).Local? && r.Done? ==>
        && HandsOver(purge, p.shelves, Plain(old(p.nextOp)), p.Box())
        && (old(p.central).None? ==> p.central.Some? && p.central.value.op == old(p.nextOp))
      ensures r.Done? ==> p.Migrated() && (old(p.layout).Local? ==> p.MigrateReady())
    {
      hide CentralBound, MarkerBound, RecordsAgree, Minted, RetirementFree, Safe, Guarded, Honest, Known;
      ghost var before, archives, next, op := p.shelves, p.archives, p.nextOp, RetiresUnder(p.layout, p.central);
      r, purge := Works(f);
      Note(before, archives, next, op);
      if purge.Some? { HandOver(purge.value); }
    }

    /** What the run does to the project. */
    method Works(f: Fault) returns (r: Outcome, purge: Option<ShelfName>)
      requires p.Valid()
      modifies p`layout, p`inbox, p`messages, p`locks, p`central, p`archives, p`records, p`stagedRecords,
               p`shelves, p`centralShelves, p`bookmark, p`nextOp
      ensures p.Valid() && p.nextOp >= old(p.nextOp)
      ensures Preserved(old(p.shelves), p.shelves) && Grows(old(p.archives), p.archives)
      ensures NewNames(old(p.shelves), p.shelves, old(p.nextOp), RetiresUnder(old(p.layout), old(p.central)))
      ensures purge.Some? ==> r.Done? && p.Purgeable(purge.value)
      ensures old(p.layout).Central? ==>
        && p.layout.Central? && p.central == old(p.central) && p.archives == old(p.archives) &&
           p.stagedRecords == old(p.stagedRecords)
        && (p.calm && f.Go? && !old(p.bookmark).Foreign? ==> r.Done? && !p.bookmark.Foreign?)
        && (r.Done? ==>
              Retires(old(p.inbox), old(p.messages), old(p.locks), old(p.shelves), p.shelves,
                      p.central.value.op, p.central.value.digest, purge))
      ensures old(p.layout).Local? && p.calm && f.Go? ==> (r.Done? <==> old(p.MigrateReady()))
      ensures old(p.layout).Local? && r.Done? ==>
        && HandsOver(purge, p.shelves, Plain(old(p.nextOp)), p.Box())
        && (old(p.central).None? ==> p.central.Some? && p.central.value.op == old(p.nextOp))
      ensures r.Done? ==> p.Migrated() && (old(p.layout).Local? ==> p.MigrateReady())
    {
      hide CentralBound, MarkerBound, RecordsAgree, RetirementFree;
      r, purge := Failure(f, false), None;
      if f.Go? {
        if p.layout.Central? {
          r, purge := p.FinishForward(p.central.value.op, false);
        } else {
          var rereadFailed;
          r, purge, rereadFailed := p.Migrate();
        }
      }
    }

    /** One thing that goes on without the lock. It brings no hazard about. */
    method Happens(step: Unlocked)
      requires Inv()
      modifies `waiting, `purging, p`shelves, p`inbox, p`messages, p`central, p`bookmark
      ensures Inv() && (old(!Hazard()) ==> !Hazard())
      ensures p.shelves.Keys <= old(p.shelves).Keys
    {
      hide CentralBound, MarkerBound, RecordsAgree, Minted, RetirementFree, Safe, Guarded, Honest, Known;
      match step
      case OpenPurge(name) => Opens(name);
      case Removal(name) => Removes(name);
      case Stray(mail) => p.StrayWrite(mail);
      case Bookmarked(replacement) => p.ReplaceBookmark(replacement);
    }

    method RollsBack(manifest: Ref) returns (r: Outcome)
      requires Inv()
      modifies this, p
      ensures Inv()
      ensures p.calm == old(p.calm) && p.events == old(p.events)
      ensures overlapped == old(overlapped) && waiting == old(waiting) && purging == old(purging)
      ensures retired == old(retired) + NewTrees(old(p.shelves), p.shelves) && handed == old(handed)
    {
      ghost var before, archives, next := p.shelves, p.archives, p.nextOp;
      var rereadFailed;
      r, rereadFailed := p.Rollback(manifest);
      Note(before, archives, next, None);
    }

    /** The removal of a retired directory begins by opening it. If it is gone there is nothing to purge. */
    method Opens(name: ShelfName)
      requires Inv()
      modifies `waiting, `purging
      ensures Inv()
      ensures waiting == old(waiting) - multiset{name}
      ensures purging == if name in old(waiting) && name in p.shelves then old(purging) + {name} else old(purging)
    {
      if name in waiting && name in p.shelves { purging := purging + {name}; }
      waiting := waiting - multiset{name};
    }

    /** One unlink or rmdir by a purge that has the directory open; the last one ends the purge. */
    method Removes(name: ShelfName)
      requires Inv()
      modifies `purging, p`shelves
      ensures Inv()
      ensures p.shelves - {name} == old(p.shelves) - {name}
      ensures forall n :: n in p.shelves ==> n in old(p.shelves)
      ensures forall n :: n != name && n in old(p.shelves) ==> n in p.shelves
      ensures name !in old(purging) ==> p.shelves == old(p.shelves) && purging == old(purging)
      ensures name in old(purging) ==>
        && p.ShelfWeight(name) < old(p.ShelfWeight(name))
        && purging == if name in p.shelves then old(purging) else old(purging) - {name}
    {
      if name in purging {
        p.PurgeStep(name);
        forall n | n != name
          ensures n in p.shelves <==> n in old(p.shelves)
        {
          assert n in p.shelves - {name} <==> n in old(p.shelves) - {name};
        }
        if !overlapped {
          assert name in p.shelves ==> Weight(p.shelves[name]) < Weight(old(p.shelves)[name]);
          RemovalIsSafe(waiting, purging, retired, handed, old(p.shelves), p.shelves, name);
        }
        if name !in p.shelves { purging := purging - {name}; }
      }
    }

    /** A whole purge, uninterrupted. */
    method Purges(name: ShelfName)
      requires Inv() && name in waiting && name in p.shelves
      modifies `waiting, `purging, p`shelves
      ensures Inv()
      ensures name !in p.shelves && name !in purging && waiting == old(waiting) - multiset{name}
      ensures p.shelves == old(p.shelves) - {name}
    {
      Opens(name);
      Empties(name);
    }

    method Perform(action: Action)
      requires Inv()
      modifies this, p
      ensures Inv()
      ensures old(p.events) <= p.events
      ensures old(retired) <= retired && old(handed) <= handed
      ensures overlapped == old(overlapped || (action.RunMigrate? && Hazard()))
    {
      hide CentralBound, MarkerBound, RecordsAgree, Minted, RetirementFree, Safe, Guarded, Honest, Known;
      match action
      case RunMigrate(inside) =>
        var r, purge, seen := Migrates(inside);
      case RunRollback(manifest) =>
        var r := RollsBack(manifest);
      case Deposit(name, content) =>
        p.Deliver(name, content);
      case Move(source, destination) =>
        p.ArchiveMail(source, destination);
      case Free(step) =>
        Happens(step);
    }

    /** Every tree that was retired is still there, whole, or was handed to a purge and was then empty
        of mail or the whole snapshot that the backup of a committed cutover keeps. */
    ghost predicate OnlyCommittedLost()
      reads this, p
    {
      forall t :: t in retired ==> Intact(t, p.shelves) || (t in handed && Committed(t.1, p.archives))
    }

    /** Over every run, whatever the interleaving and the crash points: the tree the registry names
        holds exactly the abstract mailbox, and the abstract mailbox changes by deliveries and
        archivals alone. Unless some run of migrate began in a hazard, only committed trees are lost. */
    method Run(script: seq<Action>)
      requires Inv()
      modifies this, p
      ensures Inv()
      ensures old(p.events) <= p.events && p.Box() == Replay(p.origin, p.events)
      ensures old(retired) <= retired && old(handed) <= handed
      ensures !overlapped ==> OnlyCommittedLost()
    {
      for i := 0 to |script|
        invariant Inv()
        invariant old(p.events) <= p.events
        invariant old(retired) <= retired && old(handed) <= handed
      {
        Perform(script[i]);
      }
    }

    /** The same with the exact limit of what a purge may destroy: up to the first run of migrate that
        would begin in a hazard, nothing but committed trees is lost, of all that were retired before
        or during the run. */
    method RunToHazard(script: seq<Action>) returns (performed: nat)
      requires Inv() && !overlapped
      modifies this, p
      ensures Inv() && !overlapped
      ensures performed <= |script|
      ensures performed < |script| ==> script[performed].RunMigrate? && Hazard()
      ensures old(p.events) <= p.events && p.Box() == Replay(p.origin, p.events)
      ensures old(retired) <= retired && old(handed) <= handed && OnlyCommittedLost()
    {
      performed := 0;
      while performed < |script| && !(script[performed].RunMigrate? && Hazard())
        invariant performed <= |script| && Inv() && !overlapped
        invariant old(p.events) <= p.events
        invariant old(retired) <= retired && old(handed) <= handed
      {
        Perform(script[performed]);
        performed := performed + 1;
      }
    }

    /** The hazard is exact: wherever a run of migrate may begin in one, and is ready to succeed, it can
        lose mail. A stray writer leaves mail that no backup keeps; if the name is not free yet, the
        other purge takes its directory away while the run is going on; the run retires the stray tree
        under that name and means to keep it; the purge that waits for the name destroys it. */
    method Loses(mail: Mail) returns (lost: ShelfName, s: Shelf)
      requires Inv() && Hazard() && p.MigrateReady() && Unkept(mail, p.archives)
      modifies this, p
      ensures Inv()
      ensures p.events == old(p.events) && s.inbox == Some(mail.inbox) && s.messages == Some(mail.messages)
      ensures (lost, s) in retired && lost !in p.shelves && (lost, s) !in handed
      ensures !Disposable(s, p.archives)
    {
      hide CentralBound, MarkerBound, RecordsAgree, Minted, RetirementFree, Safe, Guarded, Honest, Known;
      lost := Plain(p.central.value.op);
      p.calm := true;
      var f := Begins();
      p.StrayWrite(mail);
      Vacates(lost);
      s := RetiresStray(f, mail, lost);
      Purges(lost);
    }

    /** The end of that run: the stray tree is retired under the name, and nobody was handed it. */
    method RetiresStray(f: Fault, mail: Mail, lost: ShelfName) returns (s: Shelf)
      requires Inv() && overlapped && p.calm && f.Go? && Unkept(mail, p.archives)
      requires p.layout.Central? && lost == Plain(p.central.value.op) && !p.bookmark.Foreign?
      requires p.inbox == Some(mail.inbox) && p.messages == Some(mail.messages) && lost !in p.shelves && lost in waiting
      modifies this, p
      ensures Inv()
      ensures p.events == old(p.events) && s.inbox == Some(mail.inbox) && s.messages == Some(mail.messages)
      ensures (lost, s) in retired && lost in p.shelves && lost in waiting && (lost, s) !in handed
      ensures !Disposable(s, p.archives)
    {
      hide CentralBound, MarkerBound, RecordsAgree, Minted, RetirementFree, Safe, Guarded, Known;
      var r, purge := Finishes(f);
      s := p.shelves[lost];
      assert (lost, s) in NewTrees(old(p.shelves), p.shelves);
      UnkeptIsNotDisposable(s, mail, p.archives);
    }

    /** Another purge of this name runs to its end, and one still waits. */
    method Vacates(name: ShelfName)
      requires Inv() && name in waiting && (name !in p.shelves || waiting[name] > 1 || name in purging)
      modifies `waiting, `purging, p`shelves
      ensures Inv() && name !in p.shelves && name in waiting
    {
      if name in p.shelves && name !in purging { Opens(name); }
      Empties(name);
    }

    /** A purge that has the directory open, uninterrupted. */
    method Empties(name: ShelfName)
      requires Inv() && (name in p.shelves ==> name in purging)
      modifies `purging, p`shelves
      ensures Inv() && name !in p.shelves && name !in purging
      ensures p.shelves == old(p.shelves) - {name}
    {
      while name in p.shelves
        invariant Inv() && (name in p.shelves ==> name in purging)
        invariant p.shelves - {name} == old(p.shelves) - {name}
        decreases p.ShelfWeight(name)
      {
        Removes(name);
      }
    }

    /** Enter the directories that a run has made into the history. */
    ghost method Note(before: map<ShelfName, Shelf>, archives: map<OpId, Record>, next: OpId, op: Option<OpId>)
      requires p.Valid() && Preserved(before, p.shelves) && Grows(archives, p.archives) && next <= p.nextOp
      requires purging <= before.Keys && Known(waiting, next) && Honest(handed, archives)
      requires !overlapped ==> Safe(retired, handed, before) && Guarded(waiting, purging, retired, handed, before)
      requires NewNames(before, p.shelves, next, op)
      requires op.Some? && Plain(op.value) in waiting && Plain(op.value) !in before ==>
        p.shelves == before || overlapped
      modifies `retired
      ensures Inv()
      ensures retired == old(retired) + NewTrees(before, p.shelves)
    {
      HonestStays(handed, archives, p.archives);
      if !overlapped {
        NewTreesAreGuarded(waiting, purging, retired, handed, before, p.shelves, next, op);
      }
      retired := retired + NewTrees(before, p.shelves);
    }

    /** Leave a retired tree to a purge. */
    method HandOver(name: ShelfName)
      requires Inv() && p.Purgeable(name)
      modifies this
      ensures Inv()
      ensures purging == old(purging) && waiting == old(waiting) + multiset{name}
      ensures retired == old(retired) && handed == old(handed) + {(name, p.shelves[name])}
      ensures overlapped == old(overlapped)
    {
      PurgeableIsDisposable(p, name);
      waiting := waiting + multiset{name};
      handed := handed + {(name, p.shelves[name])};
    }
  }

  // ---------------------------------------------------------------- convergence

  /** What the project does between two attempts: it delivers and archives mail. */
  method BetweenAttempts(p: Project, mail: seq<MailEvent>)
    requires p.Valid()
    modifies p`inbox, p`central, p`events
    ensures p.Valid()
    ensures old(p.MigrateReady()) ==> p.MigrateReady()
    ensures forall manifest :: old(p.RollbackReady(manifest)) ==> p.RollbackReady(manifest)
  {
    for i := 0 to |mail|
      invariant p.Valid()
      invariant old(p.MigrateReady()) ==> p.MigrateReady()
      invariant forall manifest :: old(p.RollbackReady(manifest)) ==> p.RollbackReady(manifest)
    {
      match mail[i]
      case Delivered(name, content) => p.Deliver(name, content);
      case Archived(source, destination) => p.ArchiveMail(source, destination);
    }
  }

  /** One attempt that may stop anywhere, and the mail that follows it. */
  method MigrateAttempt(p: Project, mail: seq<MailEvent>) returns (torn: bool)
    requires p.Valid() && p.MigrateReady()
    modifies p
    ensures p.Valid()
    ensures if torn then p.TornImport() else p.MigrateReady()
  {
    var outcome, purge, rereadFailed := p.Migrate();
    torn := p.TornImport();
    if !torn { BetweenAttempts(p, mail); }
  }

  method RollbackAttempt(p: Project, manifest: Ref, mail: seq<MailEvent>) returns (torn: bool)
    requires p.Valid() && p.RollbackReady(manifest)
    modifies p
    ensures p.Valid()
    ensures if torn then p.TornImport() else p.RollbackReady(manifest)
  {
    var outcome, rereadFailed := p.Rollback(manifest);
    torn := p.TornImport();
    if !torn { BetweenAttempts(p, mail); }
  }

  /** However many attempts fail or crash, and wherever they do, one undisturbed rerun of migrate
      converges, exactly unless a crash or a failed write tore one of the two files a legacy import
      stages under a fixed name; NeverConverges says that nothing converges then. */
  method MigrateConverges(p: Project, attempts: seq<seq<MailEvent>>) returns (r: Outcome)
    requires p.Valid() && p.MigrateReady()
    modifies p
    ensures p.Valid()
    ensures if r.Done? then p.Migrated() && p.MigrateReady() else p.TornImport()
  {
    p.calm := false;
    var torn, i := false, 0;
    while i < |attempts| && !torn
      invariant p.Valid() && if torn then p.TornImport() else p.MigrateReady()
    {
      torn := MigrateAttempt(p, attempts[i]);
      i := i + 1;
    }
    r := Crashed;
    if !torn {
      p.calm := true;
      var purge, rereadFailed;
      r, purge, rereadFailed := p.Migrate();
    }
  }

  /** The same for rollback, rerun with the same manifest. */
  method RollbackConverges(p: Project, manifest: Ref, attempts: seq<seq<MailEvent>>) returns (r: Outcome)
    requires p.Valid() && p.RollbackReady(manifest)
    modifies p
    ensures p.Valid()
    ensures if r.Done? then p.Restored(manifest) else p.TornImport()
  {
    p.calm := false;
    var torn, i := false, 0;
    while i < |attempts| && !torn
      invariant p.Valid() && if torn then p.TornImport() else p.RollbackReady(manifest)
    {
      torn := RollbackAttempt(p, manifest, attempts[i]);
      i := i + 1;
    }
    r := Crashed;
    if !torn { r := Undisturbed(p, manifest); }
  }

  method Undisturbed(p: Project, manifest: Ref) returns (r: Outcome)
    requires p.Valid() && p.RollbackReady(manifest)
    modifies p
    ensures p.Valid() && r.Done? && p.Restored(manifest)
  {
    p.calm := true;
    var rereadFailed;
    r, rereadFailed := p.Rollback(manifest);
  }


  /** What is torn stays torn: no run of migrate, or of rollback for any manifest, ever succeeds again. */
  method NeverConverges(p: Project, attempts: seq<Option<Ref>>) returns (outcomes: seq<Outcome>)
    requires p.Valid() && p.TornImport()
    modifies p
    ensures p.Valid() && p.TornImport()
    ensures |outcomes| == |attempts| && forall i :: 0 <= i < |outcomes| ==> !outcomes[i].Done?
  {
    outcomes := [];
    for i := 0 to |attempts|
      invariant p.Valid() && p.TornImport()
      invariant |outcomes| == i && forall k :: 0 <= k < i ==> !outcomes[k].Done?
    {
      var r := TornAttempt(p, attempts[i]);
      outcomes := outcomes + [r];
    }
  }

  method TornAttempt(p: Project, attempt: Option<Ref>) returns (r: Outcome)
    requires p.Valid() && p.TornImport()
    modifies p
    ensures p.Valid() && p.TornImport() && !r.Done?
  {
    var purge, rereadFailed;
    match attempt
    case None =>
      r, purge, rereadFailed := p.Migrate();
    case Some(manifest) =>
      r, rereadFailed := p.Rollback(manifest);
  }

  /** The torn import is reached: a project of an older version, ready to be migrated, whose first run
      dies inside the write of the recovery record. However often it is rerun, every rerun refuses. */
  method TornImportRefuses(mail: Mail, reruns: nat) returns (p: Project, first: Outcome, outcomes: seq<Outcome>)
    ensures fresh(p) && p.Valid() && p.TornImport()
    ensures !first.Done?
    ensures |outcomes| == reruns && forall i :: 0 <= i < reruns ==> !outcomes[i].Done?
  {
    first, p := TearsImport(mail);
    p.calm := true;
    outcomes := NeverConverges(p, seq(reruns, _ => None));
  }

  method TearsImport(mail: Mail) returns (first: Outcome, p: Project)
    ensures fresh(p) && p.Valid() && p.TornImport() && !first.Done?
  {
    hide CentralBound, MarkerBound, RecordsAgree, Minted, RetirementFree;
    p := new Project.Legacy(mail);
    assert p.MigrateReady();
    p.calm, p.tearing := false, true;
    var purge, rereadFailed;
    first, purge, rereadFailed := p.Migrate();
  }

  /** The hazard is reached, by undisturbed runs alone. The first run hands the retired tree to its
      purge; a rerun finds that tree and hands it over again; a third run begins while both purges wait,
      finds the name free because the second purge has just removed the tree, retires stray mail under it
      and means to keep that; and the first purge destroys it. */
  method PurgesOverlap(mail: Mail) returns (h: Host, lost: ShelfName, s: Shelf)
    ensures fresh(h) && fresh(h.p) && h.Inv() && h.p.Box() == mail
    ensures (lost, s) in h.retired && lost !in h.p.shelves && (lost, s) !in h.handed
    ensures !Disposable(s, h.p.archives)
  {
    hide CentralBound, MarkerBound, RecordsAgree, Minted, RetirementFree, Safe, Guarded, Honest;
    h := TwoPurges(mail);
    var stray := StrayMail(h.p.archives);
    lost, s := h.Loses(stray);
  }

  /** The first two of those runs: the same retired tree waits for two purges. */
  method TwoPurges(mail: Mail) returns (h: Host)
    ensures fresh(h) && fresh(h.p) && h.Inv() && h.p.Box() == mail
    ensures h.Hazard() && !h.overlapped && h.p.MigrateReady()
  {
    hide CentralBound, MarkerBound, RecordsAgree, Minted, RetirementFree, Safe, Guarded, Honest, Known;
    h := OnePurge(mail);
    var f := h.Begins();
    var r, purge := h.Finishes(f);
  }

  /** After the first: nothing is left of the local tree, and the retired one waits for its purge. */
  method OnePurge(mail: Mail) returns (h: Host)
    ensures fresh(h) && fresh(h.p) && h.Inv() && h.p.Box() == mail && !h.overlapped
    ensures h.p.calm && h.p.Migrated() && h.p.MigrateReady() && h.p.central.Some?
    ensures var name := Plain(h.p.central.value.op);
      && h.waiting == multiset{name} && h.purging == {}
      && name in h.p.shelves && IsExactly(h.p.shelves[name], h.p.central.value.digest)
  {
    hide CentralBound, MarkerBound, RecordsAgree, Minted, RetirementFree, Safe, Guarded, Honest, Known;
    var p := new Project(mail);
    p.calm := true;
    h := new Host(p);
    var f := h.Begins();
    var r, purge := h.Finishes(f);
  }

  /** A rerun hands over the tree that it renames, not the one it compared: a stray write in between goes
      to the purge, though no backup keeps it. Without one, CleanupLocal hands over committed trees only. */
  method LateStray(p: Project, stray: Mail) returns (purge: ShelfName)
    requires p.Valid() && p.calm && p.layout.Central? && Unkept(stray, p.archives)
    requires IsExactly(Shelf(p.inbox, p.messages, p.locks), p.central.value.digest)
    modifies p
    ensures p.Valid() && p.events == old(p.events)
    ensures purge in p.shelves && IsExactly(p.shelves[purge], stray) && !Disposable(p.shelves[purge], p.archives)
  {
    hide CentralBound, MarkerBound, RecordsAgree, RetirementFree;
    var f, drifted := p.LooksDrifted(p.central.value.digest, false);
    p.StrayWrite(stray);
    var name;
    f, name := p.RetireTree(p.central.value.op, drifted);
    purge := name.value;
    UnkeptIsNotDisposable(p.shelves[purge], stray, p.archives);
  }
}
