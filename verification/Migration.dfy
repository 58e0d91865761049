/** Crash-safe migration of one project's mailbox between its local and its central tree.

    Every atomic filesystem operation of the program is one assignment to a field, and each is
    followed by Tick, which may let the process go on, make the call fail, or kill the process.
    What a method ensures at every return therefore holds at every crash point. */
module Migration {
  import opened Wrappers

  /** The files below one mail root, by relative path. */
  type Half = map<string, string>

  datatype Mail = Mail(inbox: Half, messages: Half)

  datatype MailEvent =
    | Delivered(name: string, content: string)
    | Archived(source: string, destination: string)

  /** A minted operation UUID; minting never repeats one. */
  type OpId = nat

  datatype Layout = Local | Central

  datatype Direction = Forward | Backward

  /** A recovery record or an archived manifest: the snapshot is its entry inventory. */
  datatype Record = Record(direction: Direction, mail: Mail, source: Option<OpId>)

  /** A manifest path: inside a backup bundle, or in the recovery-record directory. */
  datatype Ref = Archive(op: OpId) | Canonical(op: OpId)

  /** A private file being staged; Torn is what a crash inside the write leaves. */
  datatype Staging = Absent | Torn | Whole

  /** A central tree with its marker; import is the staged marker of a legacy import. */
  datatype Generation =
    Generation(mail: Mail, op: OpId, manifest: Ref, digest: Mail, imported: Staging)

  datatype StagedRecord = TornRecord | WholeRecord(record: Record)

  /** A directory of retired local mail. */
  datatype Shelf = Shelf(inbox: Option<Half>, messages: Option<Half>, locks: bool)

  datatype ShelfName = Plain(op: OpId) | Salted(op: OpId, salt: nat)

  datatype CentralShelf = Stale(op: OpId) | RolledBack(op: OpId)

  datatype RollbackMarker = RollbackMarker(source: OpId, rollback: OpId, digest: Mail)

  datatype Bookmark = NoBookmark | Ours | Foreign

  /** Refused is a plain error; the next two are the program's own error classes. */
  datatype Outcome = Done | Refused | CommittedError | UnknownError | Crashed

  // ---------------------------------------------------------------- the abstract mailbox

  function Effect(m: Mail, e: MailEvent): Mail {
    match e
    case Delivered(name, content) =>
      if name in m.inbox then m else m.(inbox := m.inbox[name := content])
    case Archived(source, destination) =>
      if source in m.inbox && destination !in m.inbox then
        m.(inbox := m.inbox[destination := m.inbox[source]] - {source})
      else m
  }

  function Replay(origin: Mail, events: seq<MailEvent>): Mail {
    if events == [] then origin
    else Effect(Replay(origin, events[..|events| - 1]), events[|events| - 1])
  }

  /** Every content that was in the inbox at the start or was delivered to a free name. */
  ghost function Deposits(origin: Mail, events: seq<MailEvent>): multiset<string> {
    if events == [] then ContentsOf(origin.inbox)
    else
      var before := events[..|events| - 1];
      var last := events[|events| - 1];
      Deposits(origin, before) +
      (if last.Delivered? && last.name !in Replay(origin, before).inbox
       then multiset{last.content} else multiset{})
  }

  ghost function PickPath(half: Half): (p: string)
    requires half != map[]
    ensures p in half
  {
    var p :| p in half; p
  }

  ghost function ContentsOf(half: Half): multiset<string> {
    if half == map[] then multiset{}
    else var p := PickPath(half); multiset{half[p]} + ContentsOf(half - {p})
  }

  lemma Smaller(half: Half, p: string)
    requires p in half
    ensures |half - {p}| < |half|
  {
    assert (half - {p}).Keys == half.Keys - {p};
  }

  lemma {:induction false} ContentsOfRemove(half: Half, p: string)
    requires p in half
    ensures ContentsOf(half) == multiset{half[p]} + ContentsOf(half - {p})
    decreases |half|
  {
    var q := PickPath(half);
    if q != p {
      Smaller(half, p);
      Smaller(half, q);
      assert half - {p} - {q} == half - {q} - {p};
      var rest := ContentsOf(half - {p} - {q});
      assert ContentsOf(half - {q}) == multiset{half[p]} + rest by { ContentsOfRemove(half - {q}, p); }
      assert ContentsOf(half - {p}) == multiset{half[q]} + rest by { ContentsOfRemove(half - {p}, q); }
    }
  }

  lemma ContentsOfAdd(half: Half, p: string, content: string)
    requires p !in half
    ensures ContentsOf(half[p := content]) == multiset{content} + ContentsOf(half)
  {
    ContentsOfRemove(half[p := content], p);
    assert half[p := content] - {p} == half;
  }

  lemma ContentsOfMove(half: Half, p: string, q: string)
    requires p in half && q !in half
    ensures ContentsOf(half[q := half[p]] - {p}) == ContentsOf(half)
  {
    var content, rest := half[p], half - {p};
    assert half[q := content] - {p} == rest[q := content];
    assert ContentsOf(rest[q := content]) == ContentsOf(half) by {
      ContentsOfRemove(half, p);
      ContentsOfAdd(rest, q, content);
    }
  }

  /** Deliveries and archivals conserve mail: as a multiset, the inbox holds what was deposited,
      nothing lost, nothing duplicated and nothing invented. */
  lemma {:induction false} MailConserved(origin: Mail, events: seq<MailEvent>)
    ensures ContentsOf(Replay(origin, events).inbox) == Deposits(origin, events)
    ensures Replay(origin, events).messages == origin.messages
  {
    if events != [] {
      var before := events[..|events| - 1];
      MailConserved(origin, before);
      var half := Replay(origin, before).inbox;
      match events[|events| - 1]
      case Delivered(name, content) =>
        if name !in half { ContentsOfAdd(half, name, content); }
      case Archived(source, destination) =>
        if source in half && destination !in half { ContentsOfMove(half, source, destination); }
    }
  }

  // ---------------------------------------------------------------- the project on disk

  function HalfOf(half: Option<Half>): Half {
    match half
    case None => map[]
    case Some(h) => h
  }

  /** A retired tree whose loss cannot lose mail: it holds none, or nothing but files of the
      snapshot that the backup of a forward cutover keeps. */
  ghost predicate Disposable(shelf: Shelf, archives: map<OpId, Record>) {
    || HoldsNoMail(shelf)
    || exists g :: g in archives && archives[g].direction.Forward? && PartOf(shelf, archives[g].mail)
  }

  ghost predicate Grows(before: map<OpId, Record>, after: map<OpId, Record>) {
    forall op :: op in before ==> op in after && after[op] == before[op]
  }

  predicate PartOf(shelf: Shelf, mail: Mail) {
    HalfOf(shelf.inbox).Items <= mail.inbox.Items && HalfOf(shelf.messages).Items <= mail.messages.Items
  }

  predicate SameGeneration(g: Option<Generation>, h: Option<Generation>) {
    match (g, h)
    case (None, None) => true
    case (Some(x), Some(y)) => x.mail == y.mail && x.op == y.op && x.digest == y.digest
    case _ => false
  }

  /** The central generation's manifest exists, describes it, and no other is staged over it. */
  ghost predicate CentralBound(central: Option<Generation>, records: map<OpId, Record>, archives: map<OpId, Record>,
                               stagedRecords: map<OpId, StagedRecord>)
  {
    central.Some? ==>
      var g := central.value;
      && g.manifest.op == g.op
      && match g.manifest
         case Canonical(op) => op in records && records[op] == Record(Forward, g.digest, None)
         case Archive(op) =>
           && op in archives && archives[op] == Record(Forward, g.digest, None)
           && (op in stagedRecords && stagedRecords[op].WholeRecord? ==> stagedRecords[op].record == archives[op])
  }

  ghost predicate MarkerBound(rollbackMarker: Option<RollbackMarker>, records: map<OpId, Record>)
  {
    rollbackMarker.Some? ==>
      var m := rollbackMarker.value;
      && m.source in records && records[m.source].direction.Forward?
      && m.rollback in records && records[m.rollback] == Record(Backward, m.digest, Some(m.source))
  }

  /** Every recovery record copies the manifest of a backup bundle. */
  ghost predicate RecordsAgree(records: map<OpId, Record>, archives: map<OpId, Record>)
  {
    forall op :: op in records ==> op in archives && archives[op] == records[op]
  }

  /** Every name built from an operation id uses an id minted before. */
  ghost predicate Minted(archives: map<OpId, Record>, records: map<OpId, Record>,
                         stagedRecords: map<OpId, StagedRecord>,
                         shelves: map<ShelfName, Shelf>, centralShelves: map<CentralShelf, Generation>,
                         central: Option<Generation>, nextOp: OpId)
  {
    && (forall op :: op in archives ==> op < nextOp)
    && (forall op :: op in records ==> op < nextOp)
    && (forall op :: op in stagedRecords ==> op < nextOp)
    && (forall n :: n in shelves ==> n.op < nextOp && (n.Salted? ==> n.salt < nextOp))
    && (forall n :: n in centralShelves ==> n.op < nextOp)
    && (central.Some? ==> central.value.op < nextOp)
  }

  /** The destination a rollback would retire the central tree to is free. */
  ghost predicate RetirementFree(central: Option<Generation>, centralShelves: map<CentralShelf, Generation>,
                                 rollbackMarker: Option<RollbackMarker>)
  {
    central.Some? ==>
      && RolledBack(central.value.op) !in centralShelves
      && (rollbackMarker.Some? && rollbackMarker.value.source == central.value.op ==>
            RolledBack(rollbackMarker.value.rollback) !in centralShelves)
  }

  predicate Undrifted(central: Option<Generation>) {
    central.Some? ==> central.value.mail == central.value.digest
  }

  predicate ImportTorn(central: Option<Generation>, stagedRecords: map<OpId, StagedRecord>) {
    central.Some? && central.value.manifest.Archive? &&
    (central.value.imported == Torn ||
     (central.value.op in stagedRecords && stagedRecords[central.value.op].TornRecord?))
  }

  predicate ReadyToMigrate(layout: Layout, central: Option<Generation>, stagedRecords: map<OpId, StagedRecord>,
                           bookmark: Bookmark)
  {
    && !ImportTorn(central, stagedRecords)
    && (layout.Central? ==> !bookmark.Foreign?)
    && (layout.Local? ==> bookmark.NoBookmark? && Undrifted(central))
  }

  /** The flip back has happened under this manifest, and what is left central-side may be set aside or kept. */
  predicate Detaching(op: OpId, records: map<OpId, Record>, rollbackMarker: Option<RollbackMarker>,
                      central: Option<Generation>)
  {
    && op in records && records[op].direction.Forward?
    && rollbackMarker.Some? && rollbackMarker.value.source == op
    && (central.Some? ==> central.value.manifest.Canonical? && (central.value.op == op || Undrifted(central)))
  }

  predicate ReadyToRollBack(manifest: Ref, layout: Layout, inbox: Option<Half>, messages: Option<Half>,
                            central: Option<Generation>,
                            records: map<OpId, Record>, stagedRecords: map<OpId, StagedRecord>,
                            rollbackMarker: Option<RollbackMarker>, bookmark: Bookmark)
  {
    && !bookmark.Foreign?
    && (layout.Central? ==> central.Some? && !ImportTorn(central, stagedRecords) && manifest.op == central.value.op)
    && (layout.Local? ==> inbox.Some? && messages.Some? && Detaching(manifest.op, records, rollbackMarker, central))
  }

  /** The id a run of migrate would retire local mail under, when it is not the run's own new one. */
  function RetiresUnder(layout: Layout, central: Option<Generation>): Option<OpId> {
    if layout.Central? && central.Some? then Some(central.value.op) else None
  }

  class Project {
    var layout: Layout
    var inbox: Option<Half>
    var messages: Option<Half>
    var locks: bool
    var central: Option<Generation>
    var archives: map<OpId, Record>
    var records: map<OpId, Record>
    var stagedRecords: map<OpId, StagedRecord>
    var shelves: map<ShelfName, Shelf>
    var centralShelves: map<CentralShelf, Generation>
    var rollbackMarker: Option<RollbackMarker>
    var bookmark: Bookmark
    var nextOp: OpId

    /** No fault occurs while this holds. */
    var calm: bool

    /** Otherwise, while this holds, the one fault is a death inside the first write of a recovery record. */
    var tearing: bool

    ghost const origin: Mail
    ghost var events: seq<MailEvent>

    /** A project that keeps its mail in the local tree and was never migrated. */
    constructor (mail: Mail)
      ensures Valid() && MigrateReady() && Box() == mail && events == []
      ensures layout.Local? && central.None? && shelves == map[] && archives == map[]
      ensures inbox == Some(mail.inbox) && messages == Some(mail.messages) && nextOp == 0
    {
      origin, events := mail, [];
      layout, inbox, messages, locks := Local, Some(mail.inbox), Some(mail.messages), false;
      central, archives, records, stagedRecords := None, map[], map[], map[];
      shelves, centralShelves, rollbackMarker, bookmark := map[], map[], None, NoBookmark;
      nextOp, calm, tearing := 0, false, false;
    }

    /** A project migrated by an older version: its generation is bound to an archived manifest. */
    constructor Legacy(mail: Mail)
      ensures Valid() && MigrateReady() && Box() == mail && events == []
      ensures layout.Central? && Unimported() && bookmark.NoBookmark?
    {
      origin, events := mail, [];
      layout, inbox, messages, locks := Central, None, None, false;
      central := Some(Generation(mail, 0, Archive(0), mail, Absent));
      archives, records, stagedRecords := map[0 := Record(Forward, mail, None)], map[], map[];
      shelves, centralShelves, rollbackMarker, bookmark := map[], map[], None, NoBookmark;
      nextOp, calm, tearing := 1, false, false;
    }

    // -------------------------------------------------------------- invariants

    ghost function Box(): Mail
      reads `events
    {
      Replay(origin, events)
    }

    ghost function LocalMail(): Mail
      reads `inbox, `messages
    {
      Mail(HalfOf(inbox), HalfOf(messages))
    }

    /** The tree the registry names holds exactly the abstract mailbox. */
    ghost predicate Faithful()
      reads `layout, `inbox, `messages, `central, `events
    {
      match layout
      case Local => LocalMail() == Box()
      case Central => central.Some? && central.value.mail == Box()
    }

    ghost predicate Valid()
      reads this
    {
      && Faithful()
      && CentralBound(central, records, archives, stagedRecords)
      && MarkerBound(rollbackMarker, records)
      && RecordsAgree(records, archives)
      && Minted(archives, records, stagedRecords, shelves, centralShelves, central, nextOp)
      && RetirementFree(central, centralShelves, rollbackMarker)
    }

    // -------------------------------------------------------------- small steps

    method MintOp() returns (op: OpId)
      requires Valid()
      modifies `nextOp
      ensures Valid()
      ensures op == old(nextOp) && nextOp == op + 1
    {
      op := nextOp;
      nextOp := nextOp + 1;
    }

    method CreateBackup(op: OpId, record: Record) returns (f: Fault)
      requires Valid() && op < nextOp && op !in records
      requires central.Some? ==> central.value.op != op
      modifies `archives
      ensures Valid()
      ensures archives == old(archives) || archives == old(archives)[op := record]
      ensures f.Go? ==> archives == old(archives)[op := record] && op !in old(archives)
      ensures calm && op !in old(archives) ==> f.Go?
    {
      f := Tick(calm || tearing);
      if !f.Go? { return; }
      if op in archives { return Fail; }
      archives := archives[op := record];
      f := Tick(calm || tearing);
    }

    /** One write or unlink of the record's staging file. */
    method StageRecord(op: OpId, staging: Option<StagedRecord>)
      requires Valid() && op < nextOp
      requires op in archives && (staging.Some? && staging.value.WholeRecord? ==> staging.value.record == archives[op])
      modifies `stagedRecords
      ensures Valid()
      ensures stagedRecords == match staging
                               case None => old(stagedRecords) - {op}
                               case Some(x) => old(stagedRecords)[op := x]
    {
      match staging
      case None => stagedRecords := stagedRecords - {op};
      case Some(x) => stagedRecords := stagedRecords[op := x];
    }

    /** The no-clobber rename of the staging file to the record's own name. */
    method PublishRecord(op: OpId, record: Record) returns (f: Fault)
      requires Valid() && op < nextOp && op !in records
      requires op in archives && archives[op] == record
      modifies `records, `stagedRecords
      ensures Valid()
      ensures records == old(records)[op := record] && stagedRecords == old(stagedRecords) - {op}
      ensures calm ==> f.Go?
    {
      records, stagedRecords := records[op := record], stagedRecords - {op};
      f := Tick(calm || tearing);
    }

    method WriteRecoveryRecord(op: OpId, record: Record, reuseIdentical: bool) returns (f: Fault)
      requires Valid() && op < nextOp
      requires op in archives && archives[op] == record
      modifies `records, `stagedRecords
      ensures Valid()
      ensures records == old(records) || (op !in old(records) && records == old(records)[op := record])
      ensures forall k :: k != op && k in stagedRecords ==> k in old(stagedRecords)
      ensures f.Go? ==> op in records && records[op] == record
      ensures tearing && !calm && op !in old(records) && op !in old(stagedRecords) ==>
        f.Die? && op in stagedRecords && stagedRecords[op].TornRecord?
      ensures op in old(stagedRecords) && old(stagedRecords)[op].TornRecord? ==>
        !f.Go? && stagedRecords == old(stagedRecords)
      ensures calm ==>
        (f.Go? <==>
         && (op in old(records) ==> reuseIdentical)
         && (op in old(stagedRecords) ==> reuseIdentical && old(stagedRecords)[op] == WholeRecord(record)))
    {
      var existing, staged := op in records, op in stagedRecords;
      if (existing || staged) && !reuseIdentical { return Fail; }
      if existing {
        f := ReuseRecord(op, record);
        return;
      }
      if staged {
        if stagedRecords[op] != WholeRecord(record) { return Fail; }
        f := PublishRecord(op, record);
        return;
      }
      f := Tick(calm || tearing);
      if tearing && !calm { f := Die; }
      StageRecord(op, Some(if f.Go? then WholeRecord(record) else TornRecord));
      if f.Go? { f := Tick(calm || tearing); }
      if f.Fail? { f := Unstage(op); }
      if f.Go? { f := PublishRecord(op, record); }
    }

    /** The clean-up after a failed write, which may fail or be cut short itself. */
    method Unstage(op: OpId) returns (f: Fault)
      requires Valid() && op < nextOp && op in archives
      modifies `stagedRecords
      ensures Valid() && !f.Go?
      ensures stagedRecords == old(stagedRecords) || stagedRecords == old(stagedRecords) - {op}
    {
      f := Tick(calm || tearing);
      if f.Go? { StageRecord(op, None); }
      if !f.Die? { f := Fail; }
    }

    method ReuseRecord(op: OpId, record: Record) returns (f: Fault)
      requires Valid() && op < nextOp && op in records
      requires op in archives && archives[op] == record
      modifies `stagedRecords
      ensures Valid()
      ensures stagedRecords == old(stagedRecords) || stagedRecords == old(stagedRecords) - {op}
      ensures f.Go? ==> records[op] == record
      ensures op in old(stagedRecords) && old(stagedRecords)[op].TornRecord? ==>
        !f.Go? && stagedRecords == old(stagedRecords)
      ensures calm ==> (f.Go? <==> (op in old(stagedRecords) ==> old(stagedRecords)[op] == WholeRecord(record)))
    {
      if records[op] != record { return Fail; }
      f := Tick(calm || tearing);
      if !f.Go? || op !in stagedRecords { return; }
      if stagedRecords[op] != WholeRecord(record) { return Fail; }
      StageRecord(op, None);
      f := Tick(calm || tearing);
    }

    /** A crash or a failed write tore a file that only a retry under the same name could replace. */
    predicate TornImport()
      reads `central, `stagedRecords
    {
      ImportTorn(central, stagedRecords)
    }

    /** Give a central tree bound to an archived manifest its recovery record, and rebind it. */
    method ImportLegacy() returns (f: Fault)
      requires Valid() && central.Some? && central.value.manifest.Archive?
      modifies `central, `records, `stagedRecords
      ensures Valid() && SameGeneration(old(central), central)
      ensures records == old(records) ||
              (central.value.op !in old(records) &&
               records == old(records)[central.value.op := archives[central.value.op]])
      ensures forall k :: k in stagedRecords ==> k in old(stagedRecords) || k == central.value.op
      ensures f.Go? ==> central.value.manifest.Canonical?
      ensures tearing && !calm && old(Unimported()) ==> TornImport()
      ensures old(TornImport()) ==> !f.Go? && TornImport()
      ensures calm ==> (f.Go? <==> !old(TornImport()))
    {
      var op := central.value.op;
      f := WriteRecoveryRecord(op, archives[op], true);
      if f.Go? { f := StageImport(); }
      if f.Go? { f := Rebind(); }
    }

    /** Stage the marker that will replace the legacy one. A crash or a failed write may leave it torn, and
        a torn one cannot be staged over. */
    method StageImport() returns (f: Fault)
      requires Valid() && central.Some?
      modifies `central
      ensures Valid() && central.Some?
      ensures central == Some(old(central).value.(imported := central.value.imported))
      ensures f.Go? ==> central.value.imported.Whole?
      ensures old(central).value.imported.Torn? ==> !f.Go? && central == old(central)
      ensures calm ==> (f.Go? <==> !old(central).value.imported.Torn?)
    {
      f := if central.value.imported.Torn? then Fail else Go;
      if central.value.imported.Absent? {
        f := Tick(calm || tearing);
        var created: bool := *;
        if f.Go? {
          central := Some(central.value.(imported := Whole));
          f := Tick(calm || tearing);
        } else if created {
          central := Some(central.value.(imported := Torn));
        }
      }
    }

    method Rebind() returns (f: Fault)
      requires Valid() && central.Some? && central.value.op in records && central.value.op in archives
      requires records[central.value.op] == archives[central.value.op] == Record(Forward, central.value.digest, None)
      modifies `central
      ensures Valid()
      ensures central == Some(old(central).value.(manifest := Canonical(old(central).value.op), imported := Absent))
      ensures calm ==> f.Go?
    {
      central := Some(central.value.(manifest := Canonical(central.value.op), imported := Absent));
      f := Tick(calm || tearing);
    }

    /** Check the central tree against its marker and recovery record, importing a legacy one. */
    method VerifyImporting() returns (f: Fault)
      requires Valid()
      modifies `central, `records, `stagedRecords
      ensures Valid() && SameGeneration(old(central), central)
      ensures records == old(records) ||
              (central.Some? && central.value.op !in old(records) && central.value.op in archives &&
               records == old(records)[central.value.op := archives[central.value.op]])
      ensures forall k :: k in stagedRecords ==> k in old(stagedRecords) || (central.Some? && k == central.value.op)
      ensures f.Go? ==> central.Some? && central.value.manifest.Canonical?
      ensures tearing && !calm && old(Unimported()) ==> TornImport()
      ensures old(TornImport()) ==> !f.Go? && TornImport()
      ensures calm ==> (f.Go? <==> central.Some? && !old(TornImport()))
    {
      if central.None? { return Fail; }
      if central.value.manifest.Archive? {
        f := ImportLegacy();
        if !f.Go? { return; }
      }
      f := Tick(calm || tearing);
    }

    /** The same check without import: a generation still bound to an archive is refused. */
    method VerifyCentral() returns (f: Fault)
      requires Valid()
      ensures f.Go? ==> central.Some? && central.value.manifest.Canonical?
      ensures calm ==> (f.Go? <==> central.Some? && central.value.manifest.Canonical?)
    {
      if central.None? || central.value.manifest.Archive? { return Fail; }
      f := Tick(calm || tearing);
    }

    // -------------------------------------------------------------- publication and retirement

    method PublishCentral(op: OpId, mail: Mail) returns (f: Fault)
      requires Valid() && layout.Local? && op < nextOp
      requires op in records && records[op] == Record(Forward, mail, None)
      requires RolledBack(op) !in centralShelves
      requires rollbackMarker.Some? ==> rollbackMarker.value.source != op
      modifies `central
      ensures Valid()
      ensures central == old(central) ||
              (old(central).None? && central == Some(Generation(mail, op, Canonical(op), mail, Absent)))
      ensures f.Go? ==> central == Some(Generation(mail, op, Canonical(op), mail, Absent))
      ensures calm && old(central).None? ==> f.Go?
    {
      f := Tick(calm || tearing);
      if !f.Go? { return; }
      if central.Some? { return Fail; }
      central := Some(Generation(mail, op, Canonical(op), mail, Absent));
      f := Tick(calm || tearing);
    }

    method QuarantineCentral(name: CentralShelf, requirePristine: bool) returns (f: Fault)
      requires Valid() && layout.Local? && name.op < nextOp
      modifies `central, `centralShelves
      ensures Valid()
      ensures
        || (central == old(central) && centralShelves == old(centralShelves))
        || (old(central).Some? && name !in old(centralShelves) && central.None? &&
            centralShelves == old(centralShelves)[name := old(central).value])
      ensures f.Go? ==> central.None?
      ensures calm ==>
        (f.Go? <==>
         && old(central).Some? && old(central).value.manifest.Canonical?
         && (requirePristine ==> old(central).value.mail == old(central).value.digest)
         && name !in old(centralShelves))
    {
      f := VerifyCentral();
      if !f.Go? { return; }
      if requirePristine && central.value.mail != central.value.digest { return Fail; }
      if name in centralShelves { return Fail; }
      central, centralShelves := None, centralShelves[name := central.value];
      f := Tick(calm || tearing);
    }

    method RetireInbox(name: ShelfName) returns (f: Fault)
      requires Valid() && layout.Central? && name in shelves && shelves[name].inbox.None?
      modifies `inbox, `shelves
      ensures Valid()
      ensures inbox.None? && Rewritten(old(shelves), shelves, name) &&
              shelves[name] == old(shelves)[name].(inbox := old(inbox))
      ensures calm ==> f.Go?
    {
      if inbox.None? { return Go; }
      inbox, shelves := None, shelves[name := shelves[name].(inbox := inbox)];
      f := Tick(calm || tearing);
    }

    method RetireMessages(name: ShelfName) returns (f: Fault)
      requires Valid() && layout.Central? && name in shelves && shelves[name].messages.None?
      modifies `messages, `shelves
      ensures Valid()
      ensures messages.None? && Rewritten(old(shelves), shelves, name) &&
              shelves[name] == old(shelves)[name].(messages := old(messages))
      ensures calm ==> f.Go?
    {
      if messages.None? { return Go; }
      messages, shelves := None, shelves[name := shelves[name].(messages := messages)];
      f := Tick(calm || tearing);
    }

    method RetireLocks(name: ShelfName) returns (f: Fault)
      requires Valid() && layout.Central? && name in shelves
      modifies `locks, `shelves
      ensures Valid()
      ensures !locks && Rewritten(old(shelves), shelves, name)
      ensures shelves[name].inbox == old(shelves)[name].inbox && shelves[name].messages == old(shelves)[name].messages
      ensures calm ==> f.Go?
    {
      if !locks { return Go; }
      locks, shelves := false, shelves[name := Shelf(shelves[name].inbox, shelves[name].messages, true)];
      f := Tick(calm || tearing);
    }

    method NewShelf(op: OpId) returns (f: Fault, name: ShelfName)
      requires Valid() && op < nextOp
      modifies `shelves, `nextOp
      ensures Valid() && nextOp >= old(nextOp)
      ensures name !in old(shelves) && Rewritten(old(shelves), shelves, name) &&
              shelves[name] == Shelf(None, None, false)
      ensures Plain(op) !in old(shelves) ==> name == Plain(op)
      ensures name == Plain(op) || NeverUsed(name, old(nextOp))
      ensures calm ==> f.Go?
    {
      name := Plain(op);
      if name in shelves {
        var salt := MintOp();
        name := Salted(op, salt);
      }
      shelves := shelves[name := Shelf(None, None, false)];
      f := Tick(calm || tearing);
    }

    /** Retire whatever local mail is in place to a new directory, one rename at a time. */
    method QuarantineLocal(op: OpId) returns (f: Fault, name: Option<ShelfName>)
      requires Valid() && layout.Central? && op < nextOp
      modifies `inbox, `messages, `locks, `shelves, `nextOp
      ensures Valid() && nextOp >= old(nextOp)
      ensures name.None? ==>
        shelves == old(shelves) && inbox == old(inbox) && messages == old(messages) && locks == old(locks)
      ensures name.Some? ==>
        && name.value !in old(shelves) && Rewritten(old(shelves), shelves, name.value)
        && Moved(old(inbox), inbox, shelves[name.value].inbox)
        && Moved(old(messages), messages, shelves[name.value].messages)
      ensures f.Go? ==> inbox.None? && messages.None? && !locks
      ensures f.Go? ==> (name.None? <==> old(inbox.None? && messages.None? && !locks))
      ensures name.Some? && Plain(op) !in old(shelves) ==> name.value == Plain(op)
      ensures name.Some? ==> name.value == Plain(op) || NeverUsed(name.value, old(nextOp))
      ensures calm ==> f.Go?
    {
      if inbox.None? && messages.None? && !locks { return Go, None; }
      f := Tick(calm || tearing);
      if !f.Go? { return f, None; }
      var selected;
      f, selected := NewShelf(op);
      name := Some(selected);
      if f.Go? { f := FillShelf(selected); }
    }

    method FillShelf(name: ShelfName) returns (f: Fault)
      requires Valid() && layout.Central? && name in shelves && shelves[name] == Shelf(None, None, false)
      modifies `inbox, `messages, `locks, `shelves
      ensures Valid()
      ensures Rewritten(old(shelves), shelves, name)
      ensures Moved(old(inbox), inbox, shelves[name].inbox)
      ensures Moved(old(messages), messages, shelves[name].messages)
      ensures f.Go? ==> inbox.None? && messages.None? && !locks
      ensures calm ==> f.Go?
    {
      f := RetireInbox(name);
      if !f.Go? { return; }
      f := RetireMessages(name);
      if !f.Go? { return; }
      f := RetireLocks(name);
    }

    /** Retire the local tree after a forward cutover, and say which retired tree may be purged.
        The ghost argument names the committed forward record the expected entries come from. */
    method CleanupLocal(expected: Mail, op: OpId, trusted: bool) returns (f: Fault, purge: Option<ShelfName>)
      requires Valid() && layout.Central? && op < nextOp
      requires trusted && inbox.Some? && messages.Some? ==> LocalMail() == expected
      modifies `inbox, `messages, `locks, `shelves, `nextOp
      ensures Valid() && nextOp >= old(nextOp)
      ensures Preserved(old(shelves), shelves)
      ensures inbox == old(inbox) || exists n :: n in shelves && n !in old(shelves) && shelves[n].inbox == old(inbox)
      ensures messages == old(messages) ||
              exists n :: n in shelves && n !in old(shelves) && shelves[n].messages == old(messages)
      ensures purge.Some? ==>
        purge.value in shelves && (HoldsNoMail(shelves[purge.value]) || IsExactly(shelves[purge.value], expected))
      ensures f.Go? ==> inbox.None? && messages.None? && !locks
      // which tree a run retires and hands over, a drifted or partial one being kept
      ensures NewNames(old(shelves), shelves, old(nextOp), Some(op))
      ensures old(inbox.None? && messages.None? && !locks) ==> shelves == old(shelves)
      ensures f.Go? && !trusted && old(inbox.Some? || messages.Some?) ==>
        !old(inbox == Some(expected.inbox) && messages == Some(expected.messages)) ==> purge.None?
      ensures f.Go? ==> Retires(old(inbox), old(messages), old(locks), old(shelves), shelves, op, expected, purge)
      ensures calm ==> f.Go?
    {
      purge := None;
      if inbox.None? && messages.None? && !locks {
        f := Tick(calm || tearing);
        if f.Go? && Plain(op) in shelves && IsExactly(shelves[Plain(op)], expected) { purge := Some(Plain(op)); }
      } else {
        var drifted;
        f, drifted := LooksDrifted(expected, trusted);
        if f.Go? { f, purge := RetireTree(op, drifted); }
      }
    }

    /** Whether the local tree differs from the snapshot; after a cutover only its completeness is looked at. */
    method LooksDrifted(expected: Mail, trusted: bool) returns (f: Fault, drifted: bool)
      requires trusted && inbox.Some? && messages.Some? ==> LocalMail() == expected
      ensures !drifted ==>
        (inbox.None? && messages.None?) || (inbox == Some(expected.inbox) && messages == Some(expected.messages))
      ensures f.Go? && inbox.Some? && messages.Some? ==> (drifted <==> LocalMail() != expected)
      ensures calm ==> f.Go?
    {
      f, drifted := Go, inbox.Some? || messages.Some?;
      if inbox.Some? && messages.Some? {
        if !trusted { f := Tick(calm || tearing); }
        drifted := if trusted then false else Mail(inbox.value, messages.value) != expected;
      } else if trusted {
        drifted := true;
      }
    }

    method RetireTree(op: OpId, drifted: bool) returns (f: Fault, purge: Option<ShelfName>)
      requires Valid() && layout.Central? && op < nextOp && !(inbox.None? && messages.None? && !locks)
      modifies `inbox, `messages, `locks, `shelves, `nextOp
      ensures Valid() && nextOp >= old(nextOp)
      ensures Preserved(old(shelves), shelves)
      ensures inbox == old(inbox) || exists n :: n in shelves && n !in old(shelves) && shelves[n].inbox == old(inbox)
      ensures messages == old(messages) ||
              exists n :: n in shelves && n !in old(shelves) && shelves[n].messages == old(messages)
      ensures NewNames(old(shelves), shelves, old(nextOp), Some(op))
      ensures f.Go? ==> inbox.None? && messages.None? && !locks
      ensures f.Go? && !drifted ==> purge.Some?
      ensures purge.Some? ==>
        !drifted && purge.value in shelves
        && shelves[purge.value].inbox == old(inbox) && shelves[purge.value].messages == old(messages)
      ensures f.Go? && Plain(op) !in old(shelves) ==>
        && Plain(op) in shelves && shelves[Plain(op)].inbox == old(inbox) &&
           shelves[Plain(op)].messages == old(messages)
        && purge == if drifted then None else Some(Plain(op))
      ensures calm ==> f.Go?
    {
      var name;
      f, name := QuarantineLocal(op);
      if name.Some? { RewrittenKeeps(old(shelves), shelves, name.value); }
      purge := if f.Go? && !drifted then name else None;
    }

    // -------------------------------------------------------------- bookmark and registry

    method InstallBookmark() returns (f: Fault)
      requires Valid()
      modifies `bookmark
      ensures Valid()
      ensures bookmark == old(bookmark) || (old(bookmark).NoBookmark? && bookmark.Ours?)
      ensures f.Go? ==> bookmark.Ours?
      ensures calm ==> (f.Go? <==> !old(bookmark).Foreign?)
    {
      if bookmark.Foreign? { return Fail; }
      f := Tick(calm || tearing);
      if !f.Go? || bookmark.Ours? { return; }
      bookmark := Ours;
      f := Tick(calm || tearing);
    }

    method RemoveBookmark() returns (f: Fault)
      requires Valid()
      modifies `bookmark
      ensures Valid()
      ensures bookmark == old(bookmark) || (old(bookmark).Ours? && bookmark.NoBookmark?)
      ensures f.Go? ==> bookmark.NoBookmark?
      ensures calm ==> (f.Go? <==> !old(bookmark).Foreign?)
    {
      if bookmark.Foreign? { return Fail; }
      f := Tick(calm || tearing);
      if !f.Go? || bookmark.NoBookmark? { return; }
      bookmark := NoBookmark;
      f := Tick(calm || tearing);
    }

    /** The compare-and-set of the registry row. The caller must have made the trees agree. A fault
        after the atomic replace stands for the failed directory sync and the expired deadline. */
    method FlipLayout(expected: Layout, desired: Layout) returns (f: Fault)
      requires Valid()
      requires match desired
               case Central => central.Some? && central.value.mail == Box()
               case Local => LocalMail() == Box()
      modifies `layout
      ensures Valid()
      ensures layout == old(layout) || layout == desired
      ensures f.Go? ==> old(layout) == expected && layout == desired
      ensures calm ==> (f.Go? <==> old(layout) == expected)
    {
      f := Tick(calm || tearing);
      if !f.Go? { return; }
      if layout != expected { return Fail; }
      layout := desired;
      f := Tick(calm || tearing);
    }

    /** Classify a failed cutover by re-reading the registry. */
    method CommitObserved(desired: Layout) returns (r: Outcome, rereadFailed: bool)
      requires Valid()
      ensures r.CommittedError? || r.Refused? || r.UnknownError? || r.Crashed?
      ensures r.CommittedError? ==> layout == desired
      ensures r.Refused? ==> layout != desired
      ensures r.UnknownError? <==> rereadFailed
    {
      var f := Tick(calm || tearing);
      rereadFailed := f.Fail?;
      r := match f
           case Die => Crashed
           case Fail => UnknownError
           case Go => if layout == desired then CommittedError else Refused;
    }

    // -------------------------------------------------------------- forward migration

    method EnsureSourceDirectories() returns (f: Fault)
      requires Valid() && layout.Local?
      modifies `inbox, `messages, `locks
      ensures Valid()
      ensures inbox == old(inbox) || (old(inbox).None? && inbox == Some(map[]))
      ensures messages == old(messages) || (old(messages).None? && messages == Some(map[]))
      ensures f.Go? ==> inbox.Some? && messages.Some? && locks
      ensures calm ==> f.Go?
    {
      hide Minted, RecordsAgree, CentralBound, MarkerBound, RetirementFree;
      if inbox.None? { inbox := Some(map[]); }
      f := Tick(calm || tearing);
      if !f.Go? { return; }
      if messages.None? { messages := Some(map[]); }
      f := Tick(calm || tearing);
      if !f.Go? { return; }
      locks := true;
      f := Tick(calm || tearing);
    }

    ghost predicate Candidate(snapshot: Mail)
      reads `central
    {
      central.Some? && central.value.manifest.Canonical? && central.value.mail == snapshot == central.value.digest
    }

    ghost predicate Pristine()
      reads `central
    {
      Undrifted(central)
    }

    /** Back up the snapshot, record it, retire a stale candidate and publish a new one. */
    method StageCandidate(op: OpId, snapshot: Mail) returns (f: Fault)
      requires Valid() && layout.Local? && op < nextOp
      requires op !in archives && op !in records && op !in stagedRecords
      requires central.Some? ==> central.value.op != op && central.value.manifest.Canonical?
      requires Stale(op) !in centralShelves && RolledBack(op) !in centralShelves
      requires Pristine()
      modifies `archives, `records, `stagedRecords, `central, `centralShelves
      ensures Valid()
      ensures Grows(old(archives), archives)
      ensures Pristine() && !TornImport()
      ensures f.Go? ==> Candidate(snapshot)
      ensures f.Go? ==> central.value.op == op
      ensures calm ==> f.Go?
    {
      hide RecordsAgree;
      var record := Record(Forward, snapshot, None);
      f := CreateBackup(op, record);
      if !f.Go? { return; }
      f := WriteRecoveryRecord(op, record, false);
      if !f.Go? { return; }
      if central.Some? {
        f := QuarantineCentral(Stale(op), true);
        if !f.Go? { return; }
      }
      f := PublishCentral(op, snapshot);
    }

    /** Under a new operation id, reuse the candidate in place or replace it by one for this snapshot. */
    method PrepareCandidate(snapshot: Mail) returns (f: Fault, op: OpId)
      requires Valid() && layout.Local?
      modifies `archives, `records, `stagedRecords, `central, `centralShelves, `nextOp
      ensures Valid() && op == old(nextOp) && nextOp == op + 1
      ensures Grows(old(archives), archives)
      ensures old(Pristine()) ==> Pristine()
      ensures f.Go? ==> Candidate(snapshot)
      ensures f.Go? && old(central).None? ==> central.value.op == op
      ensures old(TornImport()) ==> !f.Go? && TornImport()
      ensures calm ==> (f.Go? <==> old(Pristine() && !TornImport()))
    {
      hide RecordsAgree, CentralBound, MarkerBound, RetirementFree;
      var reusable;
      f, reusable := CheckCandidate(snapshot);
      op := MintOp();
      if f.Go? && !reusable { f := StageCandidate(op, snapshot); }
    }

    /** Verify the central tree in place, if any, against its marker, and compare it with the snapshot. */
    method CheckCandidate(snapshot: Mail) returns (f: Fault, reusable: bool)
      requires Valid() && layout.Local?
      modifies `central, `records, `stagedRecords
      ensures Valid()
      ensures old(central).None? ==> central.None?
      ensures old(Pristine()) ==> Pristine()
      ensures f.Go? ==> Pristine() && (central.Some? ==> central.value.manifest.Canonical?)
      ensures f.Go? ==> (reusable <==> Candidate(snapshot))
      ensures old(TornImport()) ==> !f.Go? && TornImport()
      ensures calm ==> (f.Go? <==> old(Pristine() && !TornImport()))
    {
      f, reusable := Go, false;
      if central.Some? {
        f := VerifyImporting();
        if f.Go? && central.value.mail != central.value.digest { f := Fail; }
        reusable := f.Go? && central.value.digest == snapshot;
      }
    }

    /** Exactly the states from which an undisturbed migrate succeeds. */
    ghost predicate MigrateReady()
      reads `layout, `central, `stagedRecords, `bookmark
    {
      ReadyToMigrate(layout, central, stagedRecords, bookmark)
    }

    ghost predicate Migrated()
      reads `layout, `inbox, `messages, `locks, `bookmark
    {
      layout.Central? && inbox.None? && messages.None? && !locks && bookmark.Ours?
    }

    /** A retired tree that migrate may destroy. */
    ghost predicate Purgeable(name: ShelfName)
      reads `shelves, `central
    {
      && name in shelves
      && (HoldsNoMail(shelves[name]) || (central.Some? && IsExactly(shelves[name], central.value.digest)))
    }

    /** A generation of an older version for which nothing has been staged or recorded yet. */
    predicate Unimported()
      reads `central, `records, `stagedRecords
    {
      && central.Some? && central.value.manifest.Archive?
      && central.value.op !in records && central.value.op !in stagedRecords
    }

    ghost predicate KeepsInbox(half: Option<Half>)
      reads `inbox, `shelves
    {
      inbox == half || ShelvedInbox(shelves, half)
    }

    ghost predicate KeepsMessages(half: Option<Half>)
      reads `messages, `shelves
    {
      messages == half || ShelvedMessages(shelves, half)
    }

    /** Repairs after the cutover: retire local mail, then publish the bookmark. */
    method FinishForward(op: OpId, trusted: bool) returns (r: Outcome, purge: Option<ShelfName>)
      requires Valid() && layout.Central? && op < nextOp
      requires trusted && inbox.Some? && messages.Some? ==> LocalMail() == central.value.digest
      modifies `inbox, `messages, `locks, `shelves, `nextOp, `bookmark
      ensures Valid() && nextOp >= old(nextOp)
      ensures r.Done? || r.CommittedError? || r.Crashed?
      ensures r.Done? ==> Migrated()
      ensures calm ==> (r.Done? <==> !old(bookmark).Foreign?)
      ensures bookmark == old(bookmark) || (old(bookmark).NoBookmark? && bookmark.Ours?)
      ensures purge.Some? ==> r.Done? && Purgeable(purge.value)
      ensures Preserved(old(shelves), shelves)
      ensures NewNames(old(shelves), shelves, old(nextOp), Some(op))
      ensures old(inbox.None? && messages.None? && !locks) ==> shelves == old(shelves)
      ensures r.Done? ==>
        Retires(old(inbox), old(messages), old(locks), old(shelves), shelves, op, central.value.digest, purge)
      ensures KeepsInbox(old(inbox)) && KeepsMessages(old(messages))
    {
      var f;
      f, purge := CleanupLocal(central.value.digest, op, trusted);
      if !f.Go? { return Failure(f, true), None; }
      f := InstallBookmark();
      if !f.Go? { return Failure(f, true), None; }
      r := Done;
    }

    /** The first half of a rerun: nothing of it looks at the local tree or at a retired directory. */
    method BeginCentral() returns (f: Fault)
      requires Valid() && layout.Central?
      modifies `central, `records, `stagedRecords
      ensures Valid() && SameGeneration(old(central), central)
      ensures f.Go? ==> !bookmark.Foreign? && !TornImport()
      ensures old(TornImport()) ==> !f.Go? && TornImport()
      ensures calm ==> (f.Go? <==> old(MigrateReady()))
      ensures old(MigrateReady()) && !TornImport() ==> MigrateReady()
      ensures tearing && !calm && old(Unimported() && !bookmark.Foreign?) ==> TornImport()
    {
      hide Minted, RecordsAgree, CentralBound, MarkerBound, RetirementFree;
      f := if bookmark.Foreign? then Fail else Go;
      if f.Go? { f := VerifyImporting(); }
      if f.Go? { f := Tick(calm || tearing); }
    }

    method MigrateCentral() returns (r: Outcome, purge: Option<ShelfName>)
      requires Valid() && layout.Central?
      modifies `central, `records, `stagedRecords, `inbox, `messages, `locks, `shelves, `nextOp, `bookmark
      ensures Valid() && nextOp >= old(nextOp)
      ensures !r.UnknownError?
      ensures r.Done? ==> Migrated()
      ensures old(TornImport()) ==> !r.Done? && TornImport()
      ensures calm ==> (r.Done? <==> old(MigrateReady()))
      ensures old(MigrateReady()) && !TornImport() ==> MigrateReady()
      ensures purge.Some? ==> r.Done? && Purgeable(purge.value)
      ensures Preserved(old(shelves), shelves)
      ensures NewNames(old(shelves), shelves, old(nextOp), Some(central.value.op))
      ensures old(inbox.None? && messages.None? && !locks) ==> shelves == old(shelves)
      ensures r.Done? ==>
        Retires(old(inbox), old(messages), old(locks), old(shelves), shelves, central.value.op, central.value.digest,
                purge)
      ensures SameGeneration(old(central), central)
      ensures r.Done? ==> !TornImport()
      ensures tearing && !calm && old(Unimported() && !bookmark.Foreign?) ==> TornImport()
      ensures KeepsInbox(old(inbox)) && KeepsMessages(old(messages))
    {
      hide RecordsAgree, CentralBound, MarkerBound, RetirementFree;
      var f := BeginCentral();
      if f.Go? {
        r, purge := FinishForward(central.value.op, false);
      } else {
        r, purge := Failure(f, false), None;
      }
    }

    method AssertLocal(snapshot: Mail) returns (f: Fault)
      requires Valid()
      ensures f.Go? ==> inbox.Some? && messages.Some? && LocalMail() == snapshot
      ensures calm ==> (f.Go? <==> inbox.Some? && messages.Some? && LocalMail() == snapshot)
    {
      if inbox.None? || messages.None? || Mail(inbox.value, messages.value) != snapshot { return Fail; }
      f := Tick(calm || tearing);
    }

    method VerifyCandidate(snapshot: Mail) returns (f: Fault)
      requires Valid()
      ensures f.Go? ==> Candidate(snapshot)
      ensures calm ==> (f.Go? <==> Candidate(snapshot))
    {
      f := VerifyCentral();
      if !f.Go? { return; }
      if central.value.digest != snapshot || central.value.mail != snapshot { return Fail; }
      f := Tick(calm || tearing);
    }

    /** From a verified candidate to the end: recheck both trees, flip the registry row, finish. */
    method CutoverForward(op: OpId, snapshot: Mail)
      returns (r: Outcome, purge: Option<ShelfName>, rereadFailed: bool)
      requires Valid() && layout.Local? && op < nextOp && snapshot == LocalMail()
      requires inbox.Some? && messages.Some? && Candidate(snapshot) && bookmark.NoBookmark?
      modifies `layout, `inbox, `messages, `locks, `shelves, `nextOp, `bookmark
      ensures Valid() && nextOp >= old(nextOp)
      ensures r.Done? ==> Migrated()
      ensures r.Refused? ==> layout.Local?
      ensures r.CommittedError? ==> layout.Central?
      ensures r.UnknownError? ==> rereadFailed
      ensures calm ==> r.Done?
      ensures layout.Local? ==> bookmark == old(bookmark)
      ensures bookmark == old(bookmark) || (old(bookmark).NoBookmark? && bookmark.Ours?)
      ensures purge.Some? ==> r.Done? && Purgeable(purge.value)
      ensures Preserved(old(shelves), shelves)
      ensures NewNames(old(shelves), shelves, old(nextOp), Some(op))
      ensures r.Done? && Plain(op) !in old(shelves) ==> HandsOver(purge, shelves, Plain(op), snapshot)
      ensures KeepsInbox(old(inbox)) && KeepsMessages(old(messages))
    {
      hide Minted, RecordsAgree, CentralBound, MarkerBound, RetirementFree;
      purge, rereadFailed := None, false;
      var f := AssertLocal(snapshot);
      if f.Go? { f := VerifyCandidate(snapshot); }
      if f.Go? { f := AssertLocal(snapshot); }
      if !f.Go? { r := Failure(f, false); return; }
      f := FlipLayout(Local, Central);
      if f.Die? { r := Crashed; return; }
      if f.Fail? {
        r, rereadFailed := CommitObserved(Central);
        return;
      }
      f := AssertLocal(snapshot);
      if !f.Go? { r := Failure(f, true); return; }
      r, purge := FinishForward(op, true);
    }

    method MigrateLocal() returns (r: Outcome, purge: Option<ShelfName>, rereadFailed: bool)
      requires Valid() && layout.Local? && bookmark.NoBookmark?
      modifies `layout, `inbox, `messages, `locks, `central, `archives, `records, `stagedRecords,
               `shelves, `centralShelves, `bookmark, `nextOp
      ensures Valid() && nextOp >= old(nextOp)
      ensures r.Done? ==> Migrated()
      ensures r.Refused? ==> layout.Local?
      ensures r.CommittedError? ==> layout.Central?
      ensures r.UnknownError? ==> rereadFailed
      ensures old(TornImport()) ==> !r.Done? && TornImport()
      ensures calm ==> (r.Done? <==> old(MigrateReady()))
      ensures old(MigrateReady()) && !TornImport() ==> MigrateReady()
      ensures purge.Some? ==> r.Done? && Purgeable(purge.value)
      ensures Preserved(old(shelves), shelves)
      ensures NewNames(old(shelves), shelves, old(nextOp), None)
      ensures r.Done? ==> HandsOver(purge, shelves, Plain(old(nextOp)), Box())
      ensures r.Done? ==> !TornImport() && (old(central).None? ==> central.value.op == old(nextOp))
      ensures old(inbox).Some? ==> KeepsInbox(old(inbox))
      ensures old(messages).Some? ==> KeepsMessages(old(messages))
      ensures Grows(old(archives), archives)
    {
      hide RecordsAgree, CentralBound, MarkerBound, RetirementFree;
      var f, op, snapshot := StageForward();
      if f.Go? {
        r, purge, rereadFailed := CutoverForward(op, snapshot);
      } else {
        r, purge, rereadFailed := Failure(f, false), None, false;
      }
    }

    /** Scan the local tree and have a central candidate for exactly that snapshot. */
    method StageForward() returns (f: Fault, op: OpId, snapshot: Mail)
      requires Valid() && layout.Local? && bookmark.NoBookmark?
      modifies `inbox, `messages, `locks, `central, `archives, `records, `stagedRecords, `centralShelves, `nextOp
      ensures Valid() && nextOp >= old(nextOp)
      ensures f.Go? ==> op == old(nextOp) < nextOp
      ensures f.Go? && old(central).None? ==> central.Some? && central.value.op == op
      ensures old(inbox).Some? ==> inbox == old(inbox)
      ensures old(messages).Some? ==> messages == old(messages)
      ensures Grows(old(archives), archives)
      ensures old(MigrateReady()) && !TornImport() ==> MigrateReady()
      ensures f.Go? ==> inbox.Some? && messages.Some? && snapshot == LocalMail() && Candidate(snapshot)
      ensures old(TornImport()) ==> !f.Go? && TornImport()
      ensures calm ==> (f.Go? <==> old(MigrateReady()))
    {
      hide Minted, RecordsAgree, CentralBound, MarkerBound, RetirementFree;
      op, snapshot := 0, Mail(map[], map[]);
      f := EnsureSourceDirectories();
      if f.Go? {
        snapshot := Mail(inbox.value, messages.value);
        f, op := PrepareCandidate(snapshot);
      }
    }

    /** One run of migrate, up to the release of the layout lock; the caller then purges. */
    method Migrate() returns (r: Outcome, purge: Option<ShelfName>, rereadFailed: bool)
      requires Valid()
      modifies `layout, `inbox, `messages, `locks, `central, `archives, `records, `stagedRecords,
               `shelves, `centralShelves, `bookmark, `nextOp
      // the authoritative tree is the abstract mailbox at every crash point
      ensures Valid() && nextOp >= old(nextOp)
      // honest outcomes
      ensures r.Done? ==> Migrated()
      ensures r.Refused? ==> layout == old(layout)
      ensures r.CommittedError? ==> layout.Central?
      ensures r.UnknownError? ==> rereadFailed
      // an undisturbed run succeeds exactly from the ready states, and crashing keeps them ready
      ensures old(TornImport()) ==> !r.Done? && TornImport()
      ensures calm ==> (r.Done? <==> old(MigrateReady()))
      ensures old(MigrateReady()) && !TornImport() ==> MigrateReady()
      ensures r.Done? ==> MigrateReady()
      ensures tearing && !calm && old(layout.Central? && Unimported() && !bookmark.Foreign?) ==> TornImport()
      // nothing but an empty or fully committed tree is handed to the purge, nothing else is lost
      ensures purge.Some? ==> r.Done? && Purgeable(purge.value)
      ensures Preserved(old(shelves), shelves)
      // which directories a run makes, and which it hands over
      ensures NewNames(old(shelves), shelves, old(nextOp), RetiresUnder(old(layout), old(central)))
      ensures old(layout).Central? ==>
        && SameGeneration(old(central), central) && archives == old(archives)
        && (old(inbox.None? && messages.None? && !locks) ==> shelves == old(shelves))
        && (r.Done? ==>
              Retires(old(inbox), old(messages), old(locks), old(shelves), shelves, central.value.op,
                      central.value.digest, purge))
      ensures old(layout).Local? && r.Done? ==>
        && HandsOver(purge, shelves, Plain(old(nextOp)), Box())
        && (old(central).None? ==> central.Some? && central.value.op == old(nextOp))
      ensures old(inbox).Some? ==> KeepsInbox(old(inbox))
      ensures old(messages).Some? ==> KeepsMessages(old(messages))
      ensures Grows(old(archives), archives)
    {
      if layout.Central? {
        r, purge := MigrateCentral();
        rereadFailed := false;
      } else if !bookmark.NoBookmark? {
        r, purge, rereadFailed := Refused, None, false;
      } else {
        r, purge, rereadFailed := MigrateLocal();
      }
    }

    // -------------------------------------------------------------- rollback

    /** Move the three staged roots into place, one no-clobber rename each. */
    method InstallRoots(mail: Mail) returns (f: Fault)
      requires Valid() && layout.Central? && inbox.None? && messages.None? && !locks
      modifies `inbox, `messages, `locks
      ensures Valid()
      ensures f.Go? ==> inbox == Some(mail.inbox) && messages == Some(mail.messages) && locks
      ensures calm ==> f.Go?
    {
      f := InstallInbox(mail.inbox);
      if f.Go? { f := InstallMessages(mail.messages); }
      if f.Go? {
        locks := true;
        f := Tick(calm || tearing);
      }
    }

    method InstallInbox(half: Half) returns (f: Fault)
      requires Valid() && layout.Central?
      modifies `inbox
      ensures Valid() && inbox == Some(half)
      ensures calm ==> f.Go?
    {
      inbox := Some(half);
      f := Tick(calm || tearing);
    }

    method InstallMessages(half: Half) returns (f: Fault)
      requires Valid() && layout.Central?
      modifies `messages
      ensures Valid() && messages == Some(half)
      ensures calm ==> f.Go?
    {
      messages := Some(half);
      f := Tick(calm || tearing);
    }

    method WriteRollbackMarker(marker: RollbackMarker) returns (f: Fault)
      requires Valid() && marker.rollback in records
      requires records[marker.rollback] == Record(Backward, marker.digest, Some(marker.source))
      requires marker.source in records && records[marker.source].direction.Forward?
      requires RolledBack(marker.rollback) !in centralShelves
      modifies `rollbackMarker
      ensures Valid() && rollbackMarker == Some(marker)
      ensures calm ==> f.Go?
    {
      rollbackMarker := Some(marker);
      f := Tick(calm || tearing);
    }

    method InstallLocal(mail: Mail, marker: RollbackMarker) returns (f: Fault)
      requires Valid() && layout.Central? && inbox.None? && messages.None? && !locks
      requires marker.digest == mail && marker.rollback in records
      requires records[marker.rollback] == Record(Backward, mail, Some(marker.source))
      requires marker.source in records && records[marker.source].direction.Forward?
      requires RolledBack(marker.rollback) !in centralShelves
      modifies `inbox, `messages, `locks, `rollbackMarker
      ensures Valid()
      ensures f.Go? ==> inbox == Some(mail.inbox) && messages == Some(mail.messages) && rollbackMarker == Some(marker)
      ensures calm ==> f.Go?
    {
      f := InstallRoots(mail);
      if !f.Go? { return; }
      f := WriteRollbackMarker(marker);
      if f.Go? { f := AssertLocal(mail); }
    }

    method PrepareLocalCandidate(mail: Mail, marker: RollbackMarker) returns (f: Fault)
      requires Valid() && layout.Central?
      requires marker.digest == mail && marker.rollback in records
      requires records[marker.rollback] == Record(Backward, mail, Some(marker.source))
      requires marker.source in records && records[marker.source].direction.Forward?
      requires RolledBack(marker.rollback) !in centralShelves
      modifies `inbox, `messages, `locks, `shelves, `nextOp, `rollbackMarker
      ensures Valid() && nextOp >= old(nextOp)
      ensures f.Go? ==> inbox == Some(mail.inbox) && messages == Some(mail.messages) && rollbackMarker == Some(marker)
      ensures calm ==> f.Go?
      ensures Preserved(old(shelves), shelves)
      ensures NewNames(old(shelves), shelves, old(nextOp), Some(marker.rollback))
      ensures old(inbox).Some? ==> KeepsInbox(old(inbox))
      ensures old(messages).Some? ==> KeepsMessages(old(messages))
    {
      var name;
      f, name := QuarantineLocal(marker.rollback);
      if name.Some? { RewrittenKeeps(old(shelves), shelves, name.value); }
      if !f.Go? { return; }
      f := InstallLocal(mail, marker);
    }

    /** Exactly the states from which an undisturbed rollback of this manifest succeeds. */
    ghost predicate RollbackReady(manifest: Ref)
      reads `bookmark, `layout, `central, `stagedRecords, `records, `rollbackMarker, `inbox, `messages
    {
      ReadyToRollBack(manifest, layout, inbox, messages, central, records, stagedRecords, rollbackMarker, bookmark)
    }

    /** The requested generation is detached, the bookmark is gone, the local tree is in charge. */
    ghost predicate Restored(manifest: Ref)
      reads `layout, `bookmark, `central
    {
      layout.Local? && bookmark.NoBookmark? && (central.Some? ==> central.value.op != manifest.op)
    }

    /** Finish a rollback whose cutover already committed. */
    method RollbackLocal(manifest: Ref) returns (r: Outcome)
      requires Valid() && layout.Local?
      modifies `bookmark, `central, `centralShelves
      ensures Valid()
      ensures r.Done? ==> Restored(manifest)
      ensures !r.UnknownError?
      ensures old(TornImport()) ==> !r.Done? && TornImport()
      ensures calm ==> (r.Done? <==> old(RollbackReady(manifest)))
      ensures old(RollbackReady(manifest)) ==> RollbackReady(manifest)
    {
      if manifest.op !in records || records[manifest.op].direction.Backward? { return Refused; }
      if rollbackMarker.None? || rollbackMarker.value.source != manifest.op { return Refused; }
      if inbox.None? || messages.None? { return Refused; }
      var f := Tick(calm || tearing);
      if !f.Go? { return Failure(f, false); }
      r := Detach(manifest);
    }

    /** Remove the bookmark and set aside the detached generation. */
    method Detach(manifest: Ref) returns (r: Outcome)
      requires Valid() && layout.Local? && inbox.Some? && messages.Some?
      requires rollbackMarker.Some? && rollbackMarker.value.source == manifest.op
      modifies `bookmark, `central, `centralShelves
      ensures Valid()
      ensures r.Done? ==> Restored(manifest)
      ensures r.Done? || r.CommittedError? || r.Crashed?
      ensures old(TornImport()) ==> !r.Done? && TornImport()
      ensures calm ==> (r.Done? <==> old(RollbackReady(manifest)))
      ensures old(RollbackReady(manifest)) ==> RollbackReady(manifest)
    {
      var f := RemoveBookmark();
      if f.Go? && central.Some? { f := RetireDetached(manifest.op); }
      r := if f.Go? then Done else Failure(f, true);
    }

    /** Set aside the generation this rollback detached; a later candidate is only checked. */
    method RetireDetached(source: OpId) returns (f: Fault)
      requires Valid() && layout.Local? && central.Some? && rollbackMarker.Some? &&
               rollbackMarker.value.source == source
      modifies `central, `centralShelves
      ensures Valid()
      ensures f.Go? ==> central.Some? ==> central.value.op != source
      ensures old(TornImport()) ==> !f.Go? && TornImport()
      ensures calm ==>
        (f.Go? <==> old(central).value.manifest.Canonical? && (old(central).value.op == source || old(Pristine())))
      ensures central == old(central) || (central.None? && old(central).value.op == source)
    {
      f := VerifyCentral();
      if f.Go? {
        if central.value.op == source {
          f := QuarantineCentral(RolledBack(rollbackMarker.value.rollback), false);
        } else if central.value.mail != central.value.digest {
          f := Fail;
        }
      }
    }

    method AssertCentral(snapshot: Mail) returns (f: Fault)
      requires Valid()
      ensures f.Go? ==> central.Some? && central.value.mail == snapshot
      ensures calm ==> (f.Go? <==> central.Some? && central.value.mail == snapshot)
    {
      if central.None? || central.value.mail != snapshot { return Fail; }
      f := Tick(calm || tearing);
    }

    /** Flip the registry row back and retire the central tree. */
    method CutoverBack(manifest: Ref, snapshot: Mail) returns (r: Outcome, rereadFailed: bool)
      requires Valid() && layout.Central? && snapshot == Box() && central.value.manifest.Canonical?
      requires LocalMail() == snapshot && inbox.Some? && messages.Some?
      requires central.value.op == manifest.op
      requires rollbackMarker.Some? && rollbackMarker.value.source == manifest.op
      requires !bookmark.Foreign?
      modifies `layout, `bookmark, `central, `centralShelves
      ensures Valid()
      ensures r.Done? ==> Restored(manifest)
      ensures r.Refused? ==> layout.Central?
      ensures r.CommittedError? ==> layout.Local?
      ensures r.UnknownError? ==> rereadFailed
      ensures calm ==> r.Done?
      ensures RollbackReady(manifest)
    {
      rereadFailed := false;
      var f := AssertCentral(snapshot);
      if !f.Go? { r := Failure(f, false); return; }
      f := FlipLayout(Central, Local);
      if f.Die? { r := Crashed; return; }
      if f.Fail? {
        r, rereadFailed := CommitObserved(Local);
        return;
      }
      f := RetireCentral(manifest, snapshot);
      r := if f.Go? then Done else Failure(f, true);
    }

    /** What follows the flip: the central tree is checked once more, then unlinked and set aside. */
    method RetireCentral(manifest: Ref, snapshot: Mail) returns (f: Fault)
      requires Valid() && RollbackReady(manifest) && layout.Local?
      requires central.Some? && central.value.mail == snapshot && central.value.op == manifest.op
      modifies `bookmark, `central, `centralShelves
      ensures Valid() && RollbackReady(manifest)
      ensures f.Go? ==> Restored(manifest)
      ensures calm ==> f.Go?
    {
      f := AssertCentral(snapshot);
      if !f.Go? { return; }
      f := RemoveBookmark();
      if !f.Go? { return; }
      f := QuarantineCentral(RolledBack(manifest.op), false);
    }

    method RollbackCentral(manifest: Ref) returns (r: Outcome, rereadFailed: bool)
      requires Valid() && layout.Central?
      modifies `layout, `inbox, `messages, `locks, `central, `archives, `records, `stagedRecords,
               `shelves, `centralShelves, `bookmark, `nextOp, `rollbackMarker
      ensures Valid() && nextOp >= old(nextOp)
      ensures r.Done? ==> Restored(manifest)
      ensures r.Refused? ==> layout.Central?
      ensures r.CommittedError? ==> layout.Local?
      ensures r.UnknownError? ==> rereadFailed
      ensures old(TornImport()) ==> !r.Done? && TornImport()
      ensures calm ==> (r.Done? <==> old(RollbackReady(manifest)))
      ensures old(RollbackReady(manifest)) && !TornImport() ==> RollbackReady(manifest)
      ensures Preserved(old(shelves), shelves)
      ensures NewNames(old(shelves), shelves, old(nextOp), None)
      ensures Grows(old(archives), archives)
      ensures old(inbox).Some? ==> KeepsInbox(old(inbox))
      ensures old(messages).Some? ==> KeepsMessages(old(messages))
    {
      hide Minted, RecordsAgree, CentralBound, MarkerBound, RetirementFree;
      var f := VerifyRequested(manifest);
      if f.Go? {
        r, rereadFailed := RollbackVerified(manifest);
      } else {
        r, rereadFailed := Failure(f, false), false;
      }
    }

    /** Check the active generation, importing a legacy one, and that it is the one requested. */
    method VerifyRequested(manifest: Ref) returns (f: Fault)
      requires Valid() && layout.Central?
      modifies `central, `records, `stagedRecords
      ensures Valid()
      ensures f.Go? ==>
        central.Some? && central.value.op == manifest.op && central.value.manifest.Canonical? && !bookmark.Foreign?
      ensures old(TornImport()) ==> !f.Go? && TornImport()
      ensures calm ==> (f.Go? <==> old(RollbackReady(manifest)))
      ensures old(RollbackReady(manifest)) && !TornImport() ==> RollbackReady(manifest)
    {
      f := VerifyImporting();
      if f.Go? && (central.value.op != manifest.op || bookmark.Foreign?) { f := Fail; }
    }

    /** The rollback of the active generation, once it and the manifest have been verified. */
    method RollbackVerified(manifest: Ref) returns (r: Outcome, rereadFailed: bool)
      requires Valid() && layout.Central? && !bookmark.Foreign?
      requires central.Some? && central.value.op == manifest.op && central.value.manifest.Canonical?
      modifies `layout, `inbox, `messages, `locks, `central, `archives, `records, `stagedRecords,
               `shelves, `centralShelves, `bookmark, `nextOp, `rollbackMarker
      ensures Valid() && nextOp >= old(nextOp)
      ensures r.Done? ==> Restored(manifest)
      ensures r.Refused? ==> layout.Central?
      ensures r.CommittedError? ==> layout.Local?
      ensures r.UnknownError? ==> rereadFailed
      ensures calm ==> r.Done?
      ensures RollbackReady(manifest)
      ensures Preserved(old(shelves), shelves)
      ensures NewNames(old(shelves), shelves, old(nextOp), None)
      ensures Grows(old(archives), archives)
      ensures old(inbox).Some? ==> KeepsInbox(old(inbox))
      ensures old(messages).Some? ==> KeepsMessages(old(messages))
    {
      var f := StageBack(manifest.op);
      if f.Go? {
        r, rereadFailed := CutoverBack(manifest, central.value.mail);
      } else {
        r, rereadFailed := Failure(f, false), false;
      }
    }

    /** Back up the central tree and install a copy of it as the local candidate. */
    method StageBack(source: OpId) returns (f: Fault)
      requires Valid() && layout.Central? && central.value.op == source && central.value.manifest.Canonical?
      modifies `inbox, `messages, `locks, `archives, `records, `stagedRecords, `shelves, `nextOp, `rollbackMarker
      ensures Valid() && nextOp >= old(nextOp) && !TornImport()
      ensures f.Go? ==> LocalMail() == central.value.mail && inbox.Some? && messages.Some?
      ensures f.Go? ==> rollbackMarker.Some? && rollbackMarker.value.source == source
      ensures calm ==> f.Go?
      ensures Preserved(old(shelves), shelves)
      ensures NewNames(old(shelves), shelves, old(nextOp), None)
      ensures Grows(old(archives), archives)
      ensures old(inbox).Some? ==> KeepsInbox(old(inbox))
      ensures old(messages).Some? ==> KeepsMessages(old(messages))
    {
      var op;
      f, op := BackUpCentral();
      if f.Go? {
        f := PrepareLocalCandidate(central.value.mail, RollbackMarker(source, op, central.value.mail));
      }
    }

    /** The backup bundle of the central tree and its recovery record. */
    method BackUpCentral() returns (f: Fault, op: OpId)
      requires Valid() && layout.Central? && central.value.manifest.Canonical?
      modifies `archives, `records, `stagedRecords, `nextOp
      ensures Valid() && op == old(nextOp) && nextOp == op + 1
      ensures RolledBack(op) !in centralShelves
      ensures Grows(old(archives), archives)
      ensures forall k :: k in old(records) ==> k in records && records[k] == old(records)[k]
      ensures f.Go? ==> op in records && records[op] == Record(Backward, central.value.mail, Some(central.value.op))
      ensures calm ==> f.Go?
    {
      op := MintOp();
      var record := Record(Backward, central.value.mail, Some(central.value.op));
      f := CreateBackup(op, record);
      if f.Go? { f := WriteRecoveryRecord(op, record, false); }
    }

    /** One run of rollback for the named manifest, under the exclusive layout lock. */
    method Rollback(manifest: Ref) returns (r: Outcome, rereadFailed: bool)
      requires Valid()
      modifies `layout, `inbox, `messages, `locks, `central, `archives, `records, `stagedRecords,
               `shelves, `centralShelves, `bookmark, `nextOp, `rollbackMarker
      // the authoritative tree is the abstract mailbox at every crash point
      ensures Valid() && nextOp >= old(nextOp)
      // honest outcomes
      ensures r.Done? ==> Restored(manifest)
      ensures r.Refused? ==> layout == old(layout)
      ensures r.CommittedError? ==> layout.Local?
      ensures r.UnknownError? ==> rereadFailed
      // an undisturbed run succeeds exactly from the ready states, and crashing keeps them ready
      ensures old(TornImport()) ==> !r.Done? && TornImport()
      ensures calm ==> (r.Done? <==> old(RollbackReady(manifest)))
      ensures old(RollbackReady(manifest)) && !TornImport() ==> RollbackReady(manifest)
      ensures Preserved(old(shelves), shelves)
      ensures NewNames(old(shelves), shelves, old(nextOp), None)
      ensures Grows(old(archives), archives)
      ensures old(layout.Central? && inbox.Some?) ==> KeepsInbox(old(inbox))
      ensures old(layout.Central? && messages.Some?) ==> KeepsMessages(old(messages))
    {
      if layout.Central? {
        r, rereadFailed := RollbackCentral(manifest);
      } else {
        r := RollbackLocal(manifest);
        rereadFailed := false;
      }
    }

    // -------------------------------------------------------------- the mailbox between runs

    /** Publish one message under the shared layout lock: one rename, or nothing. */
    method Deliver(name: string, content: string)
      requires Valid()
      modifies `inbox, `central, `events
      ensures Valid()
      ensures events == old(events) || events == old(events) + [Delivered(name, content)]
      ensures calm && name !in old(Box()).inbox ==> Box().inbox == old(Box()).inbox[name := content]
      ensures old(MigrateReady()) ==> MigrateReady()
      ensures forall manifest :: old(RollbackReady(manifest)) ==> RollbackReady(manifest)
    {
      var f := Tick(calm || tearing);
      if f.Go? { Apply(Delivered(name, content)); }
    }

    /** Move one message inside the inbox under the shared layout lock. */
    method ArchiveMail(source: string, destination: string)
      requires Valid()
      modifies `inbox, `central, `events
      ensures Valid()
      ensures events == old(events) || events == old(events) + [Archived(source, destination)]
      ensures old(MigrateReady()) ==> MigrateReady()
      ensures forall manifest :: old(RollbackReady(manifest)) ==> RollbackReady(manifest)
    {
      var f := Tick(calm || tearing);
      if f.Go? { Apply(Archived(source, destination)); }
    }

    /** The layout chosen under the lock decides which tree the change lands in. */
    method Apply(event: MailEvent)
      requires Valid()
      modifies `inbox, `central, `events
      ensures Valid()
      ensures events == old(events) + [event] && Box() == Effect(old(Box()), event)
      ensures old(MigrateReady()) ==> MigrateReady()
      ensures forall manifest :: old(RollbackReady(manifest)) ==> RollbackReady(manifest)
    {
      if layout.Local? {
        inbox := Some(Effect(Mail(HalfOf(inbox), HalfOf(messages)), event).inbox);
      } else {
        central := Some(central.value.(mail := Effect(central.value.mail, event)));
      }
      events := events + [event];
      assert events[..|events| - 1] == old(events);
      assert Box() == Effect(old(Box()), event);
    }

    /** A writer that ignores the layout scribbles on the tree that is not authoritative. */
    method StrayWrite(mail: Mail)
      requires Valid()
      modifies `inbox, `messages, `central
      ensures Valid()
      ensures layout.Central? ==> inbox == Some(mail.inbox) && messages == Some(mail.messages)
      ensures layout.Central? ==> central == old(central)
    {
      if layout.Central? {
        inbox, messages := Some(mail.inbox), Some(mail.messages);
      } else if central.Some? {
        central := Some(central.value.(mail := mail));
      }
    }

    method ReplaceBookmark(replacement: Bookmark)
      requires Valid()
      modifies `bookmark
      ensures Valid()
    {
      bookmark := replacement;
    }

    /** Unlinks and rmdirs that remove a retired directory. */
    ghost function ShelfWeight(name: ShelfName): nat
      reads `shelves
    {
      if name !in shelves then 0
      else Weight(shelves[name])
    }

    /** One unlink or rmdir of the recursive removal of a retired directory. */
    method PurgeStep(name: ShelfName)
      requires Valid()
      modifies `shelves
      ensures Valid()
      ensures shelves - {name} == old(shelves) - {name}
      ensures name in shelves ==> name in old(shelves) && Within(shelves[name], old(shelves)[name])
      ensures old(name in shelves) ==> ShelfWeight(name) < old(ShelfWeight(name))
    {
      if name !in shelves { return; }
      var left := RemoveOne(shelves[name]);
      match left
      case None => shelves := shelves - {name};
      case Some(s) => shelves := shelves[name := s];
    }
  }

  function RootWeight(half: Option<Half>): nat {
    match half
    case None => 0
    case Some(h) => 1 + |h|
  }

  function Weight(shelf: Shelf): nat {
    1 + RootWeight(shelf.inbox) + RootWeight(shelf.messages) + (if shelf.locks then 1 else 0)
  }

  /** Remove one entry of a retired directory, or the empty directory itself. */
  method RemoveOne(shelf: Shelf) returns (left: Option<Shelf>)
    ensures left.Some? ==> Within(left.value, shelf) && Weight(left.value) < Weight(shelf)
  {
    if shelf.inbox.Some? {
      var half := Trim(shelf.inbox);
      left := Some(shelf.(inbox := half));
    } else if shelf.messages.Some? {
      var half := Trim(shelf.messages);
      left := Some(shelf.(messages := half));
    } else if shelf.locks {
      left := Some(shelf.(locks := false));
    } else {
      left := None;
    }
  }

  /** Unlink one file of a root, or remove the empty root. */
  method Trim(half: Option<Half>) returns (smaller: Option<Half>)
    requires half.Some?
    ensures HalfOf(smaller).Items <= HalfOf(half).Items
    ensures RootWeight(smaller) < RootWeight(half)
  {
    var h := half.value;
    if h == map[] { return None; }
    var p :| p in h;
    Smaller(h, p);
    smaller := Some(h - {p});
  }

  /** What a partial removal leaves. */
  predicate Within(smaller: Shelf, larger: Shelf) {
    && (larger.inbox.None? ==> smaller.inbox.None?)
    && (larger.messages.None? ==> smaller.messages.None?)
    && HalfOf(smaller.inbox).Items <= HalfOf(larger.inbox).Items
    && HalfOf(smaller.messages).Items <= HalfOf(larger.messages).Items
  }

  lemma WithinDisposable(smaller: Shelf, larger: Shelf, archives: map<OpId, Record>)
    requires Within(smaller, larger) && Disposable(larger, archives)
    ensures Disposable(smaller, archives)
  {
    if !HoldsNoMail(larger) {
      var g :| g in archives && archives[g].direction.Forward? && PartOf(larger, archives[g].mail);
      assert PartOf(smaller, archives[g].mail);
    }
  }

  /** The outcome of a run that met a fault, before or after its commit point. */
  function Failure(f: Fault, committed: bool): Outcome {
    if f.Die? then Crashed else if committed then CommittedError else Refused
  }

  predicate HoldsNoMail(shelf: Shelf) {
    shelf.inbox.None? && shelf.messages.None?
  }

  predicate IsExactly(shelf: Shelf, mail: Mail) {
    shelf.inbox == Some(mail.inbox) && shelf.messages == Some(mail.messages)
  }

  /** The directories of one listing are those of the other, but for this one. */
  predicate Rewritten(before: map<ShelfName, Shelf>, after: map<ShelfName, Shelf>, name: ShelfName) {
    name in after && after - {name} == before - {name}
  }

  lemma RewrittenKeeps(before: map<ShelfName, Shelf>, after: map<ShelfName, Shelf>, name: ShelfName)
    requires Rewritten(before, after, name)
    ensures forall n :: n in before && n != name ==> n in after && after[n] == before[n]
    ensures forall n :: n in after && n !in before ==> n == name
  {
    forall n | n in before && n != name
      ensures n in after && after[n] == before[n]
    {
      assert n in before - {name};
      assert (after - {name})[n] == (before - {name})[n];
    }
    forall n | n in after && n != name
      ensures n in before
    {
      assert n in after - {name};
    }
  }

  ghost predicate ShelvedInbox(shelves: map<ShelfName, Shelf>, half: Option<Half>) {
    exists n :: n in shelves && shelves[n].inbox == half
  }

  ghost predicate ShelvedMessages(shelves: map<ShelfName, Shelf>, half: Option<Half>) {
    exists n :: n in shelves && shelves[n].messages == half
  }

  /** No retired directory is gone or changed. */
  ghost predicate Preserved(before: map<ShelfName, Shelf>, after: map<ShelfName, Shelf>) {
    forall n :: n in before ==> n in after && after[n] == before[n]
  }

  /** A name no retired directory can have had while ids below next were minted. */
  predicate NeverUsed(name: ShelfName, next: OpId) {
    name.op >= next || (name.Salted? && name.salt >= next)
  }

  /** New directories have names never used before, except the plain name of this operation. */
  ghost predicate NewNames(before: map<ShelfName, Shelf>, after: map<ShelfName, Shelf>, next: OpId, op: Option<OpId>) {
    forall n :: n in after && n !in before ==> NeverUsed(n, next) || (op.Some? && n == Plain(op.value))
  }

  /** What a completed cleanup of this local tree hands over: the tree an earlier run retired under the
      same id, if it is the whole snapshot, or the tree it retires now, if that is. */
  predicate Retires(inbox: Option<Half>, messages: Option<Half>, locks: bool, before: map<ShelfName, Shelf>,
                    after: map<ShelfName, Shelf>, op: OpId, expected: Mail, purge: Option<ShelfName>)
  {
    var name := Plain(op);
    && (inbox.None? && messages.None? && !locks ==>
          purge == if name in before && IsExactly(before[name], expected) then Some(name) else None)
    && (inbox.Some? && messages.Some? && name !in before ==>
          && name in after && after[name].inbox == inbox && after[name].messages == messages
          && purge == if Mail(inbox.value, messages.value) == expected then Some(name) else None)
  }

  /** This directory, whole, is what the run hands to the purge. */
  predicate HandsOver(purge: Option<ShelfName>, shelves: map<ShelfName, Shelf>, name: ShelfName, mail: Mail) {
    purge == Some(name) && name in shelves && IsExactly(shelves[name], mail)
  }

  predicate Moved(before: Option<Half>, after: Option<Half>, shelved: Option<Half>) {
    (after == before && shelved.None?) || (after.None? && shelved == before)
  }
}
