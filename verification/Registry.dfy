/** The project registry: rows that say which identity lives where, identity markers inside the
    project directories, and a file system that moves, copies and deletes those directories while
    nobody looks. Rows and a marker are two files, so a crash can fall between them. */
module Registry {
  import opened Wrappers

  type Path = string
  type Uuid = string
  type Inode = nat
  type Time = int

  datatype Layout = Local | Central

  datatype Status = Active | Tombstoned(at: Time)

  datatype Row = Row(uuid: Uuid, path: Path, layout: Layout, status: Status, registeredAt: Time)

  datatype Marker = Absent | Named(uuid: Uuid) | Damaged

  /** A directory; a project configuration implies the state directory it lives in. */
  datatype Directory = Directory(state: bool, config: bool, marker: Marker)

  /** Two names can lead to one directory; a drifted name no longer resolves to itself. */
  datatype Disk = Disk(names: map<Path, Inode>, directories: map<Inode, Directory>, drifted: set<Path>) {
    predicate Present(p: Path) { p in names && names[p] in directories }

    predicate Same(p: Path, q: Path) { Present(p) && Present(q) && names[p] == names[q] }

    predicate Available(p: Path) { p !in drifted && Present(p) && directories[names[p]].config }

    /** The root and its state directory can be opened. */
    predicate Guarded(p: Path) {
      Present(p) && (directories[names[p]].state || directories[names[p]].config)
    }

    function MarkerAt(p: Path): Marker {
      if Present(p) then directories[names[p]].marker else Absent
    }

    function WithMarker(p: Path, uuid: Uuid): Disk
      requires Present(p)
    {
      this.(directories := directories[names[p] := directories[names[p]].(marker := Named(uuid))])
    }
  }

  // ---------------------------------------------------------------- what a registry must be

  predicate UniqueIds(rows: seq<Row>) {
    forall i, j :: 0 <= i < j < |rows| ==> rows[i].uuid != rows[j].uuid
  }

  predicate UniqueActivePaths(rows: seq<Row>) {
    forall i, j :: 0 <= i < j < |rows| && rows[i].status.Active? && rows[j].status.Active? ==>
      rows[i].path != rows[j].path
  }

  predicate Sound(rows: seq<Row>) {
    UniqueIds(rows) && UniqueActivePaths(rows)
  }

  /** No two live rows share a directory and no active row's path has drifted. */
  predicate Unaliased(rows: seq<Row>, disk: Disk) {
    && (forall i :: 0 <= i < |rows| && rows[i].status.Active? ==> rows[i].path !in disk.drifted)
    && forall i, j :: 0 <= i < j < |rows| && Live(rows[i], disk) && Live(rows[j], disk) ==>
         disk.names[rows[i].path] != disk.names[rows[j].path]
  }

  predicate Live(row: Row, disk: Disk) {
    row.status.Active? && disk.Available(row.path)
  }

  predicate Witnessed(row: Row, disk: Disk) {
    disk.Guarded(row.path) && disk.MarkerAt(row.path) == Named(row.uuid)
  }

  predicate ActiveAt(row: Row, root: Path, disk: Disk) {
    row.status.Active? && (row.path == root || disk.Same(row.path, root))
  }

  /** A row another directory still answers for: an operation at root must leave it alone. */
  predicate HeldElsewhere(row: Row, root: Path, disk: Disk) {
    row.path != root && disk.Available(row.path) && !disk.Same(row.path, root)
  }

  // ---------------------------------------------------------------- what a run may do to the rows

  /** Rows are only ever appended; a row keeps its identity, and a tombstoned row keeps everything. */
  predicate Evolved(before: seq<Row>, after: seq<Row>) {
    && |before| <= |after|
    && forall i :: 0 <= i < |before| ==>
         && after[i].uuid == before[i].uuid
         && after[i].registeredAt == before[i].registeredAt
         && (before[i].status.Tombstoned? ==> after[i] == before[i])
  }

  lemma EvolvedAlong(a: seq<Row>, b: seq<Row>, c: seq<Row>)
    requires Evolved(a, b) && Evolved(b, c)
    ensures Evolved(a, c)
  {
    forall i | 0 <= i < |a|
      ensures c[i].uuid == a[i].uuid && c[i].registeredAt == a[i].registeredAt &&
              (a[i].status.Tombstoned? ==> c[i] == a[i])
    {
      assert b[i].uuid == a[i].uuid;
    }
  }

  /** Moving one active row to a path no other active row has keeps both kinds of uniqueness. */
  lemma MoveKeepsSound(rows: seq<Row>, k: nat, row: Row)
    requires Sound(rows) && k < |rows| && rows[k].status.Active?
    requires row.uuid == rows[k].uuid && row.registeredAt == rows[k].registeredAt
    requires row.status.Active? ==> forall i :: 0 <= i < |rows| && i != k && rows[i].status.Active? ==>
      rows[i].path != row.path
    ensures Sound(rows[k := row]) && Evolved(rows, rows[k := row])
  {
  }

  lemma AppendKeepsSound(rows: seq<Row>, row: Row)
    requires Sound(rows)
    requires forall i :: 0 <= i < |rows| ==> rows[i].uuid != row.uuid
    requires forall i :: 0 <= i < |rows| && rows[i].status.Active? ==> rows[i].path != row.path
    ensures Sound(rows + [row]) && Evolved(rows, rows + [row])
  {
  }

  // ---------------------------------------------------------------- when a request is honoured

  predicate AllWitnessed(rows: seq<Row>, disk: Disk) {
    forall i :: 0 <= i < |rows| && rows[i].status.Active? ==> Witnessed(rows[i], disk)
  }

  /** At most one active row answers for root, and then root carries its identity. Without one, an
      unmarked root needs every active identity accounted for, and a marker must not belong to
      an active row that still holds a project elsewhere. */
  predicate Admissible(rows: seq<Row>, disk: Disk, root: Path) {
    && disk.Guarded(root) && Sound(rows) && Unaliased(rows, disk) && !disk.MarkerAt(root).Damaged?
    && (forall i, j :: 0 <= i < j < |rows| && ActiveAt(rows[i], root, disk) ==> !ActiveAt(rows[j], root, disk))
    && (forall i :: 0 <= i < |rows| && ActiveAt(rows[i], root, disk) ==> disk.MarkerAt(root) == Named(rows[i].uuid))
    && (disk.MarkerAt(root).Absent? ==> AllWitnessed(rows, disk))
    && forall i :: 0 <= i < |rows| && rows[i].status.Active? && disk.MarkerAt(root) == Named(rows[i].uuid) ==>
         !HeldElsewhere(rows[i], root, disk)
  }

  predicate Removable(rows: seq<Row>, disk: Disk, root: Path) {
    && Sound(rows) && Unaliased(rows, disk)
    && (disk.Guarded(root) ==>
          match disk.MarkerAt(root)
          case Damaged => false
          case Absent => AllWitnessed(rows, disk) && forall i :: 0 <= i < |rows| ==> !ActiveAt(rows[i], root, disk)
          case Named(uuid) =>
            exists i :: 0 <= i < |rows| && rows[i].uuid == uuid &&
                        (rows[i].status.Active? ==> !HeldElsewhere(rows[i], root, disk)))
  }

  /** The row that carries root's identity may follow it there. */
  predicate Followable(rows: seq<Row>, disk: Disk, root: Path) {
    && Sound(rows) && Unaliased(rows, disk) && disk.MarkerAt(root).Named?
    && exists k :: 0 <= k < |rows| && rows[k].uuid == disk.MarkerAt(root).uuid && rows[k].status.Active?
         && (rows[k].path != root ==>
               && !HeldElsewhere(rows[k], root, disk)
               && forall i :: 0 <= i < |rows| && i != k ==> !Claims(rows[i], root, disk))
  }

  predicate Claims(row: Row, root: Path, disk: Disk) {
    row.status.Active? && (row.path == root || (disk.Available(row.path) && disk.Same(row.path, root)))
  }

  /** What registering may leave behind: nothing; a marker that no row has; the row of the marker's
      own identity, moved; or the marker and a new row for it. */
  predicate Registered(rows: seq<Row>, disk: Disk, after: seq<Row>, diskAfter: Disk, root: Path, at: Time) {
    && Evolved(rows, after)
    && (diskAfter != disk ==>
          && disk.Present(root) && diskAfter.MarkerAt(root).Named?
          && diskAfter == disk.WithMarker(root, diskAfter.MarkerAt(root).uuid)
          && (disk.MarkerAt(root).Named? ==> Retired(rows, disk.MarkerAt(root).uuid))
          && forall i :: 0 <= i < |rows| ==> rows[i].uuid != diskAfter.MarkerAt(root).uuid)
    && (after != rows ==>
          && diskAfter.MarkerAt(root).Named?
          && Vacant(rows, root, disk)
          && if |after| == |rows|
             then disk == diskAfter && Follows(rows, after, diskAfter.MarkerAt(root).uuid, root, disk)
             else
               && after == rows + [Row(diskAfter.MarkerAt(root).uuid, root, Local, Active, at)]
               && forall i :: 0 <= i < |rows| ==> rows[i].uuid != diskAfter.MarkerAt(root).uuid)
  }

  predicate Vacant(rows: seq<Row>, root: Path, disk: Disk) {
    forall i :: 0 <= i < |rows| ==> !ActiveAt(rows[i], root, disk)
  }

  /** Registering never touches a tombstoned row, nor a row whose own path still holds a project,
      and never writes an identity some row already has over a live marker. */
  lemma RegisteringSpares(rows: seq<Row>, disk: Disk, after: seq<Row>, diskAfter: Disk, root: Path, at: Time, i: nat)
    requires Registered(rows, disk, after, diskAfter, root, at) && UniqueIds(rows) && i < |rows|
    requires rows[i].status.Tombstoned? || HeldElsewhere(rows[i], root, disk)
    ensures after[i] == rows[i]
    ensures disk.MarkerAt(root) == Named(rows[i].uuid) && rows[i].status.Active? ==> diskAfter == disk
  {
  }

  /** An interrupted registration leaves root's marker naming an identity that is not retired. */
  lemma InterruptedIsNotRetired(rows: seq<Row>, disk: Disk, mid: seq<Row>, diskMid: Disk, root: Path, at: Time)
    requires UniqueIds(mid) && Registered(rows, disk, mid, diskMid, root, at)
    requires diskMid != disk || mid != rows
    ensures diskMid.MarkerAt(root).Named? && !Retired(mid, diskMid.MarkerAt(root).uuid)
  {
    var uuid := diskMid.MarkerAt(root).uuid;
    if mid != rows {
      var k :| 0 <= k < |mid| && mid[k].uuid == uuid && mid[k].status.Active?;
      forall i | 0 <= i < |mid| && mid[i].uuid == uuid
        ensures i == k
      {
        assert i < k || k < i || i == k;
      }
    }
  }

  /** It also leaves the registry sound, so the retry is admissible. */
  lemma InterruptedIsAdmissible(rows: seq<Row>, disk: Disk, mid: seq<Row>, diskMid: Disk, root: Path, at: Time)
    requires Admissible(rows, disk, root) && root !in disk.drifted
    requires Sound(mid) && Registered(rows, disk, mid, diskMid, root, at)
    requires diskMid != disk || mid != rows
    ensures Admissible(mid, diskMid, root)
  {
    MarkerMovesNothing(rows, disk, diskMid, root);
    if mid == rows {
    } else if |mid| == |rows| {
      var k :| 0 <= k < |rows| && rows[k].uuid == diskMid.MarkerAt(root).uuid && rows[k].status.Active?
        && mid == rows[k := rows[k].(path := root)];
      HomedIsAdmissible(mid, diskMid, root, k);
    } else {
      HomedIsAdmissible(mid, diskMid, root, |rows|);
    }
  }

  lemma MarkerMovesNothing(rows: seq<Row>, disk: Disk, after: Disk, root: Path)
    requires after == disk ||
             (disk.Present(root) && after.MarkerAt(root).Named? &&
              after == disk.WithMarker(root, after.MarkerAt(root).uuid))
    ensures forall p :: after.Available(p) == disk.Available(p) && after.Guarded(p) == disk.Guarded(p)
    ensures forall i :: 0 <= i < |rows| ==> ActiveAt(rows[i], root, after) == ActiveAt(rows[i], root, disk)
    ensures Unaliased(rows, after) == Unaliased(rows, disk)
  {
    assert after.names == disk.names && after.directories.Keys == disk.directories.Keys &&
           after.drifted == disk.drifted;
    assert forall p :: after.Available(p) == disk.Available(p);
    assert forall i :: 0 <= i < |rows| ==> Live(rows[i], after) == Live(rows[i], disk);
  }

  lemma HomedIsAdmissible(rows: seq<Row>, disk: Disk, root: Path, k: nat)
    requires Sound(rows) && disk.Guarded(root) && root !in disk.drifted
    requires k < |rows| && rows[k].status.Active? && rows[k].path == root && disk.MarkerAt(root) == Named(rows[k].uuid)
    requires forall i :: 0 <= i < |rows| && i != k ==> !ActiveAt(rows[i], root, disk)
    requires forall i :: 0 <= i < |rows| && i != k && rows[i].status.Active? ==> rows[i].path !in disk.drifted
    requires forall i, j :: 0 <= i < j < |rows| && i != k && j != k && Live(rows[i], disk) && Live(rows[j], disk) ==>
               disk.names[rows[i].path] != disk.names[rows[j].path]
    ensures Admissible(rows, disk, root)
  {
    forall i, j | 0 <= i < j < |rows| && Live(rows[i], disk) && Live(rows[j], disk)
      ensures disk.names[rows[i].path] != disk.names[rows[j].path]
    {
      assert i == k ==> !ActiveAt(rows[j], root, disk);
      assert j == k ==> !ActiveAt(rows[i], root, disk);
    }
    forall i | 0 <= i < |rows| && rows[i].uuid == rows[k].uuid
      ensures i == k
    {
      assert i < k || k < i || i == k;
    }
  }

  /** The only identity a retry may use is the one the marker already carries. */
  lemma RetryKeepsMarker(rows: seq<Row>, disk: Disk, end: seq<Row>, diskEnd: Disk, root: Path, at: Time)
    requires Sound(rows) && disk.MarkerAt(root).Named? && !Retired(rows, disk.MarkerAt(root).uuid)
    requires Registered(rows, disk, end, diskEnd, root, at)
    ensures diskEnd == disk
    ensures end != rows ==> forall i :: 0 <= i < |end| && ActiveAt(end[i], root, disk) ==>
      Named(end[i].uuid) == disk.MarkerAt(root)
  {
  }

  /** The identity belongs to a tombstoned row. */
  predicate Retired(rows: seq<Row>, uuid: Uuid) {
    exists i :: 0 <= i < |rows| && rows[i].uuid == uuid && rows[i].status.Tombstoned?
  }

  /** Exactly the active row of this identity moved to root, and nothing else held it. */
  predicate Follows(rows: seq<Row>, after: seq<Row>, uuid: Uuid, root: Path, disk: Disk) {
    exists k :: 0 <= k < |rows| && rows[k].uuid == uuid && rows[k].status.Active?
      && !HeldElsewhere(rows[k], root, disk) && after == rows[k := rows[k].(path := root)]
  }

  /** Exactly one active row was tombstoned, at root: the row of root's identity, not held elsewhere,
      or, when root holds no project state, the row registered at that very path. */
  predicate Buried(rows: seq<Row>, after: seq<Row>, root: Path, at: Time, disk: Disk) {
    exists k :: 0 <= k < |rows| && rows[k].status.Active? && !HeldElsewhere(rows[k], root, disk)
      && (if disk.Guarded(root) then disk.MarkerAt(root) == Named(rows[k].uuid) else rows[k].path == root)
      && after == rows[k := rows[k].(path := root, status := Tombstoned(at))]
  }

  /** An active row answers for root, which carries its identity. */
  predicate Homed(rows: seq<Row>, disk: Disk, root: Path) {
    exists k :: 0 <= k < |rows| && ActiveAt(rows[k], root, disk) && disk.MarkerAt(root) == Named(rows[k].uuid)
  }

  /** A copy of a registered project cannot be registered while the original is in place. */
  lemma CopyIsRefused(rows: seq<Row>, disk: Disk, k: nat, copy: Path)
    requires k < |rows| && Live(rows[k], disk) && Witnessed(rows[k], disk)
    requires disk.MarkerAt(copy) == Named(rows[k].uuid) && !disk.Same(rows[k].path, copy)
    ensures !Admissible(rows, disk, copy) && !Followable(rows, disk, copy)
    ensures disk.Guarded(copy) ==> !Removable(rows, disk, copy)
  {
    assert HeldElsewhere(rows[k], copy, disk);
    if Sound(rows) && disk.MarkerAt(copy).Named? {
      forall i | 0 <= i < |rows| && rows[i].uuid == rows[k].uuid
        ensures i == k
      {
      }
    }
  }

  /** A registered project that was moved to a free place is welcome there, by either route. */
  lemma MovedIsAdmitted(rows: seq<Row>, disk: Disk, k: nat, target: Path)
    requires Sound(rows) && Unaliased(rows, disk)
    requires k < |rows| && rows[k].status.Active? && !disk.Present(rows[k].path)
    requires disk.Guarded(target) && disk.MarkerAt(target) == Named(rows[k].uuid)
    requires forall i :: 0 <= i < |rows| ==> !ActiveAt(rows[i], target, disk)
    ensures Admissible(rows, disk, target) && Followable(rows, disk, target)
  {
    assert !HeldElsewhere(rows[k], target, disk);
    forall i | 0 <= i < |rows| && i != k
      ensures rows[i].uuid != rows[k].uuid && !Claims(rows[i], target, disk)
    {
      assert !ActiveAt(rows[i], target, disk);
    }
  }

  /** What a strict read remembers of the first n rows. */
  predicate Seen(rows: seq<Row>, disk: Disk, n: nat, ids: set<Uuid>, paths: set<Path>, inodes: set<Inode>)
    requires n <= |rows|
  {
    && ids == (set k | 0 <= k < n :: rows[k].uuid)
    && paths == (set k | 0 <= k < n && rows[k].status.Active? :: rows[k].path)
    && inodes == (set k | 0 <= k < n && Live(rows[k], disk) :: disk.names[rows[k].path])
  }

  predicate Repeats(row: Row, disk: Disk, ids: set<Uuid>, paths: set<Path>, inodes: set<Inode>) {
    || row.uuid in ids
    || (row.status.Active? && (row.path in paths || row.path in disk.drifted))
    || (Live(row, disk) && disk.names[row.path] in inodes)
  }

  lemma RepeatIsUnsound(rows: seq<Row>, disk: Disk, n: nat, ids: set<Uuid>, paths: set<Path>, inodes: set<Inode>)
    requires n < |rows| && Seen(rows, disk, n, ids, paths, inodes) && Repeats(rows[n], disk, ids, paths, inodes)
    ensures !(Sound(rows) && Unaliased(rows, disk))
  {
  }

  lemma FreshIsSound(rows: seq<Row>, disk: Disk, n: nat, ids: set<Uuid>, paths: set<Path>, inodes: set<Inode>)
    requires n < |rows| && Seen(rows, disk, n, ids, paths, inodes) && !Repeats(rows[n], disk, ids, paths, inodes)
    requires Sound(rows[..n]) && Unaliased(rows[..n], disk)
    ensures Sound(rows[..n + 1]) && Unaliased(rows[..n + 1], disk)
  {
    assert forall k :: 0 <= k < n ==> rows[..n][k] == rows[k] == rows[..n + 1][k];
    assert rows[..n + 1][n] == rows[n];
  }

  predicate Overwritable(marker: Marker, replaced: Option<Uuid>) {
    marker.Absent? || (replaced.Some? && marker == Named(replaced.value))
  }

  /** Written: the file was replaced. Kept: nothing to change. Refused: the request was declined.
      Broken: a system call failed or the process died, at whatever point. */
  datatype Outcome = Written | Kept | Refused | Broken

  datatype Action =
    | Register(root: Path, at: Time)
    | Unregister(root: Path, at: Time)
    | Reindex(root: Path)
    | Flip(uuid: Uuid, root: Path, expected: Layout, desired: Layout)
    | Rearrange(disk: Disk)

  class ProjectRegistry {
    var rows: seq<Row>
    var disk: Disk
    var calm: bool

    constructor (disk: Disk)
      ensures Sound(rows) && rows == [] && this.disk == disk
    {
      rows := [];
      this.disk := disk;
      calm := false;
    }

    /** The strict read every update starts with: refuse the whole file when one row is not sound. */
    method ReadStrictly() returns (ok: bool)
      ensures ok <==> Sound(rows) && Unaliased(rows, disk)
    {
      var ids: set<Uuid>, paths: set<Path>, inodes: set<Inode> := {}, {}, {};
      for i := 0 to |rows|
        invariant Sound(rows[..i]) && Unaliased(rows[..i], disk)
        invariant Seen(rows, disk, i, ids, paths, inodes)
      {
        var row := rows[i];
        if Repeats(row, disk, ids, paths, inodes) {
          RepeatIsUnsound(rows, disk, i, ids, paths, inodes);
          return false;
        }
        FreshIsSound(rows, disk, i, ids, paths, inodes);
        ids := ids + {row.uuid};
        if row.status.Active? { paths := paths + {row.path}; }
        if Live(row, disk) { inodes := inodes + {disk.names[row.path]}; }
      }
      assert rows[..|rows|] == rows;
      ok := true;
    }

    method FindIdentity(uuid: Uuid) returns (k: Option<nat>)
      ensures k.Some? ==> k.value < |rows| && rows[k.value].uuid == uuid
      ensures k.None? ==> forall i :: 0 <= i < |rows| ==> rows[i].uuid != uuid
    {
      for i := 0 to |rows|
        invariant forall j :: 0 <= j < i ==> rows[j].uuid != uuid
      {
        if rows[i].uuid == uuid { return Some(i); }
      }
      k := None;
    }

    method FindOccupant(root: Path) returns (k: Option<nat>, several: bool)
      ensures k.Some? ==> k.value < |rows| && ActiveAt(rows[k.value], root, disk)
      ensures !several ==> forall i :: 0 <= i < |rows| && ActiveAt(rows[i], root, disk) ==> k == Some(i)
      ensures several ==>
        exists i, j :: 0 <= i < j < |rows| && ActiveAt(rows[i], root, disk) && ActiveAt(rows[j], root, disk)
    {
      k, several := None, false;
      for i := 0 to |rows|
        invariant k.Some? ==> k.value < i && ActiveAt(rows[k.value], root, disk)
        invariant forall j :: 0 <= j < i && ActiveAt(rows[j], root, disk) ==> k == Some(j)
      {
        if ActiveAt(rows[i], root, disk) {
          if k.Some? { return k, true; }
          k := Some(i);
        }
      }
    }

    method CheckWitnesses() returns (ok: bool)
      ensures ok <==> AllWitnessed(rows, disk)
    {
      for i := 0 to |rows|
        invariant AllWitnessed(rows[..i], disk)
      {
        if rows[i].status.Active? && !Witnessed(rows[i], disk) { return false; }
        assert forall j :: 0 <= j <= i ==> rows[..i + 1][j] == rows[j];
        assert forall j :: 0 <= j < i ==> rows[..i][j] == rows[j];
      }
      assert rows[..|rows|] == rows;
      ok := true;
    }

    /** Random identities, until one is not in the registry. */
    method Mint() returns (uuid: Option<Uuid>)
      ensures uuid.Some? ==> forall i :: 0 <= i < |rows| ==> rows[i].uuid != uuid.value
    {
      for attempt := 0 to 32 {
        var candidate: Uuid := *;
        var k := FindIdentity(candidate);
        if k.None? { return Some(candidate); }
      }
      uuid := None;
    }

    /** Replace the registry file in one step; the call may fail, or the process die, on either side of it. */
    method Commit(next: seq<Row>) returns (f: Fault)
      modifies `rows
      ensures rows == old(rows) || rows == next
      ensures f.Go? ==> rows == next
      ensures calm ==> f.Go?
    {
      f := Tick(calm);
      if !f.Go? { return; }
      rows := next;
      f := Tick(calm);
    }

    /** Publish an identity marker. It never overwrites a marker other than the one being replaced. */
    method WriteIdentity(root: Path, uuid: Uuid, replaced: Option<Uuid>) returns (f: Fault)
      requires disk.Present(root)
      modifies `disk
      ensures disk == old(disk) || disk == old(disk).WithMarker(root, uuid)
      ensures disk != old(disk) ==> Overwritable(old(disk).MarkerAt(root), replaced)
      ensures f.Go? ==> disk.MarkerAt(root) == Named(uuid)
      ensures calm && (old(disk).MarkerAt(root) == Named(uuid) || Overwritable(old(disk).MarkerAt(root), replaced)) ==>
        f.Go?
    {
      f := Tick(calm);
      if !f.Go? { return; }
      var current := disk.MarkerAt(root);
      if current != Named(uuid) {
        if !Overwritable(current, replaced) { return Fail; }
        disk := disk.WithMarker(root, uuid);
      }
      f := Tick(calm);
    }

    /** A new row for an identity no row has, its marker first. */
    method Adopt(root: Path, at: Time, uuid: Uuid, replaced: Option<Uuid>) returns (r: Outcome)
      requires Sound(rows) && disk.Present(root)
      requires forall i :: 0 <= i < |rows| ==> rows[i].uuid != uuid && !ActiveAt(rows[i], root, disk)
      requires replaced.Some? ==> disk.MarkerAt(root) == Named(replaced.value)
      requires replaced.None? ==> disk.MarkerAt(root).Absent? || disk.MarkerAt(root) == Named(uuid)
      modifies `rows, `disk
      ensures Sound(rows) && Evolved(old(rows), rows)
      ensures rows == old(rows) || rows == old(rows) + [Row(uuid, root, Local, Active, at)]
      ensures disk == old(disk) || disk == old(disk).WithMarker(root, uuid)
      ensures rows != old(rows) ==> disk.MarkerAt(root) == Named(uuid)
      ensures r == Written || r == Broken
      ensures r.Written? ==> rows == old(rows) + [Row(uuid, root, Local, Active, at)]
      ensures calm ==> r.Written?
    {
      var f := WriteIdentity(root, uuid, replaced);
      if !f.Go? { return Broken; }
      AppendKeepsSound(rows, Row(uuid, root, Local, Active, at));
      f := Commit(rows + [Row(uuid, root, Local, Active, at)]);
      r := if f.Go? then Written else Broken;
    }

    method Register(root: Path, at: Time) returns (r: Outcome)
      modifies `rows, `disk
      ensures Sound(old(rows)) ==> Sound(rows)
      ensures Registered(old(rows), old(disk), rows, disk, root, at)
      ensures r.Refused? <==> !Admissible(old(rows), old(disk), root)
      ensures r.Refused? || r.Kept? ==> rows == old(rows) && disk == old(disk)
      ensures r.Written? || r.Kept? ==> Homed(rows, disk, root)
      ensures calm && r.Broken? ==>
        !old(disk).MarkerAt(root).Named? || Retired(old(rows), old(disk).MarkerAt(root).uuid)
    {
      if !disk.Guarded(root) { return Refused; }
      var strict := ReadStrictly();
      var marker := disk.MarkerAt(root);
      if !strict || marker.Damaged? { return Refused; }
      var occupant, several := FindOccupant(root);
      if several { return Refused; }
      if occupant.Some? {
        r := if marker == Named(rows[occupant.value].uuid) then Kept else Refused;
        return;
      }
      if marker.Absent? {
        var witnessed := CheckWitnesses();
        if !witnessed { return Refused; }
        r := AdoptFresh(root, at, None);
      } else {
        r := RegisterMarked(root, at, marker.uuid);
      }
    }

    method AdoptFresh(root: Path, at: Time, replaced: Option<Uuid>) returns (r: Outcome)
      requires Sound(rows) && disk.Present(root)
      requires forall i :: 0 <= i < |rows| ==> !ActiveAt(rows[i], root, disk)
      requires if replaced.Some? then disk.MarkerAt(root) == Named(replaced.value) else disk.MarkerAt(root).Absent?
      requires replaced.Some? ==> Retired(rows, replaced.value)
      modifies `rows, `disk
      ensures Sound(rows) && Registered(old(rows), old(disk), rows, disk, root, at)
      ensures r.Written? || r.Broken?
      ensures r.Written? ==> Homed(rows, disk, root)
    {
      var uuid := Mint();
      if uuid.None? { return Broken; }
      r := Adopt(root, at, uuid.value, replaced);
      if r.Written? { assert ActiveAt(rows[|rows| - 1], root, disk); }
    }

    /** The root carries a marker and no active row answers for it. */
    method RegisterMarked(root: Path, at: Time, uuid: Uuid) returns (r: Outcome)
      requires Sound(rows) && disk.Present(root) && disk.MarkerAt(root) == Named(uuid)
      requires forall i :: 0 <= i < |rows| ==> !ActiveAt(rows[i], root, disk)
      modifies `rows, `disk
      ensures Sound(rows) && Registered(old(rows), old(disk), rows, disk, root, at)
      ensures r.Refused? <==>
        exists i :: 0 <= i < |old(rows)| && old(rows)[i].status.Active? && old(rows)[i].uuid == uuid
                      && HeldElsewhere(old(rows)[i], root, old(disk))
      ensures r.Refused? || r.Kept? ==> rows == old(rows) && disk == old(disk)
      ensures !r.Kept?
      ensures r.Written? ==> Homed(rows, disk, root)
      ensures calm && r.Broken? ==> Retired(old(rows), uuid)
    {
      var k := FindIdentity(uuid);
      if k.None? {
        r := Adopt(root, at, uuid, None);
        if r.Written? { assert ActiveAt(rows[|rows| - 1], root, disk); }
      } else if rows[k.value].status.Active? {
        if HeldElsewhere(rows[k.value], root, disk) { return Refused; }
        var row := rows[k.value].(path := root);
        assert forall i :: 0 <= i < |rows| && i != k.value && rows[i].status.Active? ==> !ActiveAt(rows[i], root, disk);
        MoveKeepsSound(rows, k.value, row);
        var f := Commit(rows[k.value := row]);
        r := if f.Go? then Written else Broken;
        if f.Go? { assert ActiveAt(rows[k.value], root, disk); }
      } else {
        r := AdoptFresh(root, at, Some(uuid));
      }
    }

    /** A registration that broke off anywhere is finished by the next one, under the identity it had
        already written to the marker. */
    method RegisterTwice(root: Path, first: Time, second: Time) returns (marked: Option<Uuid>, r: Outcome)
      requires Admissible(rows, disk, root) && root !in disk.drifted
      modifies this
      ensures Sound(rows) && Evolved(old(rows), rows)
      ensures marked.None? ==> Registered(old(rows), old(disk), rows, disk, root, second)
      ensures marked.Some? ==>
        (r.Written? || r.Kept?) && Homed(rows, disk, root) && disk.MarkerAt(root) == Named(marked.value)
    {
      var rowsBefore, diskBefore := rows, disk;
      calm := false;
      r := Register(root, first);
      if rows == rowsBefore && disk == diskBefore {
        marked := None;
        r := Register(root, second);
      } else {
        ghost var mid := rows;
        InterruptedIsNotRetired(old(rows), old(disk), rows, disk, root, first);
        InterruptedIsAdmissible(old(rows), old(disk), rows, disk, root, first);
        marked := Some(disk.MarkerAt(root).uuid);
        ghost var diskMid := disk;
        calm := true;
        r := Register(root, second);
        RetryKeepsMarker(mid, diskMid, rows, disk, root, second);
        EvolvedAlong(old(rows), mid, rows);
      }
    }

    method Unregister(root: Path, at: Time) returns (r: Outcome)
      modifies `rows
      ensures Sound(old(rows)) ==> Sound(rows)
      ensures Evolved(old(rows), rows)
      ensures r.Refused? <==> !Removable(old(rows), disk, root)
      ensures rows == old(rows) || Buried(old(rows), rows, root, at, disk)
      ensures r.Written? ==> rows != old(rows)
      ensures r.Refused? || r.Kept? ==> rows == old(rows)
      ensures calm ==> !r.Broken?
    {
      var guarded := disk.Guarded(root);
      if guarded && disk.MarkerAt(root).Damaged? { return Refused; }
      var strict := ReadStrictly();
      if !strict { return Refused; }
      var k: Option<nat>;
      if guarded && disk.MarkerAt(root).Named? {
        k := FindIdentity(disk.MarkerAt(root).uuid);
        if k.None? { return Refused; }
        if rows[k.value].status.Tombstoned? { return Kept; }
        if HeldElsewhere(rows[k.value], root, disk) { return Refused; }
        r := Bury(k.value, root, at);
      } else if guarded {
        r := RemoveUnmarked(root);
      } else {
        k := FindActivePath(root);
        if k.None? { return Kept; }
        r := Bury(k.value, root, at);
      }
    }

    /** A live directory without a marker is never a reason to tombstone anything. */
    method RemoveUnmarked(root: Path) returns (r: Outcome)
      ensures r.Kept? || r.Refused?
      ensures r.Kept? <==> AllWitnessed(rows, disk) && forall i :: 0 <= i < |rows| ==> !ActiveAt(rows[i], root, disk)
    {
      var occupant, several := FindOccupant(root);
      if occupant.Some? || several { return Refused; }
      var witnessed := CheckWitnesses();
      r := if witnessed then Kept else Refused;
    }

    method FindActivePath(root: Path) returns (k: Option<nat>)
      ensures k.Some? ==> k.value < |rows| && rows[k.value].status.Active? && rows[k.value].path == root
      ensures k.None? ==> forall i :: 0 <= i < |rows| && rows[i].status.Active? ==> rows[i].path != root
    {
      for i := 0 to |rows|
        invariant forall j :: 0 <= j < i && rows[j].status.Active? ==> rows[j].path != root
      {
        if rows[i].status.Active? && rows[i].path == root { return Some(i); }
      }
      k := None;
    }

    method Bury(k: nat, root: Path, at: Time) returns (r: Outcome)
      requires Sound(rows) && k < |rows| && rows[k].status.Active?
      modifies `rows
      ensures Sound(rows) && Evolved(old(rows), rows)
      ensures r.Written? || r.Broken?
      ensures rows == old(rows) || rows == old(rows)[k := old(rows)[k].(path := root, status := Tombstoned(at))]
      ensures r.Written? ==> rows != old(rows)
      ensures calm ==> r.Written?
    {
      var row := rows[k].(path := root, status := Tombstoned(at));
      MoveKeepsSound(rows, k, row);
      assert rows[k := row][k] != rows[k];
      var f := Commit(rows[k := row]);
      r := if f.Go? then Written else Broken;
    }

    /** Let the row of root's own identity follow it to root. */
    method Reindex(root: Path) returns (r: Outcome)
      requires disk.MarkerAt(root).Named?
      modifies `rows
      ensures Sound(old(rows)) ==> Sound(rows)
      ensures Evolved(old(rows), rows)
      ensures r.Refused? <==> !Followable(old(rows), disk, root)
      ensures rows == old(rows) || Follows(old(rows), rows, disk.MarkerAt(root).uuid, root, disk)
      ensures r.Written? || r.Kept? ==> Homed(rows, disk, root)
      ensures r.Refused? || r.Kept? ==> rows == old(rows)
      ensures calm ==> !r.Broken?
    {
      var uuid := disk.MarkerAt(root).uuid;
      var strict := ReadStrictly();
      var k := FindIdentity(uuid);
      if !strict || k.None? { return Refused; }
      var row := rows[k.value];
      if row.status.Tombstoned? { return Refused; }
      if row.path == root {
        assert ActiveAt(rows[k.value], root, disk);
        return Kept;
      }
      if HeldElsewhere(row, root, disk) { return Refused; }
      var conflict := FindClaim(k.value, root);
      if conflict { return Refused; }
      MoveKeepsSound(rows, k.value, row.(path := root));
      var f := Commit(rows[k.value := row.(path := root)]);
      r := if f.Go? then Written else Broken;
      if f.Go? { assert ActiveAt(rows[k.value], root, disk); }
    }

    method FindClaim(k: nat, root: Path) returns (found: bool)
      requires k < |rows|
      ensures found <==> exists i :: 0 <= i < |rows| && i != k && Claims(rows[i], root, disk)
    {
      for i := 0 to |rows|
        invariant forall j :: 0 <= j < i && j != k ==> !Claims(rows[j], root, disk)
      {
        if i != k && Claims(rows[i], root, disk) { return true; }
      }
      found := false;
    }

    /** Compare-and-set of one row's layout. */
    method Flip(uuid: Uuid, root: Path, expected: Layout, desired: Layout) returns (r: Outcome)
      modifies `rows
      ensures Sound(old(rows)) ==> Sound(rows)
      ensures Evolved(old(rows), rows)
      ensures r.Written? || r.Broken? || r.Refused?
      ensures r.Refused? ==> rows == old(rows)
      ensures rows == old(rows) ||
        exists k :: 0 <= k < |old(rows)| && old(rows)[k] == Row(uuid, root, expected, Active, old(rows)[k].registeredAt)
                      && rows == old(rows)[k := old(rows)[k].(layout := desired)]
      ensures r.Written? ==>
        exists k :: 0 <= k < |rows| && rows[k] == Row(uuid, root, desired, Active, rows[k].registeredAt)
    {
      var strict := ReadStrictly();
      var k := FindIdentity(uuid);
      if !strict || k.None? { return Refused; }
      var row := rows[k.value];
      if row.status.Tombstoned? || row.path != root || row.layout != expected { return Refused; }
      MoveKeepsSound(rows, k.value, row.(layout := desired));
      var f := Commit(rows[k.value := row.(layout := desired)]);
      r := if f.Go? then Written else Broken;
      if f.Go? { assert rows[k.value] == Row(uuid, root, desired, Active, rows[k.value].registeredAt); }
    }

    method Perform(a: Action) returns (r: Outcome)
      requires Sound(rows)
      modifies `rows, `disk
      ensures Sound(rows) && Evolved(old(rows), rows)
    {
      r := Kept;
      match a
      case Register(root, at) => r := Register(root, at);
      case Unregister(root, at) => r := Unregister(root, at);
      case Reindex(root) => if disk.MarkerAt(root).Named? { r := Reindex(root); }
      case Flip(uuid, root, expected, desired) => r := Flip(uuid, root, expected, desired);
      case Rearrange(changed) => disk := changed;
    }

    /** Whatever is registered, removed, reindexed and flipped, with whatever crashes, while the
        directories move, are copied and vanish: identities stay unique, active paths
        stay unique, no row disappears and a tombstoned row never changes. */
    method Run(actions: seq<Action>)
      requires Sound(rows)
      modifies `rows, `disk
      ensures Sound(rows) && Evolved(old(rows), rows)
    {
      for k := 0 to |actions|
        invariant Sound(rows) && Evolved(old(rows), rows)
      {
        ghost var before := rows;
        var _ := Perform(actions[k]);
        EvolvedAlong(old(rows), before, rows);
      }
    }
  }
}
