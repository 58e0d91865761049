/** The copy loops: directories first, parents before children; then files, every hard-link
    representative before its aliases; into an empty private root. */
module MailCopy {
  import opened Wrappers
  import opened MailTree

  /** The destination root, as the operating system keeps it: a directory's parent must exist, a name
      is never overwritten, and a new file gets a new inode. */
  class CopyRoot {
    var directories: set<Path>
    var names: map<Path, Inode>
    var data: map<Inode, string>
    var nextInode: Inode

    ghost predicate Valid()
      reads this
    {
      && (forall p :: p in names ==> names[p] in data)
      && (forall inode :: inode in data ==> inode < nextInode)
    }

    constructor ()
      ensures Valid() && directories == {} && names == map[]
    {
      directories, names, data, nextInode := {}, map[], map[], 0;
    }

    predicate Admits(path: Path)
      reads this
    {
      && path != [] && path !in directories && path !in names
      && (|path| == 1 || path[..|path| - 1] in directories)
    }

    method MakeDirectory(path: Path) returns (ok: bool)
      requires Valid()
      modifies `directories
      ensures Valid() && ok == old(Admits(path))
      ensures directories == if ok then old(directories) + {path} else old(directories)
    {
      ok := Admits(path);
      if ok { directories := directories + {path}; }
    }

    method Link(source: Path, destination: Path) returns (ok: bool)
      requires Valid()
      modifies `names
      ensures Valid() && ok == (source in old(names) && old(Admits(destination)))
      ensures names == if ok then old(names)[destination := old(names)[source]] else old(names)
    {
      ok := source in names && Admits(destination);
      if ok { names := names[destination := names[source]]; }
    }

    method CreateFile(path: Path, bytes: string) returns (ok: bool)
      requires Valid()
      modifies `names, `data, `nextInode
      ensures Valid() && ok == old(Admits(path)) && nextInode >= old(nextInode)
      ensures ok ==> names == old(names)[path := old(nextInode)] && data == old(data)[old(nextInode) := bytes]
      ensures !ok ==> names == old(names) && data == old(data)
    {
      ok := Admits(path);
      if ok {
        names, data := names[path := nextInode], data[nextInode := bytes];
        nextInode := nextInode + 1;
      }
    }
  }

  /** The source as it is now. */
  datatype Source = Source(ids: map<Path, Inode>, bytes: Bytes)

  /** The copy so far: these files, with these bytes, two of them sharing an inode exactly when they
      share one in the source. */
  ghost predicate Mirrors(names: map<Path, Inode>, data: map<Inode, string>, files: seq<Entry>, ids: map<Path, Inode>) {
    && names.Keys == Paths(files)
    && (forall e :: e in files ==> e.path in names && names[e.path] in data && HasBytes(e) == data[names[e.path]])
    && (forall p :: p in names ==> p in ids)
    && (forall p, q :: p in names && q in names ==> (names[p] == names[q] <==> ids[p] == ids[q]))
  }

  function HasBytes(e: Entry): string {
    match e
    case DirectoryEntry(_) => ""
    case FileEntry(_, bytes, _) => bytes
  }

  function Paths(entries: seq<Entry>): set<Path> {
    set e | e in entries :: e.path
  }

  function OfKind(entries: seq<Entry>, directory: bool): seq<Entry> {
    if entries == [] then []
    else if entries[0].DirectoryEntry? == directory then [entries[0]] + OfKind(entries[1..], directory)
    else OfKind(entries[1..], directory)
  }

  lemma {:induction false} OfKindSame(entries: seq<Entry>, directory: bool, e: Entry)
    ensures e in OfKind(entries, directory) <==> e in entries && e.DirectoryEntry? == directory
  {
    if entries != [] { OfKindSame(entries[1..], directory, e); }
  }

  lemma {:induction false} OfKindDistinct(entries: seq<Entry>, directory: bool)
    requires Distinct(entries)
    ensures Distinct(OfKind(entries, directory))
  {
    if entries != [] {
      OfKindDistinct(entries[1..], directory);
      forall e | e in OfKind(entries[1..], directory)
        ensures e.path != entries[0].path
      {
        OfKindSame(entries[1..], directory, e);
      }
    }
  }

  /** By depth first, then by path. */
  function Deeper(lt: (Path, Path) -> bool): (Path, Path) -> bool {
    (a: Path, b: Path) => |a| < |b| || (|a| == |b| && lt(a, b))
  }

  lemma DeeperStrict(lt: (Path, Path) -> bool)
    requires StrictOrder(lt)
    ensures StrictOrder(Deeper(lt))
  {
    forall a, b, c | Deeper(lt)(a, b) && Deeper(lt)(b, c)
      ensures Deeper(lt)(a, c)
    {
    }
  }

  /** The directories or files of a snapshot, in the order the copy visits them. */
  lemma Ordered(entries: seq<Entry>, directory: bool, lt: (Path, Path) -> bool)
    requires StrictOrder(lt) && Distinct(entries)
    ensures Ascending(Sort(OfKind(entries, directory), lt), lt)
    ensures Distinct(Sort(OfKind(entries, directory), lt))
    ensures forall e :: e in Sort(OfKind(entries, directory), lt) <==> e in entries && e.DirectoryEntry? == directory
  {
    OfKindDistinct(entries, directory);
    SortAscending(OfKind(entries, directory), lt);
    AscendingDistinct(Sort(OfKind(entries, directory), lt), lt);
    forall e
      ensures e in Sort(OfKind(entries, directory), lt) <==> e in entries && e.DirectoryEntry? == directory
    {
      SortSame(OfKind(entries, directory), lt, e);
      OfKindSame(entries, directory, e);
    }
  }

  /** What precedes an element in an ascending sequence is exactly what is smaller. */
  lemma Precedes(s: seq<Entry>, i: nat, lt: (Path, Path) -> bool, p: Path)
    requires StrictOrder(lt) && Ascending(s, lt) && i < |s| && p in Paths(s)
    ensures p in Paths(s[..i]) <==> lt(p, s[i].path)
  {
    var e :| e in s && e.path == p;
    var k :| 0 <= k < |s| && s[k] == e;
    if k < i { assert s[..i][k] == e; }
    if p in Paths(s[..i]) {
      var f :| f in s[..i] && f.path == p;
      var j :| 0 <= j < i && s[j] == f;
    }
  }

  /** The directories of a snapshot in copying order. */
  function DirectoryOrder(entries: seq<Entry>, lt: (Path, Path) -> bool): seq<Entry> {
    Sort(OfKind(entries, true), Deeper(lt))
  }

  function FileOrder(entries: seq<Entry>, lt: (Path, Path) -> bool): seq<Entry> {
    Sort(OfKind(entries, false), lt)
  }

  /** Every node but a root lists its parent as a directory. */
  ghost predicate ParentsListed(entries: seq<Entry>) {
    forall e :: e in entries ==> e.path != [] && (|e.path| == 1 || e.path[..|e.path| - 1] in DirectoryPaths(entries))
  }

  /** When a directory's turn comes, its name is free and its parent has been made. */
  lemma DirectoryTurn(entries: seq<Entry>, lt: (Path, Path) -> bool, i: nat)
    requires StrictOrder(lt) && Distinct(entries) && ParentsListed(entries)
    requires i < |DirectoryOrder(entries, lt)|
    ensures var s := DirectoryOrder(entries, lt); var path := s[i].path;
            && path != [] && path !in Paths(s[..i])
            && (|path| == 1 || path[..|path| - 1] in Paths(s[..i]))
  {
    var s := DirectoryOrder(entries, lt);
    var path := s[i].path;
    DeeperStrict(lt);
    Ordered(entries, true, Deeper(lt));
    assert s[i] in s;
    Precedes(s, i, Deeper(lt), path);
    if |path| > 1 {
      var parent := path[..|path| - 1];
      var e :| e in entries && e.DirectoryEntry? && e.path == parent;
      assert e in s;
      Precedes(s, i, Deeper(lt), parent);
    }
  }

  lemma DirectoryPathsOrdered(entries: seq<Entry>, lt: (Path, Path) -> bool)
    requires StrictOrder(lt) && Distinct(entries)
    ensures Paths(DirectoryOrder(entries, lt)) == DirectoryPaths(entries)
  {
    DeeperStrict(lt);
    Ordered(entries, true, Deeper(lt));
  }

  lemma PathsGrow(s: seq<Entry>, i: nat)
    requires i < |s|
    ensures Paths(s[..i + 1]) == Paths(s[..i]) + {s[i].path}
  {
    assert s[..i + 1] == s[..i] + [s[i]];
  }

  method CopyDirectories(root: CopyRoot, entries: seq<Entry>, lt: (Path, Path) -> bool) returns (ok: bool)
    requires root.Valid() && root.directories == {} && root.names == map[]
    requires StrictOrder(lt) && Distinct(entries) && ParentsListed(entries)
    modifies root`directories
    ensures ok && root.Valid() && root.directories == DirectoryPaths(entries)
  {
    var directories := DirectoryOrder(entries, lt);
    for i := 0 to |directories|
      invariant root.Valid() && root.directories == Paths(directories[..i])
    {
      DirectoryTurn(entries, lt, i);
      PathsGrow(directories, i);
      ok := root.MakeDirectory(directories[i].path);
      if !ok { return; }
    }
    assert directories[..|directories|] == directories;
    DirectoryPathsOrdered(entries, lt);
    ok := true;
  }

  /** When an alias's turn comes, its representative has been copied; when a lone file's or a
      representative's turn comes, none of its names has. */
  lemma FileTurn(entries: seq<Entry>, ids: map<Path, Inode>, bytes: Bytes, lt: (Path, Path) -> bool, i: nat)
    requires StrictOrder(lt) && Describes(entries, ids, bytes, lt)
    requires i < |FileOrder(entries, lt)|
    ensures var s := FileOrder(entries, lt);
            && s[i] in entries && s[i].FileEntry? && s[i].path !in Paths(s[..i])
            && (forall p :: p in Paths(s[..i]) ==> p in ids)
            && (s[i].hardlink.Some? && s[i].hardlink.value != s[i].path ==> s[i].hardlink.value in Paths(s[..i]))
            && (s[i].hardlink.None? || s[i].hardlink.value == s[i].path ==>
                  forall p :: p in Paths(s[..i]) ==> ids[p] != ids[s[i].path])
  {
    var s := FileOrder(entries, lt);
    var e := s[i];
    Ordered(entries, false, lt);
    FilesOrdered(entries, lt);
    assert e in s;
    Precedes(s, i, lt, e.path);
    if e.hardlink.Some? { Precedes(s, i, lt, e.hardlink.value); }
    forall p | p in Paths(s[..i])
      ensures p in ids
      ensures e.hardlink.None? || e.hardlink.value == e.path ==> ids[p] != ids[e.path]
    {
      assert p in Paths(s);
      Precedes(s, i, lt, p);
    }
  }

  lemma FilesOrdered(entries: seq<Entry>, lt: (Path, Path) -> bool)
    requires StrictOrder(lt) && Distinct(entries)
    ensures Paths(FileOrder(entries, lt)) == FilePaths(entries)
    ensures forall i :: 0 <= i <= |FileOrder(entries, lt)| ==>
      Paths(FileOrder(entries, lt)[..i]) <= Paths(FileOrder(entries, lt))
  {
    Ordered(entries, false, lt);
  }

  predicate Reads(e: Entry) {
    e.FileEntry? && (e.hardlink.None? || e.hardlink.value == e.path)
  }

  /** The source file is still the one the snapshot recorded. */
  predicate Same(source: Source, e: Entry, ids: map<Path, Inode>) {
    && e.path in source.ids && e.path in ids && source.ids[e.path] == ids[e.path]
    && ids[e.path] in source.bytes && source.bytes[ids[e.path]] == HasBytes(e)
  }

  lemma MirrorsCreate(names: map<Path, Inode>, data: map<Inode, string>, done: seq<Entry>, ids: map<Path, Inode>,
                      e: Entry, inode: Inode)
    requires Mirrors(names, data, done, ids) && e.FileEntry? && e.path !in names && e.path in ids
    requires inode !in data
    requires forall p :: p in Paths(done) ==> p in ids && ids[p] != ids[e.path]
    ensures Mirrors(names[e.path := inode], data[inode := e.bytes], done + [e], ids)
  {
    PathsAppend(done, e);
    forall f | f in done
      ensures f.path in names && names[f.path] != inode && f.path != e.path
    {
      assert f.path in Paths(done);
    }
    forall p | p in names
      ensures names[p] != inode
    {
      var f :| f in done && f.path == p;
    }
  }

  lemma MirrorsLink(names: map<Path, Inode>, data: map<Inode, string>, done: seq<Entry>, ids: map<Path, Inode>,
                    e: Entry, first: Path)
    requires Mirrors(names, data, done, ids) && e.FileEntry? && e.path !in names && e.path in ids
    requires first in names && ids[first] == ids[e.path] && names[first] in data && data[names[first]] == e.bytes
    ensures Mirrors(names[e.path := names[first]], data, done + [e], ids)
  {
    PathsAppend(done, e);
    forall f | f in done
      ensures f.path != e.path
    {
      assert f.path in Paths(done);
    }
  }

  lemma PathsAppend(done: seq<Entry>, e: Entry)
    ensures Paths(done + [e]) == Paths(done) + {e.path}
  {
  }

  method CopyOne(root: CopyRoot, source: Source, e: Entry, ghost done: seq<Entry>, ids: map<Path, Inode>)
    returns (ok: bool)
    requires root.Valid() && Mirrors(root.names, root.data, done, ids) && root.Admits(e.path)
    requires e.FileEntry? && e.path in ids
    requires !Reads(e) ==>
      var first := e.hardlink.value;
      first in root.names && ids[first] == ids[e.path] && root.data[root.names[first]] == e.bytes
    requires Reads(e) ==> forall p :: p in Paths(done) ==> p in ids && ids[p] != ids[e.path]
    modifies root`names, root`data, root`nextInode
    ensures root.Valid()
    ensures ok <==> (Reads(e) ==> Same(source, e, ids))
    ensures ok ==> Mirrors(root.names, root.data, done + [e], ids)
  {
    ghost var names, data, inode := root.names, root.data, root.nextInode;
    if Reads(e) {
      if !Same(source, e, ids) { return false; }
      ok := root.CreateFile(e.path, e.bytes);
      MirrorsCreate(names, data, done, ids, e, inode);
    } else {
      ok := root.Link(e.hardlink.value, e.path);
      MirrorsLink(names, data, done, ids, e, e.hardlink.value);
    }
  }

  /** An alias has the bytes of its representative. */
  lemma AliasBytes(names: map<Path, Inode>, data: map<Inode, string>, entries: seq<Entry>, ids: map<Path, Inode>,
                   bytes: Bytes, lt: (Path, Path) -> bool, i: nat)
    requires StrictOrder(lt) && Describes(entries, ids, bytes, lt) && i < |FileOrder(entries, lt)|
    requires Mirrors(names, data, FileOrder(entries, lt)[..i], ids)
    requires !Reads(FileOrder(entries, lt)[i]) && FileOrder(entries, lt)[i].FileEntry?
    ensures var e := FileOrder(entries, lt)[i];
            && e.hardlink.value in names && e.path in ids && ids[e.hardlink.value] == ids[e.path]
            && names[e.hardlink.value] in data && data[names[e.hardlink.value]] == e.bytes
  {
    FileTurn(entries, ids, bytes, lt, i);
    var s := FileOrder(entries, lt);
    var f :| f in s[..i] && f.path == s[i].hardlink.value;
    EntryAt(entries, lt, f);
    assert f in entries && f.FileEntry? && f.bytes == bytes[ids[f.path]];
  }

  lemma EntryAt(entries: seq<Entry>, lt: (Path, Path) -> bool, e: Entry)
    requires e in FileOrder(entries, lt)
    ensures e in entries && e.FileEntry?
  {
    SortSame(OfKind(entries, false), lt, e);
    OfKindSame(entries, false, e);
  }

  ghost predicate AllSame(source: Source, entries: seq<Entry>, ids: map<Path, Inode>) {
    forall e :: e in entries && Reads(e) ==> Same(source, e, ids)
  }

  /** Everything CopyOne asks of its caller holds when an entry's turn comes. */
  lemma TurnReady(root: CopyRoot, entries: seq<Entry>, ids: map<Path, Inode>, bytes: Bytes, lt: (Path, Path) -> bool,
                  i: nat)
    requires StrictOrder(lt) && Describes(entries, ids, bytes, lt) && i < |FileOrder(entries, lt)|
    requires root.directories == DirectoryPaths(entries)
    requires Mirrors(root.names, root.data, FileOrder(entries, lt)[..i], ids)
    ensures var e, done := FileOrder(entries, lt)[i], FileOrder(entries, lt)[..i];
            && e.FileEntry? && e.path in ids && root.Admits(e.path)
            && (!Reads(e) ==> var first := e.hardlink.value;
                              && first in root.names && ids[first] == ids[e.path]
                              && root.names[first] in root.data && root.data[root.names[first]] == e.bytes)
            && (Reads(e) ==> forall p :: p in Paths(done) ==> p in ids && ids[p] != ids[e.path])
  {
    FileTurn(entries, ids, bytes, lt, i);
    FileAdmitted(root, entries, FileOrder(entries, lt), i);
    if !Reads(FileOrder(entries, lt)[i]) { AliasBytes(root.names, root.data, entries, ids, bytes, lt, i); }
  }

  method CopyFiles(root: CopyRoot, source: Source, entries: seq<Entry>, ids: map<Path, Inode>, ghost bytes: Bytes,
                   lt: (Path, Path) -> bool)
    returns (ok: bool)
    requires root.Valid() && root.directories == DirectoryPaths(entries) && root.names == map[]
    requires StrictOrder(lt) && Describes(entries, ids, bytes, lt)
    modifies root`names, root`data, root`nextInode
    ensures root.Valid()
    ensures ok <==> AllSame(source, FileOrder(entries, lt), ids)
    ensures ok ==> Mirrors(root.names, root.data, FileOrder(entries, lt), ids)
  {
    var files := FileOrder(entries, lt);
    ok := true;
    var i := 0;
    while i < |files| && ok
      invariant 0 <= i <= |files| && root.Valid()
      invariant ok ==> Mirrors(root.names, root.data, files[..i], ids) && AllSame(source, files[..i], ids)
      invariant !ok ==> !AllSame(source, files, ids)
      decreases |files| - i, ok
    {
      ok := CopyTurn(root, source, entries, ids, bytes, lt, files, i);
      if ok { i := i + 1; }
    }
    assert files[..|files|] == files;
  }

  /** The copy of the i-th file, when its turn has come. */
  method CopyTurn(root: CopyRoot, source: Source, ghost entries: seq<Entry>, ids: map<Path, Inode>, ghost bytes: Bytes,
                  ghost lt: (Path, Path) -> bool, files: seq<Entry>, i: nat)
    returns (ok: bool)
    requires root.Valid() && root.directories == DirectoryPaths(entries)
    requires StrictOrder(lt) && Describes(entries, ids, bytes, lt)
    requires files == FileOrder(entries, lt) && i < |files|
    requires Mirrors(root.names, root.data, files[..i], ids) && AllSame(source, files[..i], ids)
    modifies root`names, root`data, root`nextInode
    ensures root.Valid()
    ensures ok ==> Mirrors(root.names, root.data, files[..i + 1], ids) && AllSame(source, files[..i + 1], ids)
    ensures !ok ==> !AllSame(source, files, ids)
  {
    hide Describes, Mirrors, StrictOrder, FileOrder;
    TurnReady(root, entries, ids, bytes, lt, i);
    assert files[..i + 1] == files[..i] + [files[i]];
    assert files[i] in files;
    ok := CopyOne(root, source, files[i], files[..i], ids);
  }

  lemma AllSameOrdered(source: Source, entries: seq<Entry>, ids: map<Path, Inode>, lt: (Path, Path) -> bool)
    requires StrictOrder(lt) && Distinct(entries)
    ensures AllSame(source, FileOrder(entries, lt), ids) <==> AllSame(source, entries, ids)
  {
    Ordered(entries, false, lt);
  }

  lemma FileAdmitted(root: CopyRoot, entries: seq<Entry>, files: seq<Entry>, i: nat)
    requires root.directories == DirectoryPaths(entries) && i < |files|
    requires Distinct(entries) && ParentsListed(entries)
    requires files[i] in entries && files[i].FileEntry?
    requires root.names.Keys == Paths(files[..i]) && files[i].path !in Paths(files[..i])
    ensures root.Admits(files[i].path)
  {
  }

  /** Copy one snapshot into an empty root. It succeeds exactly when every file it reads is still the
      recorded one, and then the root holds the same directories, the same file paths with the same
      bytes, and the same partition of paths into hard-linked files. */
  method CopySnapshot(root: CopyRoot, source: Source, snapshot: Snapshot, ghost bytes: Bytes, lt: (Path, Path) -> bool)
    returns (ok: bool)
    requires root.Valid() && StrictOrder(lt)
    requires Describes(snapshot.entries, snapshot.fileIds, bytes, lt)
    modifies root
    ensures root.Valid()
    ensures ok <==>
      && old(root.directories == {} && root.names == map[])
      && AllSame(source, snapshot.entries, snapshot.fileIds)
    ensures ok ==>
      && root.directories == DirectoryPaths(snapshot.entries)
      && root.names.Keys == snapshot.fileIds.Keys
      && (forall p :: p in root.names ==>
            snapshot.fileIds[p] in bytes && root.names[p] in root.data &&
            root.data[root.names[p]] == bytes[snapshot.fileIds[p]])
      && (forall p, q :: p in root.names && q in root.names ==>
            (root.names[p] == root.names[q] <==> snapshot.fileIds[p] == snapshot.fileIds[q]))
  {
    if root.directories != {} || root.names != map[] { return false; }
    ok := CopyDirectories(root, snapshot.entries, lt);
    ok := CopyFiles(root, source, snapshot.entries, snapshot.fileIds, bytes, lt);
    AllSameOrdered(source, snapshot.entries, snapshot.fileIds, lt);
    if ok { CopyFaithful(root, snapshot, bytes, lt); }
  }

  lemma CopyFaithful(root: CopyRoot, snapshot: Snapshot, bytes: Bytes, lt: (Path, Path) -> bool)
    requires StrictOrder(lt) && Describes(snapshot.entries, snapshot.fileIds, bytes, lt)
    requires Mirrors(root.names, root.data, FileOrder(snapshot.entries, lt), snapshot.fileIds)
    ensures root.names.Keys == snapshot.fileIds.Keys
    ensures forall p :: p in root.names ==>
      snapshot.fileIds[p] in bytes && root.names[p] in root.data &&
      root.data[root.names[p]] == bytes[snapshot.fileIds[p]]
  {
    Ordered(snapshot.entries, false, lt);
    FilesOrdered(snapshot.entries, lt);
    forall p | p in root.names
      ensures snapshot.fileIds[p] in bytes && root.names[p] in root.data &&
              root.data[root.names[p]] == bytes[snapshot.fileIds[p]]
    {
      var e :| e in FileOrder(snapshot.entries, lt) && e.path == p;
    }
  }
}