/** Inventory and copy of a mail tree: the recursive scan, the cheap count, and the copy loops that
    recreate directories, files and hard links in an empty root.

    The order of paths is any strict total order; the program compares their POSIX spellings. */
module MailTree {
  import opened Wrappers

  type Name = string
  type Path = seq<Name>
  type Inode = nat

  datatype Tree = File(inode: Inode) | Dir(children: Listing)

  /** What listing a directory yields. */
  datatype Listing = Nil | Cons(name: Name, head: Tree, tail: Listing)

  datatype Entry =
    | DirectoryEntry(path: Path)
    | FileEntry(path: Path, bytes: string, hardlink: Option<Path>)

  datatype Totals = Totals(files: nat, directories: nat, bytes: nat)

  type Bytes = map<Inode, string>

  // ---------------------------------------------------------------- the tree

  function Names(l: Listing): set<Name> {
    match l
    case Nil => {}
    case Cons(name, _, tail) => {name} + Names(tail)
  }

  /** No directory lists a name twice, and every file has bytes. */
  predicate Readable(t: Tree, bytes: Bytes) {
    match t
    case File(inode) => inode in bytes
    case Dir(children) => ReadableAll(children, bytes)
  }

  predicate ReadableAll(l: Listing, bytes: Bytes) {
    match l
    case Nil => true
    case Cons(name, head, tail) => name !in Names(tail) && Readable(head, bytes) && ReadableAll(tail, bytes)
  }

  /** What a path walks to: the reference the inventory is judged against. */
  function Walk(t: Tree, path: Path): Option<Tree>
    decreases |path|, 1, 0
  {
    if path == [] then Some(t)
    else match t
         case File(_) => None
         case Dir(children) => WalkIn(children, path)
  }

  function WalkIn(l: Listing, path: Path): Option<Tree>
    requires path != []
    decreases |path|, 0, l
  {
    match l
    case Nil => None
    case Cons(name, head, tail) => if name == path[0] then Walk(head, path[1..]) else WalkIn(tail, path)
  }

  // ---------------------------------------------------------------- the inventory as a value

  function Inventory(t: Tree, at: Path, bytes: Bytes): seq<Entry>
    requires Readable(t, bytes)
  {
    match t
    case File(inode) => [FileEntry(at, bytes[inode], None)]
    case Dir(children) => [DirectoryEntry(at)] + InventoryAll(children, at, bytes)
  }

  function InventoryAll(l: Listing, at: Path, bytes: Bytes): seq<Entry>
    requires ReadableAll(l, bytes)
  {
    match l
    case Nil => []
    case Cons(name, head, tail) => Inventory(head, at + [name], bytes) + InventoryAll(tail, at, bytes)
  }

  /** The inode of every file below, by path. */
  function Inodes(t: Tree, at: Path): map<Path, Inode> {
    match t
    case File(inode) => map[at := inode]
    case Dir(children) => InodesAll(children, at)
  }

  function InodesAll(l: Listing, at: Path): map<Path, Inode> {
    match l
    case Nil => map[]
    case Cons(name, head, tail) => Inodes(head, at + [name]) + InodesAll(tail, at)
  }

  /** The entry the inventory owes to a node at this path. */
  function EntryOf(t: Tree, path: Path, bytes: Bytes): Entry
    requires Readable(t, bytes)
  {
    match t
    case File(inode) => FileEntry(path, bytes[inode], None)
    case Dir(_) => DirectoryEntry(path)
  }

  lemma {:induction false} WalkReadable(t: Tree, path: Path, bytes: Bytes)
    requires Readable(t, bytes) && Walk(t, path).Some?
    ensures Readable(Walk(t, path).value, bytes)
    decreases |path|, 1, 0
  {
    if path != [] { WalkInReadable(t.children, path, bytes); }
  }

  lemma {:induction false} WalkInReadable(l: Listing, path: Path, bytes: Bytes)
    requires path != [] && ReadableAll(l, bytes) && WalkIn(l, path).Some?
    ensures Readable(WalkIn(l, path).value, bytes)
    decreases |path|, 0, l
  {
    if l.name == path[0] { WalkReadable(l.head, path[1..], bytes); }
    else { WalkInReadable(l.tail, path, bytes); }
  }

  /** Everything inventoried below a path is something the tree walks to, under its own entry. */
  lemma {:induction false} InventorySound(t: Tree, at: Path, bytes: Bytes, e: Entry) returns (rest: Path)
    requires Readable(t, bytes) && e in Inventory(t, at, bytes)
    ensures e.path == at + rest && Walk(t, rest).Some?
    ensures Readable(Walk(t, rest).value, bytes) && e == EntryOf(Walk(t, rest).value, e.path, bytes)
    decreases t
  {
    if e.path == at && (t.File? || e == DirectoryEntry(at)) {
      rest := [];
    } else {
      rest := InventoryAllSound(t.children, at, bytes, e);
    }
  }

  lemma {:induction false} InventoryAllSound(l: Listing, at: Path, bytes: Bytes, e: Entry) returns (rest: Path)
    requires ReadableAll(l, bytes) && e in InventoryAll(l, at, bytes)
    ensures rest != [] && rest[0] in Names(l) && e.path == at + rest && WalkIn(l, rest).Some?
    ensures Readable(WalkIn(l, rest).value, bytes) && e == EntryOf(WalkIn(l, rest).value, e.path, bytes)
    decreases l
  {
    if e in Inventory(l.head, at + [l.name], bytes) {
      var below := InventorySound(l.head, at + [l.name], bytes, e);
      rest := [l.name] + below;
      assert rest[1..] == below;
      assert at + rest == at + [l.name] + below;
    } else {
      rest := InventoryAllSound(l.tail, at, bytes, e);
    }
  }

  /** Whatever the tree walks to is inventoried. */
  lemma {:induction false} InventoryComplete(t: Tree, at: Path, bytes: Bytes, rest: Path)
    requires Readable(t, bytes) && Walk(t, rest).Some? && Readable(Walk(t, rest).value, bytes)
    ensures EntryOf(Walk(t, rest).value, at + rest, bytes) in Inventory(t, at, bytes)
    decreases |rest|, 1, 0
  {
    if rest == [] {
      assert at + rest == at;
    } else {
      InventoryAllComplete(t.children, at, bytes, rest);
    }
  }

  lemma {:induction false} InventoryAllComplete(l: Listing, at: Path, bytes: Bytes, rest: Path)
    requires rest != [] && ReadableAll(l, bytes) && WalkIn(l, rest).Some? && Readable(WalkIn(l, rest).value, bytes)
    ensures EntryOf(WalkIn(l, rest).value, at + rest, bytes) in InventoryAll(l, at, bytes)
    decreases |rest|, 0, l
  {
    if l.name == rest[0] {
      InventoryComplete(l.head, at + [l.name], bytes, rest[1..]);
      assert at + [l.name] + rest[1..] == at + rest;
    } else {
      InventoryAllComplete(l.tail, at, bytes, rest);
    }
  }

  lemma {:induction false} WalkParent(t: Tree, path: Path)
    requires path != [] && Walk(t, path).Some?
    ensures Walk(t, path[..|path| - 1]).Some? && Walk(t, path[..|path| - 1]).value.Dir?
    decreases |path|, 1, 0
  {
    if |path| > 1 {
      WalkInParent(t.children, path);
    }
  }

  lemma {:induction false} WalkInParent(l: Listing, path: Path)
    requires |path| > 1 && WalkIn(l, path).Some?
    ensures WalkIn(l, path[..|path| - 1]).Some? && WalkIn(l, path[..|path| - 1]).value.Dir?
    decreases |path|, 0, l
  {
    if l.name == path[0] {
      WalkParent(l.head, path[1..]);
      assert path[1..][..|path| - 2] == path[..|path| - 1][1..];
    } else {
      WalkInParent(l.tail, path);
    }
  }

  /** The recorded inodes are those of the files the tree walks to, no more and no fewer. */
  lemma {:induction false} InodesExact(t: Tree, at: Path, bytes: Bytes, path: Path)
    requires Readable(t, bytes)
    ensures path in Inodes(t, at) <==> at <= path && Walk(t, path[|at|..]).Some? && Walk(t, path[|at|..]).value.File?
    ensures path in Inodes(t, at) ==> Walk(t, path[|at|..]) == Some(File(Inodes(t, at)[path]))
    decreases t
  {
    match t
    case File(_) =>
      if at <= path && path[|at|..] == [] { assert path == at; }
    case Dir(children) => InodesAllExact(children, at, bytes, path);
  }

  lemma {:induction false} InodesAllExact(l: Listing, at: Path, bytes: Bytes, path: Path)
    requires ReadableAll(l, bytes)
    ensures path in InodesAll(l, at) <==>
      at < path && WalkIn(l, path[|at|..]).Some? && WalkIn(l, path[|at|..]).value.File?
    ensures path in InodesAll(l, at) ==> WalkIn(l, path[|at|..]) == Some(File(InodesAll(l, at)[path]))
    ensures path in InodesAll(l, at) ==> path[|at|] in Names(l)
    decreases l
  {
    match l
    case Nil =>
    case Cons(name, head, tail) =>
      var below := at + [name];
      InodesExact(head, below, bytes, path);
      InodesAllExact(tail, at, bytes, path);
      if at < path {
        assert below <= path <==> path[|at|] == name;
        assert path[|at|..][1..] == path[|at| + 1..];
      }
      if path in InodesAll(tail, at) { assert path[|at|] != name; }
  }

  predicate Distinct(entries: seq<Entry>) {
    forall i, j :: 0 <= i < j < |entries| ==> entries[i].path != entries[j].path
  }

  lemma {:induction false} InventoryDistinct(t: Tree, at: Path, bytes: Bytes)
    requires Readable(t, bytes)
    ensures Distinct(Inventory(t, at, bytes))
    decreases t
  {
    if t.Dir? {
      InventoryAllDistinct(t.children, at, bytes);
      var below := InventoryAll(t.children, at, bytes);
      forall i | 0 <= i < |below|
        ensures below[i].path != at
      {
        var rest := InventoryAllSound(t.children, at, bytes, below[i]);
      }
    }
  }

  lemma {:induction false} InventoryAllDistinct(l: Listing, at: Path, bytes: Bytes)
    requires ReadableAll(l, bytes)
    ensures Distinct(InventoryAll(l, at, bytes))
    decreases l
  {
    match l
    case Nil =>
    case Cons(name, head, tail) =>
      var first, others := Inventory(head, at + [name], bytes), InventoryAll(tail, at, bytes);
      InventoryDistinct(head, at + [name], bytes);
      InventoryAllDistinct(tail, at, bytes);
      forall i, j | 0 <= i < |first| && 0 <= j < |others|
        ensures first[i].path != others[j].path
      {
        var r := InventorySound(head, at + [name], bytes, first[i]);
        var q := InventoryAllSound(tail, at, bytes, others[j]);
        assert first[i].path[|at|] == name && others[j].path[|at|] == q[0];
      }
  }

  // ---------------------------------------------------------------- totals

  datatype Kind = Files | Directories | Size

  /** What one entry adds to the files, to the directories, or to the bytes. */
  function One(kind: Kind, e: Entry): nat {
    match kind
    case Files => if e.FileEntry? then 1 else 0
    case Directories => if e.DirectoryEntry? then 1 else 0
    case Size => if e.FileEntry? then |e.bytes| else 0
  }

  function Sum(kind: Kind, entries: seq<Entry>): nat {
    if entries == [] then 0 else One(kind, entries[0]) + Sum(kind, entries[1..])
  }

  predicate Adds(t: Totals, entries: seq<Entry>) {
    t == Totals(Sum(Files, entries), Sum(Directories, entries), Sum(Size, entries))
  }

  lemma {:induction false} SumAppend(kind: Kind, a: seq<Entry>, b: seq<Entry>)
    ensures Sum(kind, a + b) == Sum(kind, a) + Sum(kind, b)
  {
    if a == [] {
      assert a + b == b;
    } else {
      assert (a + b)[0] == a[0] && (a + b)[1..] == a[1..] + b;
      SumAppend(kind, a[1..], b);
    }
  }

  function Total(kind: Kind, t: Tree, bytes: Bytes): nat
    requires Readable(t, bytes)
  {
    match t
    case File(inode) => One(kind, FileEntry([], bytes[inode], None))
    case Dir(children) => One(kind, DirectoryEntry([])) + TotalAll(kind, children, bytes)
  }

  function TotalAll(kind: Kind, l: Listing, bytes: Bytes): nat
    requires ReadableAll(l, bytes)
  {
    match l
    case Nil => 0
    case Cons(_, head, tail) => Total(kind, head, bytes) + TotalAll(kind, tail, bytes)
  }

  /** The totals of the tree are those of its inventory. */
  lemma {:induction false} TotalIsSum(kind: Kind, t: Tree, at: Path, bytes: Bytes)
    requires Readable(t, bytes)
    ensures Sum(kind, Inventory(t, at, bytes)) == Total(kind, t, bytes)
    decreases t
  {
    match t
    case File(inode) =>
      SumOne(kind, FileEntry(at, bytes[inode], None));
    case Dir(children) =>
      SumOne(kind, DirectoryEntry(at));
      SumAppend(kind, [DirectoryEntry(at)], InventoryAll(children, at, bytes));
      TotalAllIsSum(kind, children, at, bytes);
  }

  lemma {:induction false} TotalAllIsSum(kind: Kind, l: Listing, at: Path, bytes: Bytes)
    requires ReadableAll(l, bytes)
    ensures Sum(kind, InventoryAll(l, at, bytes)) == TotalAll(kind, l, bytes)
    decreases l
  {
    match l
    case Nil =>
    case Cons(name, head, tail) =>
      SumAppend(kind, Inventory(head, at + [name], bytes), InventoryAll(tail, at, bytes));
      TotalIsSum(kind, head, at + [name], bytes);
      TotalAllIsSum(kind, tail, at, bytes);
  }

  lemma SumOne(kind: Kind, e: Entry)
    ensures Sum(kind, [e]) == One(kind, e)
  {
    assert [e][1..] == [];
  }

  ghost predicate Counts(t: Totals, tree: Tree, bytes: Bytes)
    requires Readable(tree, bytes)
  {
    && t.files == Total(Files, tree, bytes)
    && t.directories == Total(Directories, tree, bytes)
    && t.bytes == Total(Size, tree, bytes)
  }

  /** The count of the migration's hold preflight: no file is opened, no entry is recorded. */
  method CountDirectory(children: Listing, bytes: Bytes) returns (counted: Totals)
    requires ReadableAll(children, bytes)
    ensures Counts(counted, Dir(children), bytes)
    decreases children, 1
  {
    var files: nat, directories: nat, size: nat := 0, 1, 0;
    var rest := children;
    while rest.Cons?
      invariant ReadableAll(rest, bytes)
      invariant rest == children || rest < children
      invariant files + TotalAll(Files, rest, bytes) == TotalAll(Files, children, bytes)
      invariant directories + TotalAll(Directories, rest, bytes) == 1 + TotalAll(Directories, children, bytes)
      invariant size + TotalAll(Size, rest, bytes) == TotalAll(Size, children, bytes)
      decreases rest
    {
      var one := CountChild(rest.head, bytes);
      files, directories, size := files + one.files, directories + one.directories, size + one.bytes;
      rest := rest.tail;
    }
    counted := Totals(files, directories, size);
  }

  method CountChild(t: Tree, bytes: Bytes) returns (counted: Totals)
    requires Readable(t, bytes)
    ensures Counts(counted, t, bytes)
    decreases t, 2
  {
    match t
    case Dir(below) => counted := CountDirectory(below, bytes);
    case File(inode) => counted := Totals(1, 0, |bytes[inode]|);
  }

  /** The mail root once its missing top-level directories have been made. */
  function Made(root: Option<Tree>): Tree {
    match root
    case None => Dir(Nil)
    case Some(t) => t
  }

  function Roots(inbox: Tree, messages: Tree): Listing {
    Cons("inbox", inbox, Cons("messages", messages, Nil))
  }

  /** Counting with missing roots allowed gives the totals the scan will find after they are made;
      without, a missing root is refused, and so is a root that is no directory. */
  method CountMail(inbox: Option<Tree>, messages: Option<Tree>, bytes: Bytes, allowMissing: bool)
    returns (r: Option<Totals>)
    requires Readable(Made(inbox), bytes) && Readable(Made(messages), bytes)
    requires ReadableAll(Roots(Made(inbox), Made(messages)), bytes)
    ensures r.Some? <==>
      Made(inbox).Dir? && Made(messages).Dir? && (allowMissing || (inbox.Some? && messages.Some?))
    ensures r.Some? ==> Adds(r.value, InventoryAll(Roots(Made(inbox), Made(messages)), [], bytes))
  {
    var first := CountRoot(inbox, bytes, allowMissing);
    if first.None? { return None; }
    var second := CountRoot(messages, bytes, allowMissing);
    if second.None? { return None; }
    var a, b := first.value, second.value;
    r := Some(Totals(a.files + b.files, a.directories + b.directories, a.bytes + b.bytes));
    RootsTotal(Files, Made(inbox), Made(messages), bytes);
    RootsTotal(Directories, Made(inbox), Made(messages), bytes);
    RootsTotal(Size, Made(inbox), Made(messages), bytes);
  }

  lemma RootsTotal(kind: Kind, inbox: Tree, messages: Tree, bytes: Bytes)
    requires Readable(inbox, bytes) && Readable(messages, bytes) && ReadableAll(Roots(inbox, messages), bytes)
    ensures Sum(kind, InventoryAll(Roots(inbox, messages), [], bytes)) ==
            Total(kind, inbox, bytes) + Total(kind, messages, bytes)
  {
    TotalAllIsSum(kind, Roots(inbox, messages), [], bytes);
    var tail := Cons("messages", messages, Nil);
    assert TotalAll(kind, tail, bytes) == Total(kind, messages, bytes) + TotalAll(kind, Nil, bytes);
  }

  method CountRoot(root: Option<Tree>, bytes: Bytes, allowMissing: bool) returns (r: Option<Totals>)
    requires Readable(Made(root), bytes)
    ensures r.Some? <==> Made(root).Dir? && (allowMissing || root.Some?)
    ensures r.Some? ==> Counts(r.value, Made(root), bytes)
  {
    match root
    case None =>
      r := if allowMissing then Some(Totals(0, 1, 0)) else None;
    case Some(File(_)) =>
      r := None;
    case Some(Dir(children)) =>
      var c := CountDirectory(children, bytes);
      r := Some(c);
  }

  // ---------------------------------------------------------------- the scan

  /** The recursive walk appends to its two accumulators. */
  class Scanner {
    var entries: seq<Entry>
    var fileIds: map<Path, Inode>

    constructor ()
      ensures entries == [] && fileIds == map[]
    {
      entries, fileIds := [], map[];
    }

    method ScanDirectory(names: Listing, prefix: Path, bytes: Bytes)
      requires ReadableAll(names, bytes)
      modifies this
      ensures entries == old(entries) + Inventory(Dir(names), prefix, bytes)
      ensures fileIds == old(fileIds) + Inodes(Dir(names), prefix)
      decreases names, 1
    {
      entries := entries + [DirectoryEntry(prefix)];
      ghost var before, ids := entries, fileIds;
      var rest := names;
      while rest.Cons?
        invariant ReadableAll(rest, bytes) && (rest == names || rest < names)
        invariant entries + InventoryAll(rest, prefix, bytes) == before + InventoryAll(names, prefix, bytes)
        invariant fileIds + InodesAll(rest, prefix) == ids + InodesAll(names, prefix)
        decreases rest
      {
        var path := prefix + [rest.name];
        SeqAssociates(entries, Inventory(rest.head, path, bytes), InventoryAll(rest.tail, prefix, bytes));
        MapAssociates(fileIds, Inodes(rest.head, path), InodesAll(rest.tail, prefix));
        ScanEntry(rest.head, path, bytes);
        rest := rest.tail;
      }
      assert entries + [] == entries && fileIds + map[] == fileIds;
      SeqAssociates(old(entries), [DirectoryEntry(prefix)], InventoryAll(names, prefix, bytes));
    }

    /** The two roots, in their fixed order. */
    method ScanRoots(inbox: Tree, messages: Tree, bytes: Bytes)
      requires entries == [] && fileIds == map[]
      requires ReadableAll(Roots(inbox, messages), bytes)
      modifies this
      ensures entries == InventoryAll(Roots(inbox, messages), [], bytes)
      ensures fileIds == InodesAll(Roots(inbox, messages), [])
    {
      var tail := Cons("messages", messages, Nil);
      assert [] + ["inbox"] == ["inbox"] && [] + ["messages"] == ["messages"];
      assert ReadableAll(tail, bytes);
      ScanEntry(inbox, ["inbox"], bytes);
      ScanEntry(messages, ["messages"], bytes);
      RootsTail(messages, bytes);
    }

    method ScanEntry(t: Tree, path: Path, bytes: Bytes)
      requires Readable(t, bytes)
      modifies this
      ensures entries == old(entries) + Inventory(t, path, bytes)
      ensures fileIds == old(fileIds) + Inodes(t, path)
      decreases t, 2
    {
      match t
      case Dir(below) =>
        ScanDirectory(below, path, bytes);
      case File(inode) =>
        fileIds := fileIds[path := inode];
        entries := entries + [FileEntry(path, bytes[inode], None)];
    }
  }

  lemma RootsTail(messages: Tree, bytes: Bytes)
    requires ReadableAll(Cons("messages", messages, Nil), bytes) && Readable(messages, bytes)
    ensures InventoryAll(Cons("messages", messages, Nil), [], bytes) == Inventory(messages, ["messages"], bytes)
    ensures InodesAll(Cons("messages", messages, Nil), []) == Inodes(messages, ["messages"])
  {
    assert [] + ["messages"] == ["messages"];
    assert InventoryAll(Nil, [], bytes) == [] && InodesAll(Nil, []) == map[];
    assert Inventory(messages, ["messages"], bytes) + [] == Inventory(messages, ["messages"], bytes);
    assert Inodes(messages, ["messages"]) + map[] == Inodes(messages, ["messages"]);
  }

  lemma SeqAssociates(a: seq<Entry>, b: seq<Entry>, c: seq<Entry>)
    ensures (a + b) + c == a + (b + c)
  {
  }

  lemma MapAssociates(a: map<Path, Inode>, b: map<Path, Inode>, c: map<Path, Inode>)
    ensures (a + b) + c == a + (b + c)
  {
  }

  // ---------------------------------------------------------------- path order and sorting

  ghost predicate StrictOrder(lt: (Path, Path) -> bool) {
    && (forall a :: !lt(a, a))
    && (forall a, b, c :: lt(a, b) && lt(b, c) ==> lt(a, c))
    && (forall a, b :: a != b ==> lt(a, b) || lt(b, a))
  }

  ghost predicate Ascending(s: seq<Entry>, lt: (Path, Path) -> bool) {
    forall i, j :: 0 <= i < j < |s| ==> lt(s[i].path, s[j].path)
  }

  function Insert(e: Entry, s: seq<Entry>, lt: (Path, Path) -> bool): seq<Entry> {
    if s == [] || lt(e.path, s[0].path) then [e] + s
    else [s[0]] + Insert(e, s[1..], lt)
  }

  function Sort(s: seq<Entry>, lt: (Path, Path) -> bool): seq<Entry> {
    if s == [] then [] else Insert(s[0], Sort(s[1..], lt), lt)
  }

  lemma {:induction false} InsertSame(e: Entry, s: seq<Entry>, lt: (Path, Path) -> bool, x: Entry)
    ensures x in Insert(e, s, lt) <==> x == e || x in s
  {
    if s != [] && !lt(e.path, s[0].path) {
      InsertSame(e, s[1..], lt, x);
    }
  }

  lemma {:induction false} SortSame(s: seq<Entry>, lt: (Path, Path) -> bool, x: Entry)
    ensures x in Sort(s, lt) <==> x in s
  {
    if s != [] {
      SortSame(s[1..], lt, x);
      InsertSame(s[0], Sort(s[1..], lt), lt, x);
    }
  }

  lemma {:induction false} InsertAscending(e: Entry, s: seq<Entry>, lt: (Path, Path) -> bool)
    requires StrictOrder(lt) && Ascending(s, lt)
    requires forall x :: x in s ==> x.path != e.path
    ensures Ascending(Insert(e, s, lt), lt)
  {
    if s != [] && !lt(e.path, s[0].path) {
      var rest := Insert(e, s[1..], lt);
      InsertAscending(e, s[1..], lt);
      forall j | 0 <= j < |rest|
        ensures lt(s[0].path, rest[j].path)
      {
        InsertSame(e, s[1..], lt, rest[j]);
      }
    }
  }

  lemma {:induction false} SortAscending(s: seq<Entry>, lt: (Path, Path) -> bool)
    requires StrictOrder(lt) && Distinct(s)
    ensures Ascending(Sort(s, lt), lt)
  {
    if s != [] {
      SortAscending(s[1..], lt);
      forall x | x in Sort(s[1..], lt)
        ensures x.path != s[0].path
      {
        SortSame(s[1..], lt, x);
      }
      InsertAscending(s[0], Sort(s[1..], lt), lt);
    }
  }

  lemma {:induction false} InsertSum(kind: Kind, e: Entry, s: seq<Entry>, lt: (Path, Path) -> bool)
    ensures Sum(kind, Insert(e, s, lt)) == One(kind, e) + Sum(kind, s)
  {
    if s == [] || lt(e.path, s[0].path) {
      assert ([e] + s)[1..] == s;
    } else {
      InsertSum(kind, e, s[1..], lt);
      assert ([s[0]] + Insert(e, s[1..], lt))[1..] == Insert(e, s[1..], lt);
    }
  }

  lemma {:induction false} SortSum(kind: Kind, s: seq<Entry>, lt: (Path, Path) -> bool)
    ensures Sum(kind, Sort(s, lt)) == Sum(kind, s)
  {
    if s != [] {
      SortSum(kind, s[1..], lt);
      InsertSum(kind, s[0], Sort(s[1..], lt), lt);
    }
  }

  // ---------------------------------------------------------------- hard links

  function FilePaths(entries: seq<Entry>): set<Path> {
    set e | e in entries && e.FileEntry? :: e.path
  }

  function DirectoryPaths(entries: seq<Entry>): set<Path> {
    set e | e in entries && e.DirectoryEntry? :: e.path
  }

  function Aliases(ids: map<Path, Inode>, inode: Inode): set<Path> {
    set p | p in ids && ids[p] == inode
  }

  /** A lone name carries no link; otherwise the link names the least alias. */
  ghost predicate LinkRight(p: Path, hardlink: Option<Path>, ids: map<Path, Inode>, lt: (Path, Path) -> bool)
    requires p in ids
  {
    match hardlink
    case None => forall q :: q in ids && ids[q] == ids[p] ==> q == p
    case Some(r) => r in ids && ids[r] == ids[p] && forall q :: q in ids && ids[q] == ids[p] ==> q == r || lt(r, q)
  }

  /** What the migration relies on in a snapshot: the files are exactly those of the tree, with their
      bytes and links; every node's parent is listed. */
  ghost predicate Describes(entries: seq<Entry>, ids: map<Path, Inode>, bytes: Bytes, lt: (Path, Path) -> bool) {
    && Distinct(entries)
    && FilePaths(entries) == ids.Keys
    && (forall e :: e in entries ==>
        e.path != [] && (|e.path| == 1 || e.path[..|e.path| - 1] in DirectoryPaths(entries)))
    && (forall e :: e in entries && e.FileEntry? ==>
          e.path in ids && ids[e.path] in bytes && e.bytes == bytes[ids[e.path]] &&
          LinkRight(e.path, e.hardlink, ids, lt))
  }

  lemma SortDescribes(entries: seq<Entry>, ids: map<Path, Inode>, bytes: Bytes, lt: (Path, Path) -> bool)
    requires StrictOrder(lt) && Describes(entries, ids, bytes, lt)
    ensures Describes(Sort(entries, lt), ids, bytes, lt) && Ascending(Sort(entries, lt), lt)
    ensures DirectoryPaths(Sort(entries, lt)) == DirectoryPaths(entries)
  {
    forall e
      ensures e in Sort(entries, lt) <==> e in entries
    {
      SortSame(entries, lt, e);
    }
    SortAscending(entries, lt);
    AscendingDistinct(Sort(entries, lt), lt);
    assert FilePaths(Sort(entries, lt)) == FilePaths(entries);
    assert DirectoryPaths(Sort(entries, lt)) == DirectoryPaths(entries);
  }

  lemma AscendingDistinct(s: seq<Entry>, lt: (Path, Path) -> bool)
    requires StrictOrder(lt) && Ascending(s, lt)
    ensures Distinct(s)
  {
  }

  predicate NoRepeats(paths: seq<Path>) {
    forall i, j :: 0 <= i < j < |paths| ==> paths[i] != paths[j]
  }

  /** Each group lists exactly the paths that reach its inode, once each. */
  ghost predicate Grouped(groups: map<Inode, seq<Path>>, ids: map<Path, Inode>) {
    && (forall p :: p in ids ==> ids[p] in groups)
    && (forall inode :: inode in groups ==>
          && groups[inode] != [] && NoRepeats(groups[inode])
          && forall p :: p in groups[inode] <==> p in ids && ids[p] == inode)
  }

  lemma NothingGrouped()
    ensures Grouped(map[], map[])
  {
  }

  /** The loop over the entries that collects the paths of every inode. */
  method GroupAliases(raw: seq<Entry>, ids: map<Path, Inode>) returns (groups: map<Inode, seq<Path>>)
    requires Distinct(raw) && FilePaths(raw) == ids.Keys
    ensures Grouped(groups, ids)
  {
    hide Grouped;
    NothingGrouped();
    groups := map[];
    ghost var seen: map<Path, Inode> := map[];
    for i := 0 to |raw|
      invariant seen.Keys == FilePaths(raw[..i])
      invariant forall p :: p in seen ==> p in ids && seen[p] == ids[p]
      invariant Grouped(groups, seen)
    {
      assert raw[..i + 1] == raw[..i] + [raw[i]];
      if raw[i].FileEntry? {
        var p := raw[i].path;
        assert p in FilePaths(raw);
        assert p !in seen;
        groups := AddAlias(groups, p, ids[p], seen);
        seen := seen[p := ids[p]];
        assert FilePaths(raw[..i + 1]) == FilePaths(raw[..i]) + {p};
      } else {
        assert FilePaths(raw[..i + 1]) == FilePaths(raw[..i]);
      }
    }
    assert raw[..|raw|] == raw;
    assert seen == ids;
  }

  method AddAlias(groups: map<Inode, seq<Path>>, p: Path, inode: Inode, ghost seen: map<Path, Inode>)
    returns (more: map<Inode, seq<Path>>)
    requires Grouped(groups, seen) && p !in seen
    ensures Grouped(more, seen[p := inode])
  {
    var aliases := if inode in groups then groups[inode] else [];
    more := groups[inode := aliases + [p]];
  }

  function Least(paths: seq<Path>, lt: (Path, Path) -> bool): Path
    requires paths != []
  {
    if |paths| == 1 then paths[0]
    else var best := Least(paths[1..], lt); if lt(best, paths[0]) then best else paths[0]
  }

  lemma {:induction false} LeastIsLeast(paths: seq<Path>, lt: (Path, Path) -> bool)
    requires StrictOrder(lt) && paths != []
    ensures Least(paths, lt) in paths
    ensures forall q :: q in paths ==> q == Least(paths, lt) || lt(Least(paths, lt), q)
  {
    if |paths| > 1 {
      LeastIsLeast(paths[1..], lt);
      forall q | q in paths
        ensures q == Least(paths, lt) || lt(Least(paths, lt), q)
      {
        assert q == paths[0] || q in paths[1..];
      }
    }
  }

  lemma {:induction false} GroupSize(paths: seq<Path>, members: set<Path>)
    requires NoRepeats(paths) && forall p :: p in paths <==> p in members
    ensures |paths| == |members|
  {
    if paths == [] {
      assert members == {};
    } else {
      var rest := members - {paths[0]};
      forall p
        ensures p in paths[1..] <==> p in rest
      {
        if p in rest { assert p in paths; }
      }
      GroupSize(paths[1..], rest);
    }
  }

  lemma LinkFromGroup(p: Path, paths: seq<Path>, ids: map<Path, Inode>, lt: (Path, Path) -> bool)
    requires StrictOrder(lt) && p in ids && p in paths && NoRepeats(paths)
    requires forall q :: q in paths <==> q in ids && ids[q] == ids[p]
    ensures LinkRight(p, if |paths| > 1 then Some(Least(paths, lt)) else None, ids, lt)
  {
    if |paths| > 1 {
      LeastIsLeast(paths, lt);
    } else {
      assert paths == [p];
    }
  }

  /** Give every file entry its link, refusing a file with links outside the snapshot. */
  method AssignLinks(raw: seq<Entry>, ids: map<Path, Inode>, links: map<Inode, nat>, lt: (Path, Path) -> bool)
    returns (entries: Option<seq<Entry>>)
    requires StrictOrder(lt) && Distinct(raw) && FilePaths(raw) == ids.Keys
    requires forall p :: p in ids ==> ids[p] in links
    ensures entries.Some? <==> forall p :: p in ids ==> links[ids[p]] == |Aliases(ids, ids[p])|
    ensures entries.Some? ==> |entries.value| == |raw| && forall i :: 0 <= i < |raw| ==>
      Linked(raw[i], entries.value[i], ids, lt)
  {
    var groups := GroupAliases(raw, ids);
    var linked: seq<Entry> := [];
    for i := 0 to |raw|
      invariant |linked| == i
      invariant forall k :: 0 <= k < i ==> Linked(raw[k], linked[k], ids, lt)
      invariant forall k :: 0 <= k < i && raw[k].FileEntry? ==>
        raw[k].path in ids && links[ids[raw[k].path]] == |Aliases(ids, ids[raw[k].path])|
    {
      if raw[i].FileEntry? {
        var p := raw[i].path;
        assert p in FilePaths(raw);
        var paths := groups[ids[p]];
        GroupSize(paths, Aliases(ids, ids[p]));
        if links[ids[p]] != |paths| { return None; }
        LinkFromGroup(p, paths, ids, lt);
        linked := linked + [raw[i].(hardlink := if |paths| > 1 then Some(Least(paths, lt)) else None)];
      } else {
        linked := linked + [raw[i]];
      }
    }
    forall p | p in ids
      ensures links[ids[p]] == |Aliases(ids, ids[p])|
    {
      assert p in FilePaths(raw);
    }
    entries := Some(linked);
  }

  /** The entry that took the place of a scanned one. */
  ghost predicate Linked(raw: Entry, e: Entry, ids: map<Path, Inode>, lt: (Path, Path) -> bool) {
    match raw
    case DirectoryEntry(_) => e == raw
    case FileEntry(p, bytes, _) => e.FileEntry? && e.path == p && e.bytes == bytes && p in ids &&
                                   LinkRight(p, e.hardlink, ids, lt)
  }

  // ---------------------------------------------------------------- the whole scan

  datatype Snapshot = Snapshot(entries: seq<Entry>, fileIds: map<Path, Inode>, files: nat, bytes: nat)

  /** Directory and file paths of a listing, by walking. */
  ghost predicate WalksTo(roots: Listing, path: Path, directory: bool) {
    path != [] && WalkIn(roots, path).Some? && WalkIn(roots, path).value.Dir? == directory
  }

  /** The raw inventory of the roots, judged by walking them. */
  lemma RawEntry(roots: Listing, bytes: Bytes, path: Path)
    requires ReadableAll(roots, bytes)
    ensures path in DirectoryPaths(InventoryAll(roots, [], bytes)) <==> WalksTo(roots, path, true)
    ensures path in FilePaths(InventoryAll(roots, [], bytes)) <==> WalksTo(roots, path, false)
    ensures path in InodesAll(roots, []) <==> WalksTo(roots, path, false)
    ensures path in InodesAll(roots, []) ==> WalkIn(roots, path) == Some(File(InodesAll(roots, [])[path]))
  {
    var raw := InventoryAll(roots, [], bytes);
    InodesAllExact(roots, [], bytes, path);
    assert path[0..] == path;
    if path in DirectoryPaths(raw) {
      var e :| e in raw && e.DirectoryEntry? && e.path == path;
      var rest := InventoryAllSound(roots, [], bytes, e);
      assert rest == path;
    }
    if path in FilePaths(raw) {
      var e :| e in raw && e.FileEntry? && e.path == path;
      var rest := InventoryAllSound(roots, [], bytes, e);
      assert rest == path;
    }
    if path != [] && WalkIn(roots, path).Some? {
      WalkInReadable(roots, path, bytes);
      InventoryAllComplete(roots, [], bytes, path);
      assert [] + path == path;
      assert EntryOf(WalkIn(roots, path).value, path, bytes) in raw;
    }
  }

  lemma RawFacts(roots: Listing, bytes: Bytes)
    requires ReadableAll(roots, bytes)
    ensures var raw, ids := InventoryAll(roots, [], bytes), InodesAll(roots, []);
            && Distinct(raw) && FilePaths(raw) == ids.Keys
            && (forall e :: e in raw ==>
                e.path != [] && (|e.path| == 1 || e.path[..|e.path| - 1] in DirectoryPaths(raw)))
            && (forall e :: e in raw && e.FileEntry? ==>
                e.path in ids && ids[e.path] in bytes && e.bytes == bytes[ids[e.path]])
  {
    var raw, ids := InventoryAll(roots, [], bytes), InodesAll(roots, []);
    InventoryAllDistinct(roots, [], bytes);
    forall path
      ensures path in FilePaths(raw) <==> path in ids
    {
      RawEntry(roots, bytes, path);
    }
    forall e | e in raw
      ensures e.path != [] && (|e.path| == 1 || e.path[..|e.path| - 1] in DirectoryPaths(raw))
      ensures e.FileEntry? ==> e.path in ids && ids[e.path] in bytes && e.bytes == bytes[ids[e.path]]
    {
      RawFact(roots, bytes, e);
    }
  }

  lemma RawFact(roots: Listing, bytes: Bytes, e: Entry)
    requires ReadableAll(roots, bytes) && e in InventoryAll(roots, [], bytes)
    ensures e.path != [] && (|e.path| == 1 || e.path[..|e.path| - 1] in DirectoryPaths(InventoryAll(roots, [], bytes)))
    ensures e.FileEntry? ==>
      var ids := InodesAll(roots, []); e.path in ids && ids[e.path] in bytes && e.bytes == bytes[ids[e.path]]
  {
    var rest := InventoryAllSound(roots, [], bytes, e);
    assert rest == e.path;
    RawEntry(roots, bytes, e.path);
    if |e.path| > 1 {
      WalkInParent(roots, e.path);
      RawEntry(roots, bytes, e.path[..|e.path| - 1]);
    }
  }

  lemma LinkedDescribes(raw: seq<Entry>, entries: seq<Entry>, ids: map<Path, Inode>, bytes: Bytes,
                        lt: (Path, Path) -> bool)
    requires Distinct(raw) && FilePaths(raw) == ids.Keys && |entries| == |raw|
    requires forall e :: e in raw ==> e.path != [] && (|e.path| == 1 || e.path[..|e.path| - 1] in DirectoryPaths(raw))
    requires forall e :: e in raw && e.FileEntry? ==>
      e.path in ids && ids[e.path] in bytes && e.bytes == bytes[ids[e.path]]
    requires forall i :: 0 <= i < |raw| ==> Linked(raw[i], entries[i], ids, lt)
    ensures Describes(entries, ids, bytes, lt)
    ensures DirectoryPaths(entries) == DirectoryPaths(raw)
    ensures forall kind :: Sum(kind, entries) == Sum(kind, raw)
  {
    forall i | 0 <= i < |raw|
      ensures raw[i] in raw && entries[i] in entries && raw[i].path == entries[i].path &&
              raw[i].FileEntry? == entries[i].FileEntry?
    {
    }
    PathsSame(raw, entries);
    forall kind { LinkedSum(kind, raw, entries, ids, lt); }
  }

  lemma PathsSame(raw: seq<Entry>, entries: seq<Entry>)
    requires |entries| == |raw|
    requires forall i :: 0 <= i < |raw| ==> raw[i].path == entries[i].path && raw[i].FileEntry? == entries[i].FileEntry?
    ensures FilePaths(entries) == FilePaths(raw) && DirectoryPaths(entries) == DirectoryPaths(raw)
  {
    forall p
      ensures p in FilePaths(entries) <==> p in FilePaths(raw)
      ensures p in DirectoryPaths(entries) <==> p in DirectoryPaths(raw)
    {
      if i :| 0 <= i < |raw| && raw[i].path == p { assert entries[i] in entries; }
      if i :| 0 <= i < |raw| && entries[i].path == p && entries[i].FileEntry? { assert raw[i] in raw; }
      if i :| 0 <= i < |raw| && entries[i].path == p && entries[i].DirectoryEntry? { assert raw[i] in raw; }
      if i :| 0 <= i < |raw| && raw[i].path == p && raw[i].FileEntry? { assert entries[i] in entries; }
      if i :| 0 <= i < |raw| && raw[i].path == p && raw[i].DirectoryEntry? { assert entries[i] in entries; }
    }
  }

  lemma {:induction false} LinkedSum(kind: Kind, raw: seq<Entry>, entries: seq<Entry>, ids: map<Path, Inode>,
                                     lt: (Path, Path) -> bool)
    requires |entries| == |raw| && forall i :: 0 <= i < |raw| ==> Linked(raw[i], entries[i], ids, lt)
    ensures Sum(kind, entries) == Sum(kind, raw)
  {
    if raw != [] {
      assert Linked(raw[0], entries[0], ids, lt);
      LinkedSum(kind, raw[1..], entries[1..], ids, lt);
    }
  }

  /** Inventory the two mail roots. The snapshot lists exactly what the tree walks to; its totals are
      those of the tree; a missing root or a link from outside is refused. */
  method ScanMail(inbox: Option<Tree>, messages: Option<Tree>, bytes: Bytes, links: map<Inode, nat>,
                  lt: (Path, Path) -> bool)
    returns (r: Option<Snapshot>)
    requires StrictOrder(lt) && ReadableAll(Roots(Made(inbox), Made(messages)), bytes)
    requires bytes.Keys == links.Keys
    ensures
      var roots := Roots(Made(inbox), Made(messages));
      var ids := InodesAll(roots, []);
      && (r.Some? <==>
            && inbox.Some? && inbox.value.Dir? && messages.Some? && messages.value.Dir?
            && forall p :: p in ids ==> ids[p] in links && links[ids[p]] == |Aliases(ids, ids[p])|)
      && (r.Some? ==>
            && r.value.fileIds == ids
            && Describes(r.value.entries, ids, bytes, lt) && Ascending(r.value.entries, lt)
            && (forall p :: p in DirectoryPaths(r.value.entries) <==> WalksTo(roots, p, true))
            && (forall p :: p in ids <==> WalksTo(roots, p, false))
            && r.value.files == Sum(Files, InventoryAll(roots, [], bytes))
            && r.value.bytes == Sum(Size, InventoryAll(roots, [], bytes)))
  {
    if inbox.None? || inbox.value.File? || messages.None? || messages.value.File? { return None; }
    ghost var roots := Roots(Made(inbox), Made(messages));
    var scanner := new Scanner();
    scanner.ScanRoots(inbox.value, messages.value, bytes);
    var raw, ids := scanner.entries, scanner.fileIds;
    RawFacts(roots, bytes);
    FilesHaveLinks(raw, ids, bytes);
    var linked := AssignLinks(raw, ids, links, lt);
    if linked.None? { return None; }
    LinkedDescribes(raw, linked.value, ids, bytes, lt);
    SortDescribes(linked.value, ids, bytes, lt);
    SortSum(Files, linked.value, lt);
    SortSum(Size, linked.value, lt);
    forall p
      ensures p in DirectoryPaths(raw) <==> WalksTo(roots, p, true)
      ensures p in ids <==> WalksTo(roots, p, false)
    {
      RawEntry(roots, bytes, p);
    }
    var entries := Sort(linked.value, lt);
    r := Some(Snapshot(entries, ids, Sum(Files, entries), Sum(Size, entries)));
  }

  lemma FilesHaveLinks(raw: seq<Entry>, ids: map<Path, Inode>, bytes: Bytes)
    requires FilePaths(raw) == ids.Keys
    requires forall e :: e in raw && e.FileEntry? ==> e.path in ids && ids[e.path] in bytes
    ensures forall p :: p in ids ==> ids[p] in bytes
  {
    forall p | p in ids
      ensures ids[p] in bytes
    {
      assert p in FilePaths(raw);
    }
  }
}