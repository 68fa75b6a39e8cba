/**
 The mutable index of src/cluster/download.rs: an entry list is parsed into nested maps, a file is
 inserted, the tree is emitted again, and files are looked up. A path is the list of its components.
 */
module IndexTree {
  import opened Wrappers

  type Name = string

  /** A component of a path; `Other` stands for `.`, `..` and prefixes. */
  datatype Component = RootDir | Normal(name: Name) | Other

  type Path = seq<Component>

  datatype FileInfo = FileInfo(exe: bool, size: nat, hashes: seq<nat>)

  datatype Item =
    | Dir(tree: map<Name, Item>)
    | RemoteFile(info: FileInfo)
    | Link(dest: string)
    | LocalFile(info: FileInfo)

  type Tree = map<Name, Item>

  datatype Entry =
    | DirEntry(path: Path)
    | FileEntry(path: Path, info: FileInfo)
    | LinkEntry(path: Path, dest: string)

  // ---- Paths ----

  /** `Path::file_name` */
  function FileName(path: Path): Option<Name> {
    if path != [] && path[|path| - 1].Normal? then Some(path[|path| - 1].name) else None
  }

  /** `Path::parent` */
  function Parent(path: Path): Option<Path> {
    if path != [] && !path[|path| - 1].RootDir? then Some(path[..|path| - 1]) else None
  }

  /** No component but names and the root. */
  predicate Proper(path: Path) { forall c :: c in path ==> !c.Other? }

  /** The names of a path, up to the first component that is neither a name nor the root. */
  function Names(path: Path): seq<Name>
    decreases |path|
  {
    if path == [] || path[0].Other? then []
    else if path[0].RootDir? then Names(path[1..])
    else [path[0].name] + Names(path[1..])
  }

  function Absolute(names: seq<Name>): Path {
    [RootDir] + seq(|names|, i requires 0 <= i < |names| => Normal(names[i]))
  }

  // ---- Directories within a tree ----

  /** The directory at a path, if there is one. */
  function Get(t: Tree, path: seq<Name>): Option<Tree>
    decreases |path|
  {
    if path == [] then Some(t)
    else if path[0] in t && t[path[0]].Dir? then Get(t[path[0]].tree, path[1..])
    else None
  }

  /** The tree with another directory at a path, and with what is missing on the way. */
  function Set(t: Tree, path: seq<Name>, sub: Tree): Tree
    decreases |path|
  {
    if path == [] then sub
    else
      var next := if path[0] in t && t[path[0]].Dir? then t[path[0]].tree else map[];
      t[path[0] := Dir(Set(next, path[1..], sub))]
  }

  lemma {:induction false} GetSnoc(t: Tree, path: seq<Name>, k: Name)
    ensures Get(t, path + [k])
            == if Get(t, path).Some? && k in Get(t, path).value && Get(t, path).value[k].Dir?
               then Some(Get(t, path).value[k].tree) else None
    decreases |path|
  {
    if path == [] {
      assert (path + [k])[1..] == [];
    } else {
      assert (path + [k])[1..] == path[1..] + [k];
      if path[0] in t && t[path[0]].Dir? {
        GetSnoc(t[path[0]].tree, path[1..], k);
      }
    }
  }

  lemma {:induction false} GetSet(t: Tree, path: seq<Name>, sub: Tree)
    ensures Get(Set(t, path, sub), path) == Some(sub)
    decreases |path|
  {
    if path != [] {
      var next := if path[0] in t && t[path[0]].Dir? then t[path[0]].tree else map[];
      GetSet(next, path[1..], sub);
    }
  }

  lemma {:induction false} SetSet(t: Tree, path: seq<Name>, a: Tree, b: Tree)
    ensures Set(Set(t, path, a), path, b) == Set(t, path, b)
    decreases |path|
  {
    if path != [] {
      var next := if path[0] in t && t[path[0]].Dir? then t[path[0]].tree else map[];
      SetSet(next, path[1..], a, b);
    }
  }

  lemma {:induction false} SetGet(t: Tree, path: seq<Name>)
    requires Get(t, path).Some?
    ensures Set(t, path, Get(t, path).value) == t
    decreases |path|
  {
    if path != [] {
      SetGet(t[path[0]].tree, path[1..]);
    }
  }

  lemma {:induction false} SetSnoc(t: Tree, path: seq<Name>, k: Name, sub: Tree)
    requires Get(t, path).Some?
    ensures Set(t, path + [k], sub) == Set(t, path, Get(t, path).value[k := Dir(sub)])
    decreases |path|
  {
    if path == [] {
      assert (path + [k])[1..] == [];
    } else {
      assert (path + [k])[1..] == path[1..] + [k];
      SetSnoc(t[path[0]].tree, path[1..], k, sub);
    }
  }

  // ---- fill_dirs ----

  datatype Parsed =
    | Parsed(root: Tree)
    | InvalidPath(path: Path)
    | PathConflict(path: Path)

  datatype Walked = Walked(root: Tree, cursor: seq<Name>) | WalkInvalid | WalkConflict

  /** Follow the components from the directory at `cursor`, creating the directories that are missing. */
  function Walk(root: Tree, cursor: seq<Name>, path: Path): (w: Walked)
    requires Get(root, cursor).Some?
    ensures w.Walked? ==> Get(w.root, w.cursor).Some?
    decreases |path|
  {
    if path == [] then Walked(root, cursor)
    else
      match path[0]
      case RootDir => Walk(root, cursor, path[1..])
      case Normal(chunk) =>
        var dir := Get(root, cursor).value;
        GetSnoc(root, cursor, chunk);
        if chunk in dir then
          if dir[chunk].Dir? then Walk(root, cursor + [chunk], path[1..]) else WalkConflict
        else
          var next := Set(root, cursor, dir[chunk := Dir(map[])]);
          GetSet(root, cursor, dir[chunk := Dir(map[])]);
          GetSnoc(next, cursor, chunk);
          Walk(next, cursor + [chunk], path[1..])
      case Other => WalkInvalid
  }

  /** An entry put into the directory at `cursor`. */
  function PutAt(root: Tree, cursor: seq<Name>, name: Name, item: Item): (t: Tree)
    requires Get(root, cursor).Some?
    ensures Get(t, cursor).Some?
  {
    GetSet(root, cursor, Get(root, cursor).value[name := item]);
    Set(root, cursor, Get(root, cursor).value[name := item])
  }

  /** The rest of an entry list, read into a tree with the directory at `cursor` as the current one. */
  function ParseFrom(root: Tree, cursor: seq<Name>, entries: seq<Entry>): Parsed
    requires Get(root, cursor).Some?
    decreases |entries|
  {
    if entries == [] then Parsed(root)
    else
      match entries[0]
      case DirEntry(path) => (
        match Walk(root, [], path)
        case Walked(next, at) => ParseFrom(next, at, entries[1..])
        case WalkInvalid => InvalidPath(path)
        case WalkConflict => PathConflict(path)
      )
      case FileEntry(path, info) =>
        if FileName(path).None? then InvalidPath(path)
        else ParseFrom(PutAt(root, cursor, FileName(path).value, RemoteFile(info)), cursor, entries[1..])
      case LinkEntry(path, dest) =>
        if FileName(path).None? then InvalidPath(path)
        else ParseFrom(PutAt(root, cursor, FileName(path).value, Link(dest)), cursor, entries[1..])
  }

  function Parse(entries: seq<Entry>): Parsed { ParseFrom(map[], [], entries) }

  /** The parsing loop, with the borrowed directory of the source as a path into the tree. */
  method FillDirs(entries: seq<Entry>) returns (r: Parsed)
    ensures r == Parse(entries)
  {
    var root, cursor: seq<Name> := map[], [];
    for n := 0 to |entries|
      invariant Get(root, cursor).Some?
      invariant ParseFrom(root, cursor, entries[n..]) == Parse(entries)
    {
      var entry, rest := entries[n], entries[n + 1..];
      assert entries[n..][1..] == rest;
      match entry
      case DirEntry(path) => {
        ghost var before := root;
        cursor := [];
        for m := 0 to |path|
          invariant Get(root, cursor).Some?
          invariant Walk(root, cursor, path[m..]) == Walk(before, [], path)
        {
          assert path[m..][1..] == path[m + 1..];
          match path[m]
          case RootDir => {
          }
          case Normal(chunk) => {
            var dir := Get(root, cursor).value;
            if chunk !in dir {
              GetSet(root, cursor, dir[chunk := Dir(map[])]);
              root := Set(root, cursor, dir[chunk := Dir(map[])]);
            } else if !dir[chunk].Dir? {
              return PathConflict(path);
            }
            GetSnoc(root, cursor, chunk);
            cursor := cursor + [chunk];
          }
          case Other => {
            return InvalidPath(path);
          }
        }
      }
      case FileEntry(path, info) => {
        if FileName(path).None? {
          return InvalidPath(path);
        }
        root := PutAt(root, cursor, FileName(path).value, RemoteFile(info));
      }
      case LinkEntry(path, dest) => {
        if FileName(path).None? {
          return InvalidPath(path);
        }
        root := PutAt(root, cursor, FileName(path).value, Link(dest));
      }
    }
    return Parsed(root);
  }

  // ---- _emit_dir ----

  /** The order of names: that of `BTreeMap`, character by character. */
  predicate Less(a: Name, b: Name) {
    b != [] && (a == [] || a[0] < b[0] || (a[0] == b[0] && Less(a[1..], b[1..])))
  }

  lemma {:induction false} LessTotal(a: Name, b: Name)
    ensures a == b || Less(a, b) || Less(b, a)
    ensures !(Less(a, b) && Less(b, a)) && !Less(a, a)
  {
    if a != [] && b != [] && a[0] == b[0] {
      LessTotal(a[1..], b[1..]);
      assert a == [a[0]] + a[1..] && b == [b[0]] + b[1..];
    }
    if a != [] {
      LessTotal(a[1..], a[1..]);
    }
  }

  lemma {:induction false} LessTransitive(a: Name, b: Name, c: Name)
    requires Less(a, b) && Less(b, c)
    ensures Less(a, c)
  {
    if a != [] && a[0] == b[0] && b[0] == c[0] {
      LessTransitive(a[1..], b[1..], c[1..]);
    }
  }

  predicate IsLeast(keys: set<Name>, k: Name) {
    k in keys && forall x :: x in keys && x != k ==> Less(k, x)
  }

  lemma {:induction false} LeastExists(keys: set<Name>) returns (k: Name)
    requires keys != {}
    ensures IsLeast(keys, k)
  {
    var x :| x in keys;
    var others := keys - {x};
    if others == {} {
      k := x;
      assert keys == {x} + others;
    } else {
      var y := LeastExists(others);
      LessTotal(x, y);
      k := if Less(x, y) then x else y;
      forall z | z in keys && z != k ensures Less(k, z) {
        if z != x {
          assert z in others;
          assert z == y || Less(y, z);
          if k == x && z != y {
            LessTransitive(x, y, z);
          }
        }
      }
    }
  }

  lemma LeastUnique(keys: set<Name>)
    ensures forall a, b :: IsLeast(keys, a) && IsLeast(keys, b) ==> a == b
  {
    forall a, b | IsLeast(keys, a) && IsLeast(keys, b) ensures a == b {
      LessTotal(a, b);
    }
  }

  function Least(keys: set<Name>): (k: Name)
    requires keys != {}
    ensures IsLeast(keys, k)
  {
    LeastUnique(keys);
    assert exists k :: IsLeast(keys, k) by { var k := LeastExists(keys); }
    var k :| IsLeast(keys, k);
    k
  }

  /** The keys of a map in the order in which it is iterated. */
  function InOrder(keys: set<Name>): (s: seq<Name>)
    ensures forall k :: k in s <==> k in keys
    ensures forall i, j :: 0 <= i < j < |s| ==> s[i] != s[j]
    decreases |keys|
  {
    if keys == {} then [] else [Least(keys)] + InOrder(keys - {Least(keys)})
  }

  function EmitFiles(path: seq<Name>, t: Tree, keys: seq<Name>): seq<Entry>
    requires forall k :: k in keys ==> k in t
    decreases |keys|
  {
    if keys == [] then []
    else
      var at := Absolute(path + [keys[0]]);
      (match t[keys[0]]
       case Dir(_) => []
       case RemoteFile(info) => [FileEntry(at, info)]
       case LocalFile(info) => [FileEntry(at, info)]
       case Link(dest) => [LinkEntry(at, dest)])
      + EmitFiles(path, t, keys[1..])
  }

  function EmitSubdirs(path: seq<Name>, dir: Item, keys: seq<Name>): seq<Entry>
    requires dir.Dir? && forall k :: k in keys ==> k in dir.tree
    decreases dir, 0, |keys|
  {
    if keys == [] then []
    else
      (if dir.tree[keys[0]].Dir? then EmitDir(path + [keys[0]], dir.tree[keys[0]]) else [])
      + EmitSubdirs(path, dir, keys[1..])
  }

  /** A directory, then its files and links, then its subdirectories; an empty one leaves no trace. */
  function EmitDir(path: seq<Name>, dir: Item): seq<Entry>
    requires dir.Dir?
    decreases dir, 1, 0
  {
    if dir.tree == map[] then []
    else
      [DirEntry(Absolute(path))] + EmitFiles(path, dir.tree, InOrder(dir.tree.Keys))
      + EmitSubdirs(path, dir, InOrder(dir.tree.Keys))
  }

  /** `to_raw_data`, before the entries are written as text. */
  function Emit(t: Tree): seq<Entry> { EmitDir([], Dir(t)) }

  // ---- _insert_file ----

  datatype UpdateError = BadPath | NotADirectory | Read

  datatype Inserted = Inserted(tree: Tree, error: Option<UpdateError>)

  /** The tree as it is afterwards, also where the insertion failed. */
  function InsertAt(t: Tree, path: Path, fname: Name, item: Item): Inserted
    decreases |path|
  {
    if path == [] then Inserted(t[fname := item], None)
    else
      match path[0]
      case RootDir => InsertAt(t, path[1..], fname, item)
      case Normal(name) => (
        match if name in t then t[name] else Dir(map[])
        case Dir(next) =>
          var r := InsertAt(next, path[1..], fname, item);
          Inserted(t[name := Dir(r.tree)], r.error)
        case _ => Inserted(t, Some(NotADirectory))
      )
      case Other => Inserted(t, Some(BadPath))
  }

  /** The descent of the insertion from the directory at `cursor`, and what it makes of the whole tree. */
  ghost predicate Descended(t: Tree, path: Path, fname: Name, item: Item, root: Tree, cursor: seq<Name>, rest: Path)
    requires Get(root, cursor).Some?
  {
    var r := InsertAt(Get(root, cursor).value, rest, fname, item);
    InsertAt(t, path, fname, item) == Inserted(Set(root, cursor, r.tree), r.error)
  }

  lemma DescendInto(t: Tree, path: Path, fname: Name, item: Item, root: Tree, cursor: seq<Name>, rest: Path, name: Name)
    requires Get(root, cursor).Some? && Descended(t, path, fname, item, root, cursor, rest)
    requires rest != [] && rest[0] == Normal(name)
    requires name in Get(root, cursor).value && Get(root, cursor).value[name].Dir?
    ensures Get(root, cursor + [name]).Some?
    ensures Descended(t, path, fname, item, root, cursor + [name], rest[1..])
  {
    var dir := Get(root, cursor).value;
    GetSnoc(root, cursor, name);
    SetSnoc(root, cursor, name, InsertAt(dir[name].tree, rest[1..], fname, item).tree);
  }

  /** A missing directory is made first. */
  lemma MakeDirectory(t: Tree, path: Path, fname: Name, item: Item, root: Tree, cursor: seq<Name>, rest: Path, name: Name)
    requires Get(root, cursor).Some? && Descended(t, path, fname, item, root, cursor, rest)
    requires rest != [] && rest[0] == Normal(name) && name !in Get(root, cursor).value
    ensures var dir := Get(root, cursor).value[name := Dir(map[])];
            && Get(Set(root, cursor, dir), cursor) == Some(dir)
            && Descended(t, path, fname, item, Set(root, cursor, dir), cursor, rest)
  {
    var dir := Get(root, cursor).value;
    var made := dir[name := Dir(map[])];
    GetSet(root, cursor, made);
    var r := InsertAt(dir, rest, fname, item);
    assert r == InsertAt(made, rest, fname, item);
    SetSet(root, cursor, made, r.tree);
  }

  /** `_insert_file`: the descent, with the borrowed directory of the source as a path into the tree. */
  method InsertInPlace(t: Tree, path: Path, fname: Name, item: Item) returns (root: Tree, error: Option<UpdateError>)
    ensures Inserted(root, error) == InsertAt(t, path, fname, item)
  {
    root, error := t, None;
    var cursor: seq<Name> := [];
    for m := 0 to |path|
      invariant Get(root, cursor).Some? && error == None
      invariant Descended(t, path, fname, item, root, cursor, path[m..])
    {
      assert path[m..][1..] == path[m + 1..];
      SetGet(root, cursor);
      match path[m]
      case RootDir => {
      }
      case Normal(name) => {
        if name !in Get(root, cursor).value {
          MakeDirectory(t, path, fname, item, root, cursor, path[m..], name);
          root := Set(root, cursor, Get(root, cursor).value[name := Dir(map[])]);
        }
        if !Get(root, cursor).value[name].Dir? {
          return root, Some(NotADirectory);
        }
        DescendInto(t, path, fname, item, root, cursor, path[m..], name);
        cursor := cursor + [name];
      }
      case Other => {
        return root, Some(BadPath);
      }
    }
    root := PutAt(root, cursor, fname, item);
  }

  /** `insert_file`; `hashed` is what hashing the file gave, if it could be read. */
  function InsertFile(t: Tree, path: Path, hashed: Option<(nat, seq<nat>)>, exe: bool): Inserted {
    if path == [] || !path[0].RootDir? then Inserted(t, Some(BadPath))
    else
      match (FileName(path), Parent(path))
      case (Some(fname), Some(parent)) =>
        if hashed.None? then Inserted(t, Some(Read))
        else InsertAt(t, parent, fname, LocalFile(FileInfo(exe, hashed.value.0, hashed.value.1)))
      case _ => Inserted(t, Some(BadPath))
  }

  // ---- get_file ----

  function GetFrom(t: Tree, path: Path, fname: Option<Name>): Option<FileInfo>
    decreases |path|
  {
    if path == [] then
      match fname
      case None => None
      case Some(name) => if name in t && t[name].RemoteFile? then Some(t[name].info) else None
    else
      match path[0]
      case RootDir => GetFrom(t, path[1..], fname)
      case Normal(name) => if name in t && t[name].Dir? then GetFrom(t[name].tree, path[1..], fname) else None
      case Other => None
  }

  /** `get_file`: only files that came with the index are found. */
  function GetFile(t: Tree, path: Path): Option<FileInfo> {
    if Parent(path).None? then None else GetFrom(t, Parent(path).value, FileName(path))
  }

  /** The object with its tree. */
  class MutableIndex {
    var root: Tree

    constructor (root: Tree)
      ensures this.root == root
    {
      this.root := root;
    }

    method Insert(path: Path, hashed: Option<(nat, seq<nat>)>, exe: bool) returns (error: Option<UpdateError>)
      modifies this
      ensures Inserted(root, error) == InsertFile(old(root), path, hashed, exe)
    {
      if path == [] || !path[0].RootDir? {
        return Some(BadPath);
      }
      var fname, parent := FileName(path), Parent(path);
      if fname.None? || parent.None? {
        return Some(BadPath);
      }
      if hashed.None? {
        return Some(Read);
      }
      var info := FileInfo(exe, hashed.value.0, hashed.value.1);
      root, error := InsertInPlace(root, parent.value, fname.value, LocalFile(info));
    }
  }
}
