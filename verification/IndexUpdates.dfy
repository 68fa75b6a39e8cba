/** What inserting a file does to every later lookup, and what a failed insertion leaves behind. */
module IndexUpdates {
  import opened Wrappers
  import opened IndexTree
  import opened IndexRoundTrip

  // ---- Lookups by names ----

  /** The file under a list of names: a remote one, or, when `local` says so, a local one as well. */
  function Find(t: Tree, names: seq<Name>, local: bool): Option<FileInfo>
    decreases |names|
  {
    if names == [] || names[0] !in t then None
    else
      match t[names[0]]
      case Dir(sub) => Find(sub, names[1..], local)
      case RemoteFile(info) => if |names| == 1 then Some(info) else None
      case LocalFile(info) => if |names| == 1 && local then Some(info) else None
      case Link(_) => None
  }

  /** A path with a file name, and nothing but names before it. */
  predicate NamesFile(path: Path) {
    FileName(path).Some? && Proper(path[..|path| - 1])
  }

  lemma {:induction false} NamesSnoc(path: Path, name: Name)
    requires Proper(path)
    ensures Names(path + [Normal(name)]) == Names(path) + [name]
    decreases |path|
  {
    var all := path + [Normal(name)];
    if path == [] {
      assert all[1..] == [];
    } else {
      assert all[1..] == path[1..] + [Normal(name)];
      assert path[0] in path;
      NamesSnoc(path[1..], name);
    }
  }

  lemma NothingInside(names: seq<Name>, local: bool)
    ensures Find(map[], names, local) == None
  {
  }

  /** Reading an index back makes the local files findable, and takes no file away. */
  lemma {:induction false} FindCleaned(t: Tree, names: seq<Name>)
    ensures Find(Cleaned(t), names, false) == Find(t, names, true)
    decreases |names|
  {
    if names != [] && names[0] in t {
      if t[names[0]] == Dir(map[]) {
        NothingInside(names[1..], true);
      } else {
        assert Cleaned(t)[names[0]] == Clean(t[names[0]]);
        if t[names[0]].Dir? {
          FindCleaned(t[names[0]].tree, names[1..]);
        }
      }
    }
  }

  lemma {:induction false} GetFromIsFind(t: Tree, path: Path, name: Name)
    ensures GetFrom(t, path, Some(name)) == if Proper(path) then Find(t, Names(path) + [name], false) else None
    decreases |path|
  {
    if path == [] {
      assert Names(path) + [name] == [name] && [name][1..] == [];
    } else if path[0].Normal? {
      var next := path[0].name;
      assert Names(path) + [name] == [next] + (Names(path[1..]) + [name]);
      assert path == [path[0]] + path[1..];
      if next in t && t[next].Dir? {
        GetFromIsFind(t[next].tree, path[1..], name);
      }
    } else if path[0].RootDir? {
      assert path == [path[0]] + path[1..];
      GetFromIsFind(t, path[1..], name);
    } else {
      assert path[0] in path;
    }
  }

  lemma {:induction false} NoNameNoFile(t: Tree, path: Path)
    ensures GetFrom(t, path, None) == None
    decreases |path|
  {
    if path != [] {
      NoNameNoFile(t, path[1..]);
      if path[0].Normal? && path[0].name in t && t[path[0].name].Dir? {
        NoNameNoFile(t[path[0].name].tree, path[1..]);
      }
    }
  }

  /**
   Looking a path up is finding its names among the remote files, and after writing out and reading back,
   among all files.
   */
  lemma GetFileIsFind(t: Tree, path: Path)
    ensures GetFile(t, path) == if NamesFile(path) then Find(t, Names(path), false) else None
    ensures GetFile(Cleaned(t), path) == if NamesFile(path) then Find(t, Names(path), true) else None
  {
    FindCleaned(t, Names(path));
    if Parent(path).Some? {
      if FileName(path).Some? {
        assert path == Parent(path).value + [Normal(FileName(path).value)];
        GetFromIsFind(t, Parent(path).value, FileName(path).value);
        GetFromIsFind(Cleaned(t), Parent(path).value, FileName(path).value);
        if Proper(Parent(path).value) {
          NamesSnoc(Parent(path).value, FileName(path).value);
        }
      } else {
        NoNameNoFile(t, Parent(path).value);
        NoNameNoFile(Cleaned(t), Parent(path).value);
      }
    }
  }

  // ---- A successful insertion ----

  lemma {:induction false} InsertedIsFound(t: Tree, path: Path, fname: Name, info: FileInfo, q: seq<Name>, local: bool)
    requires InsertAt(t, path, fname, LocalFile(info)).error.None?
    ensures Proper(path)
    ensures var at := Names(path) + [fname];
            Find(InsertAt(t, path, fname, LocalFile(info)).tree, q, local)
            == if q == at && local then Some(info) else if at <= q then None else Find(t, q, local)
    decreases |path|
  {
    var at := Names(path) + [fname];
    if path == [] {
      assert at == [fname];
      if q != [] && q[0] == fname && |q| == 1 {
        assert q == at;
      }
    } else if path[0].RootDir? {
      InsertedIsFound(t, path[1..], fname, info, q, local);
    } else {
      var name := path[0].name;
      var next := if name in t then t[name].tree else map[];
      assert at == [name] + (Names(path[1..]) + [fname]);
      InsertedIsFound(next, path[1..], fname, info, if q == [] then [] else q[1..], local);
      if q != [] && q[0] == name {
        assert q == [name] + q[1..];
        assert at[1..] == Names(path[1..]) + [fname];
        NothingInside(q[1..], local);
      }
    }
  }

  lemma FileInserted(t: Tree, path: Path, hashed: Option<(nat, seq<nat>)>, exe: bool, q: seq<Name>, local: bool)
    requires InsertFile(t, path, hashed, exe).error.None?
    ensures hashed.Some? && NamesFile(path)
    ensures Find(InsertFile(t, path, hashed, exe).tree, q, local)
            == if q == Names(path) && local then Some(FileInfo(exe, hashed.value.0, hashed.value.1))
               else if Names(path) <= q then None else Find(t, q, local)
  {
    var fname, parent := FileName(path).value, Parent(path).value;
    InsertedIsFound(t, parent, fname, FileInfo(exe, hashed.value.0, hashed.value.1), q, local);
    assert path == parent + [Normal(fname)];
    NamesSnoc(parent, fname);
  }

  /**
   After a successful insertion, writing the index out and reading it back: the path gives the file that was
   inserted, a path below it gives nothing, and every other path gives what it gave before.
   */
  lemma InsertThenLookup(t: Tree, path: Path, hashed: Option<(nat, seq<nat>)>, exe: bool, q: Path)
    requires InsertFile(t, path, hashed, exe).error.None?
    ensures hashed.Some? && NamesFile(path)
    ensures Parse(Emit(t)).Parsed? && Parse(Emit(InsertFile(t, path, hashed, exe).tree)).Parsed?
    ensures var before, after := Parse(Emit(t)).root, Parse(Emit(InsertFile(t, path, hashed, exe).tree)).root;
            GetFile(after, q)
            == if NamesFile(q) && Names(q) == Names(path) then Some(FileInfo(exe, hashed.value.0, hashed.value.1))
               else if NamesFile(q) && Names(path) < Names(q) then None
               else GetFile(before, q)
  {
    var after := InsertFile(t, path, hashed, exe).tree;
    EmitThenParse(t);
    EmitThenParse(after);
    FileInserted(t, path, hashed, exe, Names(q), true);
    GetFileIsFind(t, q);
    GetFileIsFind(after, q);
  }

  /** Until then the inserted file is not found, by whatever path with its names, and hides what was there. */
  lemma NotFoundBeforeEmission(t: Tree, path: Path, hashed: Option<(nat, seq<nat>)>, exe: bool, q: Path)
    requires InsertFile(t, path, hashed, exe).error.None?
    ensures GetFile(InsertFile(t, path, hashed, exe).tree, q)
            == if NamesFile(q) && Names(path) <= Names(q) then None else GetFile(t, q)
  {
    FileInserted(t, path, hashed, exe, Names(q), false);
    GetFileIsFind(t, q);
    GetFileIsFind(InsertFile(t, path, hashed, exe).tree, q);
  }

  // ---- Which insertions succeed ----

  /** No file or link stands in the way of the directories named. */
  predicate Clear(t: Tree, names: seq<Name>)
    decreases |names|
  {
    names == [] || names[0] !in t || (t[names[0]].Dir? && Clear(t[names[0]].tree, names[1..]))
  }

  lemma {:induction false} InsertAtOutcome(t: Tree, path: Path, fname: Name, item: Item)
    ensures var r := InsertAt(t, path, fname, item);
            && (r.error == None <==> Clear(t, Names(path)) && Proper(path))
            && (r.error == Some(NotADirectory) <==> !Clear(t, Names(path)))
            && (r.error == Some(BadPath) <==> Clear(t, Names(path)) && !Proper(path))
            && (r.error == Some(NotADirectory) ==> r.tree == t)
            && (r.error == Some(BadPath) ==> (r.tree == t <==> Get(t, Names(path)).Some?))
    decreases |path|
  {
    if path != [] {
      assert path == [path[0]] + path[1..];
      if path[0].RootDir? {
        InsertAtOutcome(t, path[1..], fname, item);
      } else if path[0].Normal? {
        var name := path[0].name;
        assert Names(path)[1..] == Names(path[1..]);
        if name !in t {
          InsertAtOutcome(map[], path[1..], fname, item);
        } else if t[name].Dir? {
          InsertAtOutcome(t[name].tree, path[1..], fname, item);
        }
      }
    }
  }

  /** When `insert_file` succeeds, and with which error it fails. */
  lemma InsertOutcome(t: Tree, path: Path, hashed: Option<(nat, seq<nat>)>, exe: bool)
    ensures var r := InsertFile(t, path, hashed, exe);
            var ready := path != [] && path[0].RootDir? && FileName(path).Some?;
            && (r.error == None <==> ready && hashed.Some? && NamesFile(path) && Clear(t, Names(path[..|path| - 1])))
            && (r.error == Some(NotADirectory) <==> ready && hashed.Some? && !Clear(t, Names(path[..|path| - 1])))
            && (r.error == Some(Read) <==> ready && hashed.None?)
  {
    if path != [] && path[0].RootDir? && FileName(path).Some? && hashed.Some? {
      InsertAtOutcome(t, Parent(path).value, FileName(path).value, LocalFile(FileInfo(exe, hashed.value.0, hashed.value.1)));
    }
  }

  /** The path goes on, past directories that are not all there, to a component that is not a name. */
  predicate LeavesDirectories(t: Tree, path: Path, hashed: Option<(nat, seq<nat>)>) {
    && path != [] && path[0].RootDir? && FileName(path).Some? && hashed.Some? && !NamesFile(path)
    && Clear(t, Names(path[..|path| - 1])) && Get(t, Names(path[..|path| - 1])).None?
  }

  /**
   A failed insertion leaves the tree alone, except that one stopped by a `..` leaves behind the directories
   it made before it got there: it leaves the tree alone exactly when those were there already.
   */
  lemma FailedInsert(t: Tree, path: Path, hashed: Option<(nat, seq<nat>)>, exe: bool)
    requires InsertFile(t, path, hashed, exe).error.Some?
    ensures InsertFile(t, path, hashed, exe).error != Some(BadPath) ==> InsertFile(t, path, hashed, exe).tree == t
    ensures InsertFile(t, path, hashed, exe).tree == t
            <==> !LeavesDirectories(t, path, hashed)
  {
    if path != [] && path[0].RootDir? && FileName(path).Some? && hashed.Some? {
      InsertAtOutcome(t, Parent(path).value, FileName(path).value, LocalFile(FileInfo(exe, hashed.value.0, hashed.value.1)));
    }
  }

  lemma BadPathLeavesDirectory(info: (nat, seq<nat>))
    ensures InsertFile(map[], [RootDir, Normal("a"), Other, Normal("f")], Some(info), false)
            == Inserted(map["a" := Dir(map[])], Some(BadPath))
  {
    var path := [RootDir, Normal("a"), Other, Normal("f")];
    var item := LocalFile(FileInfo(false, info.0, info.1));
    assert Parent(path).value == [RootDir, Normal("a"), Other];
    assert Parent(path).value[1..] == [Normal("a"), Other];
    assert [Normal("a"), Other][1..] == [Other];
    assert InsertAt(map[], [Other], "f", item) == Inserted(map[], Some(BadPath));
    assert InsertAt(map[], [Normal("a"), Other], "f", item) == Inserted(map["a" := Dir(map[])], Some(BadPath));
    assert FileName(path) == Some("f");
  }
}
