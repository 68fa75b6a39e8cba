/** What reading an entry list does, entry by entry, for any list and not only for an emitted one. */
module IndexParsing {
  import opened Wrappers
  import opened IndexTree
  import opened IndexUpdates

  // ---- Files, links and directories by their names ----

  /** The file or link under a list of names. */
  function Leaf(t: Tree, names: seq<Name>): Option<Item>
    decreases |names|
  {
    if names == [] || names[0] !in t then None
    else if t[names[0]].Dir? then Leaf(t[names[0]].tree, names[1..])
    else if |names| == 1 then Some(t[names[0]])
    else None
  }

  predicate IsDir(t: Tree, names: seq<Name>) { Get(t, names).Some? }

  lemma {:induction false} LeafSet(t: Tree, path: seq<Name>, sub: Tree, q: seq<Name>)
    requires Get(t, path).Some?
    ensures Leaf(Set(t, path, sub), q) == if path <= q then Leaf(sub, q[|path|..]) else Leaf(t, q)
    decreases |path|
  {
    if path == [] {
      assert q[0..] == q;
    } else if q != [] && q[0] == path[0] {
      LeafSet(t[path[0]].tree, path[1..], sub, q[1..]);
      assert path == [path[0]] + path[1..] && q == [q[0]] + q[1..];
      assert path <= q <==> path[1..] <= q[1..];
      assert path <= q ==> q[1..][|path[1..]|..] == q[|path|..];
    }
  }

  lemma {:induction false} DirSet(t: Tree, path: seq<Name>, sub: Tree, q: seq<Name>)
    requires Get(t, path).Some?
    ensures IsDir(Set(t, path, sub), q) <==> if path <= q then IsDir(sub, q[|path|..]) else IsDir(t, q)
    decreases |path|
  {
    if path == [] {
      assert q[0..] == q;
    } else if q != [] && q[0] == path[0] {
      DirSet(t[path[0]].tree, path[1..], sub, q[1..]);
      assert path == [path[0]] + path[1..] && q == [q[0]] + q[1..];
      assert path <= q <==> path[1..] <= q[1..];
      assert path <= q ==> q[1..][|path[1..]|..] == q[|path|..];
    }
  }

  /** A directory seen through the tree it is in. */
  lemma SeenFromAbove(t: Tree, path: seq<Name>, q: seq<Name>)
    requires Get(t, path).Some? && path <= q
    ensures Leaf(t, q) == Leaf(Get(t, path).value, q[|path|..])
    ensures IsDir(t, q) <==> IsDir(Get(t, path).value, q[|path|..])
  {
    SetGet(t, path);
    LeafSet(t, path, Get(t, path).value, q);
    DirSet(t, path, Get(t, path).value, q);
  }

  /** Putting an item that is no directory under a name of a directory. */
  lemma PutAtChanges(root: Tree, at: seq<Name>, name: Name, item: Item, q: seq<Name>)
    requires Get(root, at).Some? && !item.Dir?
    ensures var t := PutAt(root, at, name, item);
            && Leaf(t, q) == (if q == at + [name] then Some(item) else if at + [name] <= q then None else Leaf(root, q))
            && (IsDir(t, q) <==> IsDir(root, q) && !(at + [name] <= q))
  {
    var dir := Get(root, at).value;
    LeafSet(root, at, dir[name := item], q);
    DirSet(root, at, dir[name := item], q);
    if at <= q {
      SeenFromAbove(root, at, q);
      var r := q[|at|..];
      assert q == at + r;
      assert at + [name] <= q <==> r != [] && r[0] == name;
      assert q == at + [name] <==> r == [name];
    }
  }

  // ---- The line of a directory ----

  /** Making an empty directory under a name that is free. */
  lemma MakingChanges(root: Tree, at: seq<Name>, name: Name, q: seq<Name>)
    requires Get(root, at).Some? && name !in Get(root, at).value
    ensures var t := Set(root, at, Get(root, at).value[name := Dir(map[])]);
            && Leaf(t, q) == Leaf(root, q)
            && (IsDir(t, q) <==> IsDir(root, q) || q == at + [name])
  {
    var dir := Get(root, at).value;
    LeafSet(root, at, dir[name := Dir(map[])], q);
    DirSet(root, at, dir[name := Dir(map[])], q);
    if at <= q {
      SeenFromAbove(root, at, q);
      var r := q[|at|..];
      assert q == at + r;
      assert q == at + [name] <==> r == [name];
      if r != [] && r[0] == name {
        assert Leaf(map[], r[1..]) == None;
        assert IsDir(map[], r[1..]) <==> r[1..] == [];
        assert r == [name] + r[1..];
      }
    }
  }

  /** Only directories may be missing, and the path must go on by names alone. */
  predicate Walkable(dir: Tree, path: Path) { Clear(dir, Names(path)) && Proper(path) }

  lemma {:induction false} WalkOutcome(root: Tree, cursor: seq<Name>, path: Path, q: seq<Name>)
    requires Get(root, cursor).Some?
    ensures var w, dir := Walk(root, cursor, path), Get(root, cursor).value;
            && (w.Walked? <==> Walkable(dir, path))
            && (w.WalkConflict? <==> !Clear(dir, Names(path)))
            && (w.Walked? ==>
                  && w.cursor == cursor + Names(path) && Leaf(w.root, q) == Leaf(root, q)
                  && (IsDir(w.root, q) <==> IsDir(root, q) || (cursor <= q && q <= cursor + Names(path))))
    decreases |path|
  {
    if path == [] {
      assert cursor + [] == cursor;
      if cursor <= q && q <= cursor {
        assert q == cursor;
      }
    } else {
      assert path == [path[0]] + path[1..];
      match path[0]
      case RootDir => WalkOutcome(root, cursor, path[1..], q);
      case Normal(chunk) =>
        var dir := Get(root, cursor).value;
        GetSnoc(root, cursor, chunk);
        assert Names(path)[1..] == Names(path[1..]);
        assert cursor + Names(path) == (cursor + [chunk]) + Names(path[1..]);
        PrefixSplits(cursor, chunk, Names(path[1..]), q);
        if chunk in dir {
          if dir[chunk].Dir? {
            WalkOutcome(root, cursor + [chunk], path[1..], q);
          }
        } else {
          var next := Set(root, cursor, dir[chunk := Dir(map[])]);
          GetSet(root, cursor, dir[chunk := Dir(map[])]);
          GetSnoc(next, cursor, chunk);
          MakingChanges(root, cursor, chunk, q);
          WalkOutcome(next, cursor + [chunk], path[1..], q);
        }
      case Other =>
    }
  }

  /** The directories on the way down one more name. */
  lemma PrefixSplits(cursor: seq<Name>, chunk: Name, rest: seq<Name>, q: seq<Name>)
    ensures cursor <= q && q <= cursor + ([chunk] + rest)
            <==> q == cursor || (cursor + [chunk] <= q && q <= cursor + [chunk] + rest)
  {
    assert cursor + ([chunk] + rest) == cursor + [chunk] + rest;
  }

  // ---- One more entry ----

  /** The directory that the next file or link belongs to: that of the last directory line. */
  function CurrentDir(cursor: seq<Name>, entries: seq<Entry>): seq<Name>
    decreases |entries|
  {
    if entries == [] then cursor
    else if entries[|entries| - 1].DirEntry? then Names(entries[|entries| - 1].path)
    else CurrentDir(cursor, entries[..|entries| - 1])
  }

  lemma CurrentDirCons(cursor: seq<Name>, entries: seq<Entry>)
    requires entries != []
    ensures CurrentDir(cursor, entries)
            == CurrentDir(if entries[0].DirEntry? then Names(entries[0].path) else cursor, entries[1..])
    decreases |entries|
  {
    var last := |entries| - 1;
    if !entries[last].DirEntry? && last > 0 {
      CurrentDirCons(cursor, entries[..last]);
      assert entries[..last][1..] == entries[1..][..last - 1];
    }
  }

  /** What comes after a list is read where the list leaves off, unless that failed. */
  lemma {:induction false} ParseSnoc(root: Tree, cursor: seq<Name>, entries: seq<Entry>, e: Entry)
    requires Get(root, cursor).Some?
    ensures var r, at := ParseFrom(root, cursor, entries), CurrentDir(cursor, entries);
            if r.Parsed? then
              Get(r.root, at).Some? && ParseFrom(root, cursor, entries + [e]) == ParseFrom(r.root, at, [e])
            else ParseFrom(root, cursor, entries + [e]) == r
    decreases |entries|
  {
    if entries == [] {
      assert [] + [e] == [e];
    } else {
      assert (entries + [e])[1..] == entries[1..] + [e];
      CurrentDirCons(cursor, entries);
      match entries[0]
      case DirEntry(path) =>
        WalkOutcome(root, [], path, []);
        assert [] + Names(path) == Names(path);
        var w := Walk(root, [], path);
        if w.Walked? {
          ParseSnoc(w.root, w.cursor, entries[1..], e);
        }
      case FileEntry(path, info) =>
        if FileName(path).Some? {
          ParseSnoc(PutAt(root, cursor, FileName(path).value, RemoteFile(info)), cursor, entries[1..], e);
        }
      case LinkEntry(path, dest) =>
        if FileName(path).Some? {
          ParseSnoc(PutAt(root, cursor, FileName(path).value, Link(dest)), cursor, entries[1..], e);
        }
    }
  }

  /** The error on which an entry stops the reading: a file or link in its way is met before a bad component. */
  function Refusal(t: Tree, e: Entry): Option<Parsed> {
    match e
    case DirEntry(path) =>
      if !Clear(t, Names(path)) then Some(PathConflict(path))
      else if !Proper(path) then Some(InvalidPath(path)) else None
    case _ => if FileName(e.path).None? then Some(InvalidPath(e.path)) else None
  }

  /** What an entry puts under the current directory. */
  function Brings(e: Entry): Item
    requires !e.DirEntry?
  {
    match e
    case FileEntry(_, info) => RemoteFile(info)
    case LinkEntry(_, dest) => Link(dest)
  }

  /** The tree after one more entry, as far as `q` shows it. */
  predicate Shows(t: Tree, at: seq<Name>, e: Entry, after: Tree, q: seq<Name>)
    requires !e.DirEntry? ==> FileName(e.path).Some?
  {
    if e.DirEntry? then
      && Leaf(after, q) == Leaf(t, q)
      && (IsDir(after, q) <==> IsDir(t, q) || q <= Names(e.path))
    else
      var place := at + [FileName(e.path).value];
      && Leaf(after, q) == (if q == place then Some(Brings(e)) else if place <= q then None else Leaf(t, q))
      && (IsDir(after, q) <==> IsDir(t, q) && !(place <= q))
  }

  /**
   Reading one more entry: a directory line makes the directories that are missing and changes nothing else; a
   file or link takes its place in the directory of the last such line, whatever was there; an entry that is
   refused stops the reading with its error, and nothing is read after an error.
   */
  lemma OneMoreEntry(entries: seq<Entry>, e: Entry, q: seq<Name>)
    ensures var before, after := Parse(entries), Parse(entries + [e]);
            if !before.Parsed? then after == before
            else if Refusal(before.root, e).Some? then after == Refusal(before.root, e).value
            else after.Parsed? && Shows(before.root, CurrentDir([], entries), e, after.root, q)
  {
    ParseSnoc(map[], [], entries, e);
    var r, at := Parse(entries), CurrentDir([], entries);
    if r.Parsed? {
      assert [e][1..] == [];
      match e
      case DirEntry(path) =>
        WalkOutcome(r.root, [], path, q);
        assert [] + Names(path) == Names(path);
      case FileEntry(path, info) =>
        if FileName(path).Some? {
          PutAtChanges(r.root, at, FileName(path).value, RemoteFile(info), q);
        }
      case LinkEntry(path, dest) =>
        if FileName(path).Some? {
          PutAtChanges(r.root, at, FileName(path).value, Link(dest), q);
        }
    }
  }

  /** A list is read exactly when none of its entries is refused, and fails with the error of the first that is. */
  lemma {:induction false} FirstRefusal(entries: seq<Entry>)
    ensures Parse(entries).Parsed? ==>
              forall n :: 0 <= n < |entries| ==>
                            Parse(entries[..n]).Parsed? && Refusal(Parse(entries[..n]).root, entries[n]) == None
    ensures !Parse(entries).Parsed? ==>
              exists n :: 0 <= n < |entries| && Parse(entries[..n]).Parsed?
                          && Refusal(Parse(entries[..n]).root, entries[n]) == Some(Parse(entries))
    decreases |entries|
  {
    if entries != [] {
      var front, last := entries[..|entries| - 1], entries[|entries| - 1];
      assert entries == front + [last];
      FirstRefusal(front);
      OneMoreEntry(front, last, []);
      if Parse(entries).Parsed? {
        forall n | 0 <= n < |entries|
          ensures Parse(entries[..n]).Parsed? && Refusal(Parse(entries[..n]).root, entries[n]) == None
        {
          if n < |front| {
            assert front[..n] == entries[..n];
          }
        }
      } else if Parse(front).Parsed? {
        assert entries[..|front|] == front;
      } else {
        var n :| 0 <= n < |front| && Parse(front[..n]).Parsed?
                 && Refusal(Parse(front[..n]).root, front[n]) == Some(Parse(front));
        assert entries[..n] == front[..n];
      }
    }
  }

  // ---- Insertion, for everything in the tree ----

  /** A tree with a directory under a name, whatever was there. */
  lemma DirectoryUnder(t: Tree, name: Name, sub: Tree, q: seq<Name>)
    ensures Leaf(t[name := Dir(sub)], q) == if q != [] && q[0] == name then Leaf(sub, q[1..]) else Leaf(t, q)
    ensures IsDir(t[name := Dir(sub)], q) <==> if q != [] && q[0] == name then IsDir(sub, q[1..]) else IsDir(t, q)
  {
  }

  lemma Headed(name: Name, rest: seq<Name>, q: seq<Name>)
    ensures q != [] && q[0] == name ==> (q == [name] + rest <==> q[1..] == rest)
    ensures q != [] && q[0] == name ==> ([name] + rest <= q <==> rest <= q[1..]) && (q <= [name] + rest <==> q[1..] <= rest)
    ensures q != [] && q[0] != name ==> q != [name] + rest && !([name] + rest <= q) && !(q <= [name] + rest)
  {
    if q != [] {
      assert q == [q[0]] + q[1..];
    }
  }

  /**
   A successful insertion puts the file in its place, makes the directories on the way, and leaves every other
   file, link and directory as it was.
   */
  lemma {:induction false} InsertKeepsTheRest(t: Tree, path: Path, fname: Name, item: Item, q: seq<Name>)
    requires !item.Dir? && InsertAt(t, path, fname, item).error.None?
    ensures var after, place := InsertAt(t, path, fname, item).tree, Names(path) + [fname];
            && Leaf(after, q) == (if q == place then Some(item) else if place <= q then None else Leaf(t, q))
            && (IsDir(after, q) <==> (IsDir(t, q) && !(place <= q)) || q <= Names(path))
    decreases |path|
  {
    var place := Names(path) + [fname];
    if path == [] {
      assert place == [fname];
      if q != [] {
        assert q == [q[0]] + q[1..];
      }
    } else if path[0].RootDir? {
      InsertKeepsTheRest(t, path[1..], fname, item, q);
    } else {
      var name := path[0].name;
      var next := if name in t then t[name].tree else map[];
      assert place == [name] + (Names(path[1..]) + [fname]);
      DirectoryUnder(t, name, InsertAt(next, path[1..], fname, item).tree, q);
      if q != [] {
        Headed(name, Names(path[1..]) + [fname], q);
        Headed(name, Names(path[1..]), q);
        InsertKeepsTheRest(next, path[1..], fname, item, q[1..]);
        assert Leaf(map[], q[1..]) == None;
        assert IsDir(map[], q[1..]) <==> q[1..] == [];
      }
    }
  }
}
