/** Parsing what was emitted gives back the tree, and a file that was inserted is found in it. */
module IndexRoundTrip {
  import opened Wrappers
  import opened IndexTree

  /** An item as it is read back: a local file becomes a remote one, and a directory loses its empty children. */
  function Clean(item: Item): (r: Item)
    ensures r.Dir? <==> item.Dir?
  {
    match item
    case Dir(t) => Dir(map k | k in t && t[k] != Dir(map[]) :: Clean(t[k]))
    case RemoteFile(info) => RemoteFile(info)
    case LocalFile(info) => RemoteFile(info)
    case Link(dest) => Link(dest)
  }

  function Cleaned(t: Tree): Tree { Clean(Dir(t)).tree }

  // ---- Replaying an emitted list ----

  /** What follows does not depend on the current directory. */
  predicate Resets(rest: seq<Entry>) { rest == [] || rest[0].DirEntry? }

  lemma CursorForgotten(root: Tree, a: seq<Name>, b: seq<Name>, rest: seq<Entry>)
    requires Get(root, a).Some? && Get(root, b).Some? && Resets(rest)
    ensures ParseFrom(root, a, rest) == ParseFrom(root, b, rest)
  {
  }

  /** The path of a directory that is not there yet, in one that is. */
  predicate Vacant(root: Tree, path: seq<Name>) {
    if path == [] then root == map[]
    else
      var up := Get(root, path[..|path| - 1]);
      up.Some? && path[|path| - 1] !in up.value
  }

  function Suffix(names: seq<Name>): Path { seq(|names|, i requires 0 <= i < |names| => Normal(names[i])) }

  /** Walking along directories that are there, to one that is or is not. */
  lemma {:induction false} WalkDown(root: Tree, cursor: seq<Name>, names: seq<Name>)
    requires Get(root, cursor).Some?
    requires names != [] ==> Get(root, cursor + names[..|names| - 1]).Some?
    ensures Get(root, cursor + names).Some? ==> Walk(root, cursor, Suffix(names)) == Walked(root, cursor + names)
    ensures names != [] && names[|names| - 1] !in Get(root, cursor + names[..|names| - 1]).value ==>
              Walk(root, cursor, Suffix(names)) == Walked(Set(root, cursor + names, map[]), cursor + names)
    decreases |names|
  {
    if names == [] {
      assert cursor + names == cursor;
    } else {
      assert Suffix(names)[1..] == Suffix(names[1..]);
      assert cursor + names == (cursor + [names[0]]) + names[1..];
      GetSnoc(root, cursor, names[0]);
      if |names| == 1 {
        assert cursor + names == cursor + [names[0]] && cursor + names[..0] == cursor;
        assert Suffix(names[1..]) == [];
        SetSnoc(root, cursor, names[0], map[]);
      } else {
        var up := names[..|names| - 1];
        assert cursor + up == (cursor + [names[0]]) + names[1..][..|names[1..]| - 1];
        GetPrefix(root, cursor + [names[0]], names[1..][..|names[1..]| - 1]);
        WalkDown(root, cursor + [names[0]], names[1..]);
      }
    }
  }

  lemma {:induction false} GetPrefix(root: Tree, a: seq<Name>, b: seq<Name>)
    requires Get(root, a + b).Some?
    ensures Get(root, a).Some?
    decreases |b|
  {
    if b == [] {
      assert a + b == a;
    } else {
      var up := a + b[..|b| - 1];
      assert a + b == up + [b[|b| - 1]];
      GetSnoc(root, up, b[|b| - 1]);
      GetPrefix(root, a, b[..|b| - 1]);
    }
  }

  lemma WalkToVacant(root: Tree, path: seq<Name>)
    requires Vacant(root, path)
    ensures Walk(root, [], Suffix(path)) == Walked(Set(root, path, map[]), path)
  {
    assert [] + path == path;
    if path != [] {
      assert [] + path[..|path| - 1] == path[..|path| - 1];
      assert path == path[..|path| - 1] + [path[|path| - 1]];
      GetSnoc(root, path[..|path| - 1], path[|path| - 1]);
    }
    WalkDown(root, [], path);
  }

  /** Reading the line of a directory that is not there yet makes it, empty. */
  lemma EnterDir(root: Tree, cursor: seq<Name>, path: seq<Name>, rest: seq<Entry>)
    requires Get(root, cursor).Some? && Vacant(root, path)
    ensures Get(Set(root, path, map[]), path) == Some(map[])
    ensures ParseFrom(root, cursor, [DirEntry(Absolute(path))] + rest) == ParseFrom(Set(root, path, map[]), path, rest)
  {
    GetSet(root, path, map[]);
    WalkToVacant(root, path);
    assert Absolute(path)[1..] == Suffix(path);
    assert Walk(root, [], Absolute(path)) == Walk(root, [], Suffix(path));
    assert ([DirEntry(Absolute(path))] + rest)[1..] == rest;
  }

  /** The files and links of a directory, added to what is already read of it. */
  function PutFiles(into: Tree, t: Tree, keys: seq<Name>): Tree
    requires forall k :: k in keys ==> k in t
    decreases |keys|
  {
    if keys == [] then into
    else PutFiles(if t[keys[0]].Dir? then into else into[keys[0] := Clean(t[keys[0]])], t, keys[1..])
  }

  function PutSubdirs(into: Tree, t: Tree, keys: seq<Name>): Tree
    requires forall k :: k in keys ==> k in t
    decreases |keys|
  {
    if keys == [] then into
    else PutSubdirs(if t[keys[0]].Dir? && t[keys[0]] != Dir(map[]) then into[keys[0] := Clean(t[keys[0]])] else into,
                    t, keys[1..])
  }

  lemma {:induction false} ReplayFiles(root: Tree, path: seq<Name>, t: Tree, keys: seq<Name>, rest: seq<Entry>)
    requires forall k :: k in keys ==> k in t
    requires Get(root, path).Some?
    ensures Get(Set(root, path, PutFiles(Get(root, path).value, t, keys)), path).Some?
    ensures ParseFrom(root, path, EmitFiles(path, t, keys) + rest)
            == ParseFrom(Set(root, path, PutFiles(Get(root, path).value, t, keys)), path, rest)
    decreases |keys|
  {
    var into := Get(root, path).value;
    GetSet(root, path, PutFiles(into, t, keys));
    if keys == [] {
      SetGet(root, path);
      assert EmitFiles(path, t, keys) + rest == rest;
    } else {
      var k, later := keys[0], EmitFiles(path, t, keys[1..]) + rest;
      var all := EmitFiles(path, t, keys) + rest;
      if t[k].Dir? {
        assert all == later;
        ReplayFiles(root, path, t, keys[1..], rest);
      } else {
        assert all[1..] == later;
        var item := Clean(t[k]);
        assert FileName(Absolute(path + [k])) == Some(k);
        var next := PutAt(root, path, k, item);
        assert ParseFrom(root, path, all) == ParseFrom(next, path, later);
        GetSet(root, path, into[k := item]);
        ReplayFiles(next, path, t, keys[1..], rest);
        SetSet(root, path, into[k := item], PutFiles(into[k := item], t, keys[1..]));
      }
    }
  }

  lemma EmissionResets(path: seq<Name>, dir: Item)
    requires dir.Dir?
    ensures Resets(EmitDir(path, dir))
  {
  }

  lemma {:induction false} SubdirsReset(path: seq<Name>, dir: Item, keys: seq<Name>, rest: seq<Entry>)
    requires dir.Dir? && (forall k :: k in keys ==> k in dir.tree) && Resets(rest)
    ensures Resets(EmitSubdirs(path, dir, keys) + rest)
    decreases |keys|
  {
    if keys == [] {
      assert EmitSubdirs(path, dir, keys) + rest == rest;
    } else {
      SubdirsReset(path, dir, keys[1..], rest);
      if dir.tree[keys[0]].Dir? && dir.tree[keys[0]].tree != map[] {
        EmissionResets(path + [keys[0]], dir.tree[keys[0]]);
      } else {
        assert EmitSubdirs(path, dir, keys) + rest == EmitSubdirs(path, dir, keys[1..]) + rest;
      }
    }
  }

  predicate Distinct(keys: seq<Name>) { forall i, j :: 0 <= i < j < |keys| ==> keys[i] != keys[j] }

  /** One subdirectory read into the directory at `path`, which stays the one to read into. */
  lemma ReplaySubdir(root: Tree, path: seq<Name>, k: Name, sub: Item, later: seq<Entry>)
    requires sub.Dir? && sub.tree != map[] && Resets(later)
    requires Get(root, path).Some? && k !in Get(root, path).value
    ensures Get(Set(root, path, Get(root, path).value[k := Clean(sub)]), path)
            == Some(Get(root, path).value[k := Clean(sub)])
    ensures ParseFrom(root, path, EmitDir(path + [k], sub) + later)
            == ParseFrom(Set(root, path, Get(root, path).value[k := Clean(sub)]), path, later)
    decreases sub, 2, 0
  {
    assert (path + [k])[..|path|] == path;
    ReplayDir(root, path, path + [k], sub, later);
    SetSnoc(root, path, k, Cleaned(sub.tree));
    GetSet(root, path, Get(root, path).value[k := Clean(sub)]);
    CursorForgotten(Set(root, path + [k], Cleaned(sub.tree)), path + [k], path, later);
  }

  /** The tree once the subdirectories under `keys` have been read into the directory at `path`. */
  function WithSubdirs(root: Tree, path: seq<Name>, t: Tree, keys: seq<Name>): Tree
    requires (forall k :: k in keys ==> k in t) && Get(root, path).Some?
  {
    Set(root, path, PutSubdirs(Get(root, path).value, t, keys))
  }

  lemma NextSubdir(root: Tree, path: seq<Name>, t: Tree, keys: seq<Name>)
    requires (forall k :: k in keys ==> k in t) && Get(root, path).Some? && keys != []
    requires t[keys[0]].Dir? && t[keys[0]] != Dir(map[])
    ensures var next := Set(root, path, Get(root, path).value[keys[0] := Clean(t[keys[0]])]);
            && Get(next, path).Some?
            && WithSubdirs(root, path, t, keys) == WithSubdirs(next, path, t, keys[1..])
  {
    var more := Get(root, path).value[keys[0] := Clean(t[keys[0]])];
    GetSet(root, path, more);
    SetSet(root, path, more, PutSubdirs(more, t, keys[1..]));
  }

  lemma NextEmitted(path: seq<Name>, dir: Item, keys: seq<Name>, rest: seq<Entry>)
    requires dir.Dir? && (forall k :: k in keys ==> k in dir.tree) && keys != []
    ensures EmitSubdirs(path, dir, keys) + rest
            == (if dir.tree[keys[0]].Dir? && dir.tree[keys[0]] != Dir(map[])
                then EmitDir(path + [keys[0]], dir.tree[keys[0]]) else [])
               + (EmitSubdirs(path, dir, keys[1..]) + rest)
  {
    var first := if dir.tree[keys[0]].Dir? then EmitDir(path + [keys[0]], dir.tree[keys[0]]) else [];
    Reassociated(first, EmitSubdirs(path, dir, keys[1..]), rest);
  }

  lemma Reassociated<T>(a: seq<T>, b: seq<T>, c: seq<T>)
    ensures a + b + c == a + (b + c)
  {
  }

  /** What replaying the subdirectories under `keys` comes to. */
  predicate Replayed(root: Tree, path: seq<Name>, dir: Item, keys: seq<Name>, rest: seq<Entry>)
    requires dir.Dir? && (forall k :: k in keys ==> k in dir.tree) && Get(root, path).Some?
  {
    var after := WithSubdirs(root, path, dir.tree, keys);
    && Get(after, path).Some?
    && ParseFrom(root, path, EmitSubdirs(path, dir, keys) + rest) == ParseFrom(after, path, rest)
  }

  lemma NothingToReplay(root: Tree, path: seq<Name>, dir: Item, rest: seq<Entry>)
    requires dir.Dir? && Get(root, path).Some?
    ensures Replayed(root, path, dir, [], rest)
  {
    SetGet(root, path);
    assert EmitSubdirs(path, dir, []) + rest == rest;
  }

  lemma ReplayedSkip(root: Tree, path: seq<Name>, dir: Item, keys: seq<Name>, rest: seq<Entry>)
    requires dir.Dir? && (forall k :: k in keys ==> k in dir.tree) && Get(root, path).Some? && keys != []
    requires !dir.tree[keys[0]].Dir? || dir.tree[keys[0]] == Dir(map[])
    requires Replayed(root, path, dir, keys[1..], rest)
    ensures Replayed(root, path, dir, keys, rest)
  {
    NextEmitted(path, dir, keys, rest);
    var later := EmitSubdirs(path, dir, keys[1..]) + rest;
    assert [] + later == later;
  }

  lemma ReplayedStep(root: Tree, path: seq<Name>, dir: Item, keys: seq<Name>, rest: seq<Entry>, next: Tree)
    requires dir.Dir? && (forall k :: k in keys ==> k in dir.tree) && Get(root, path).Some? && keys != []
    requires dir.tree[keys[0]].Dir? && dir.tree[keys[0]] != Dir(map[])
    requires next == Set(root, path, Get(root, path).value[keys[0] := Clean(dir.tree[keys[0]])])
    requires Get(next, path).Some? && Replayed(next, path, dir, keys[1..], rest)
    requires ParseFrom(root, path, EmitDir(path + [keys[0]], dir.tree[keys[0]]) + (EmitSubdirs(path, dir, keys[1..]) + rest))
             == ParseFrom(next, path, EmitSubdirs(path, dir, keys[1..]) + rest)
    ensures Replayed(root, path, dir, keys, rest)
  {
    NextEmitted(path, dir, keys, rest);
    NextSubdir(root, path, dir.tree, keys);
  }

  lemma {:induction false} ReplaySubdirs(root: Tree, path: seq<Name>, dir: Item, keys: seq<Name>, rest: seq<Entry>)
    requires dir.Dir? && (forall k :: k in keys ==> k in dir.tree) && Distinct(keys) && Resets(rest)
    requires Get(root, path).Some?
    requires forall k :: k in keys && dir.tree[k].Dir? ==> k !in Get(root, path).value
    ensures Replayed(root, path, dir, keys, rest)
    decreases dir, 0, |keys|
  {
    if keys == [] {
      NothingToReplay(root, path, dir, rest);
    } else {
      var k := keys[0];
      if dir.tree[k].Dir? && dir.tree[k] != Dir(map[]) {
        SubdirsReset(path, dir, keys[1..], rest);
        ReplaySubdir(root, path, k, dir.tree[k], EmitSubdirs(path, dir, keys[1..]) + rest);
        var next := Set(root, path, Get(root, path).value[k := Clean(dir.tree[k])]);
        ReplaySubdirs(next, path, dir, keys[1..], rest);
        ReplayedStep(root, path, dir, keys, rest, next);
      } else {
        ReplaySubdirs(root, path, dir, keys[1..], rest);
        ReplayedSkip(root, path, dir, keys, rest);
      }
    }
  }

  lemma {:induction false} FilesPut(into: Tree, t: Tree, keys: seq<Name>, k: Name)
    requires (forall x :: x in keys ==> x in t) && Distinct(keys)
    ensures k in PutFiles(into, t, keys) <==> k in into || (k in keys && !t[k].Dir?)
    ensures k in PutFiles(into, t, keys) ==>
              PutFiles(into, t, keys)[k] == if k in keys && !t[k].Dir? then Clean(t[k]) else into[k]
    decreases |keys|
  {
    if keys != [] {
      FilesPut(if t[keys[0]].Dir? then into else into[keys[0] := Clean(t[keys[0]])], t, keys[1..], k);
      assert keys == [keys[0]] + keys[1..];
    }
  }

  lemma {:induction false} SubdirsPut(into: Tree, t: Tree, keys: seq<Name>, k: Name)
    requires (forall x :: x in keys ==> x in t) && Distinct(keys)
    ensures k in PutSubdirs(into, t, keys) <==> k in into || (k in keys && t[k].Dir? && t[k] != Dir(map[]))
    ensures k in PutSubdirs(into, t, keys) ==>
              PutSubdirs(into, t, keys)[k]
              == if k in keys && t[k].Dir? && t[k] != Dir(map[]) then Clean(t[k]) else into[k]
    decreases |keys|
  {
    if keys != [] {
      var first := t[keys[0]];
      SubdirsPut(if first.Dir? && first != Dir(map[]) then into[keys[0] := Clean(first)] else into, t, keys[1..], k);
      assert keys == [keys[0]] + keys[1..];
    }
  }

  /** The files first and the subdirectories afterwards make up the directory. */
  lemma PutTogether(t: Tree, keys: seq<Name>)
    requires (forall k :: k in keys <==> k in t) && Distinct(keys)
    ensures PutSubdirs(PutFiles(map[], t, keys), t, keys) == Cleaned(t)
  {
    var files := PutFiles(map[], t, keys);
    var all := PutSubdirs(files, t, keys);
    forall k ensures (k in all <==> k in Cleaned(t)) && (k in all ==> all[k] == Cleaned(t)[k]) {
      FilesPut(map[], t, keys, k);
      SubdirsPut(files, t, keys, k);
    }
  }

  /** What is read of a directory's files does not stand in the way of its subdirectories. */
  lemma FilesAreNotSubdirs(t: Tree, keys: seq<Name>)
    requires (forall k :: k in keys ==> k in t) && Distinct(keys)
    ensures forall k :: k in keys && t[k].Dir? ==> k !in PutFiles(map[], t, keys)
  {
    forall k | k in keys && t[k].Dir? ensures k !in PutFiles(map[], t, keys) {
      FilesPut(map[], t, keys, k);
    }
  }

  /** The directory's line and its files. */
  lemma ReplayTop(root: Tree, cursor: seq<Name>, path: seq<Name>, t: Tree, keys: seq<Name>, later: seq<Entry>)
    requires forall k :: k in keys ==> k in t
    requires Get(root, cursor).Some? && Vacant(root, path)
    ensures var put := PutFiles(map[], t, keys);
            && Get(Set(root, path, put), path) == Some(put)
            && ParseFrom(root, cursor, [DirEntry(Absolute(path))] + (EmitFiles(path, t, keys) + later))
               == ParseFrom(Set(root, path, put), path, later)
  {
    var put := PutFiles(map[], t, keys);
    EnterDir(root, cursor, path, EmitFiles(path, t, keys) + later);
    ReplayFiles(Set(root, path, map[]), path, t, keys, later);
    SetSet(root, path, map[], put);
    GetSet(root, path, put);
  }

  lemma SubdirsComplete(root: Tree, path: seq<Name>, dir: Item, keys: seq<Name>, rest: seq<Entry>)
    requires dir.Dir? && (forall k :: k in keys <==> k in dir.tree) && Distinct(keys)
    requires Get(Set(root, path, PutFiles(map[], dir.tree, keys)), path) == Some(PutFiles(map[], dir.tree, keys))
    requires Replayed(Set(root, path, PutFiles(map[], dir.tree, keys)), path, dir, keys, rest)
    ensures Get(Set(root, path, Cleaned(dir.tree)), path).Some?
    ensures ParseFrom(Set(root, path, PutFiles(map[], dir.tree, keys)), path, EmitSubdirs(path, dir, keys) + rest)
            == ParseFrom(Set(root, path, Cleaned(dir.tree)), path, rest)
  {
    var put := PutFiles(map[], dir.tree, keys);
    SetSet(root, path, put, PutSubdirs(put, dir.tree, keys));
    PutTogether(dir.tree, keys);
    assert WithSubdirs(Set(root, path, put), path, dir.tree, keys) == Set(root, path, Cleaned(dir.tree));
  }

  lemma Regrouped<T>(a: seq<T>, b: seq<T>, c: seq<T>, d: seq<T>)
    ensures a + b + c + d == a + (b + (c + d))
  {
  }

  lemma DirEmitted(path: seq<Name>, dir: Item, keys: seq<Name>, rest: seq<Entry>)
    requires dir.Dir? && dir.tree != map[] && keys == InOrder(dir.tree.Keys)
    ensures EmitDir(path, dir) + rest
            == [DirEntry(Absolute(path))] + (EmitFiles(path, dir.tree, keys) + (EmitSubdirs(path, dir, keys) + rest))
  {
    Regrouped([DirEntry(Absolute(path))], EmitFiles(path, dir.tree, keys), EmitSubdirs(path, dir, keys), rest);
  }

  /** The entries of a directory, read where it is not there yet, put it there. */
  lemma {:induction false} ReplayDir(root: Tree, cursor: seq<Name>, path: seq<Name>, dir: Item, rest: seq<Entry>)
    requires dir.Dir? && dir.tree != map[] && Resets(rest)
    requires Get(root, cursor).Some? && Vacant(root, path)
    ensures Get(Set(root, path, Cleaned(dir.tree)), path).Some?
    ensures ParseFrom(root, cursor, EmitDir(path, dir) + rest)
            == ParseFrom(Set(root, path, Cleaned(dir.tree)), path, rest)
    decreases dir, 1, 0
  {
    var t, keys := dir.tree, InOrder(dir.tree.Keys);
    DirEmitted(path, dir, keys, rest);
    ReplayTop(root, cursor, path, t, keys, EmitSubdirs(path, dir, keys) + rest);
    FilesAreNotSubdirs(t, keys);
    ReplaySubdirs(Set(root, path, PutFiles(map[], t, keys)), path, dir, keys, rest);
    SubdirsComplete(root, path, dir, keys, rest);
  }

  /** Parsing the emitted list of any tree gives the tree as it is read back. */
  lemma EmitThenParse(t: Tree)
    ensures Parse(Emit(t)) == Parsed(Cleaned(t))
  {
    if t == map[] {
      assert Emit(t) == [];
    } else {
      assert Emit(t) + [] == Emit(t);
      ReplayDir(map[], [], [], Dir(t), []);
    }
  }

  // ---- Trees without empty directories ----

  predicate NoEmptyDirs(item: Item) {
    item.Dir? ==> forall k :: k in item.tree ==> item.tree[k] != Dir(map[]) && NoEmptyDirs(item.tree[k])
  }

  /** The same tree with every local file made a remote one. */
  function Remote(item: Item): (r: Item)
    ensures r.Dir? <==> item.Dir?
    ensures item.Dir? ==> r.tree.Keys == item.tree.Keys
  {
    match item
    case Dir(t) => Dir(map k | k in t :: Remote(t[k]))
    case RemoteFile(info) => RemoteFile(info)
    case LocalFile(info) => RemoteFile(info)
    case Link(dest) => Link(dest)
  }

  lemma {:induction false} NothingToClean(item: Item)
    requires NoEmptyDirs(item)
    ensures Clean(item) == Remote(item)
  {
    if item.Dir? {
      forall k | k in item.tree ensures Clean(item.tree[k]) == Remote(item.tree[k]) {
        NothingToClean(item.tree[k]);
      }
      assert Clean(item).tree == Remote(item).tree;
    }
  }

  lemma {:induction false} FilesEmittedAlike(path: seq<Name>, dir: Item, keys: seq<Name>)
    requires dir.Dir? && forall k :: k in keys ==> k in dir.tree
    ensures EmitFiles(path, Remote(dir).tree, keys) == EmitFiles(path, dir.tree, keys)
    decreases |keys|
  {
    if keys != [] {
      FilesEmittedAlike(path, dir, keys[1..]);
    }
  }

  lemma {:induction false} SubdirsEmittedAlike(path: seq<Name>, dir: Item, keys: seq<Name>)
    requires dir.Dir? && forall k :: k in keys ==> k in dir.tree
    ensures EmitSubdirs(path, Remote(dir), keys) == EmitSubdirs(path, dir, keys)
    decreases dir, 0, |keys|
  {
    if keys != [] {
      SubdirsEmittedAlike(path, dir, keys[1..]);
      if dir.tree[keys[0]].Dir? {
        EmittedAlike(path + [keys[0]], dir.tree[keys[0]]);
      }
    }
  }

  /** Whether a file is local does not show in the emitted list. */
  lemma {:induction false} EmittedAlike(path: seq<Name>, dir: Item)
    requires dir.Dir?
    ensures EmitDir(path, Remote(dir)) == EmitDir(path, dir)
    decreases dir, 1, 0
  {
    FilesEmittedAlike(path, dir, InOrder(dir.tree.Keys));
    SubdirsEmittedAlike(path, dir, InOrder(dir.tree.Keys));
  }

  /** Emit, parse, emit: the tree comes back with its files remote, and the second list is the first. */
  lemma RoundTrip(t: Tree)
    requires NoEmptyDirs(Dir(t))
    ensures Parse(Emit(t)) == Parsed(Remote(Dir(t)).tree)
    ensures Emit(Parse(Emit(t)).root) == Emit(t)
  {
    EmitThenParse(t);
    NothingToClean(Dir(t));
    EmittedAlike([], Dir(t));
  }
}
