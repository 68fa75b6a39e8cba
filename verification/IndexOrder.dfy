/** The order in which an index is written, on which the hash that names the image depends. */
module IndexOrder {
  import opened IndexTree

  /** Where the two names first differ, one ends or has the smaller character. */
  predicate Before(a: Name, b: Name) {
    exists k :: 0 <= k <= |a| && k < |b| && a[..k] == b[..k] && (k == |a| || a[k] < b[k])
  }

  lemma {:induction false} LessIsBefore(a: Name, b: Name)
    requires Less(a, b)
    ensures Before(a, b)
  {
    if a == [] || a[0] < b[0] {
      assert a[..0] == b[..0];
    } else {
      LessIsBefore(a[1..], b[1..]);
      var x, y := a[1..], b[1..];
      var k :| 0 <= k <= |x| && k < |y| && x[..k] == y[..k] && (k == |x| || x[k] < y[k]);
      assert a[..k + 1] == [a[0]] + x[..k] && b[..k + 1] == [b[0]] + y[..k];
    }
  }

  /** The keys come out in ascending order. */
  lemma {:induction false} InOrderAscends(keys: set<Name>)
    ensures forall i, j :: 0 <= i < j < |InOrder(keys)| ==> Before(InOrder(keys)[i], InOrder(keys)[j])
    decreases |keys|
  {
    if keys != {} {
      var k := Least(keys);
      InOrderAscends(keys - {k});
      var rest := InOrder(keys - {k});
      forall j | 0 <= j < |rest| ensures Before(k, rest[j]) {
        assert rest[j] in rest;
        LessIsBefore(k, rest[j]);
      }
    }
  }

  // ---- The entries of one directory ----

  /** Both are files or links, or both directories, of one and the same directory. */
  predicate Siblings(a: Entry, b: Entry) {
    && (a.DirEntry? <==> b.DirEntry?)
    && a.path != [] && b.path != [] && a.path[..|a.path| - 1] == b.path[..|b.path| - 1]
  }

  lemma SiblingsAgree(a: Entry, b: Entry)
    ensures Siblings(a, b) ==> |a.path| == |b.path| && forall n :: 0 <= n < |a.path| - 1 ==> a.path[n] == b.path[n]
  {
    if Siblings(a, b) {
      var up := a.path[..|a.path| - 1];
      assert |up| == |b.path[..|b.path| - 1]|;
      forall n | 0 <= n < |a.path| - 1 ensures a.path[n] == b.path[n] {
        assert a.path[n] == up[n];
      }
    }
  }

  /** The last components are names, the first of them before the second. */
  predicate NamedBefore(a: Entry, b: Entry)
    requires a.path != [] && b.path != []
  {
    var x, y := a.path[|a.path| - 1], b.path[|b.path| - 1];
    x.Normal? && y.Normal? && Before(x.name, y.name)
  }

  /** Siblings come in ascending order of their names. */
  predicate Ascending(entries: seq<Entry>) {
    forall i, j :: 0 <= i < j < |entries| && Siblings(entries[i], entries[j]) ==> NamedBefore(entries[i], entries[j])
  }

  /** Every entry is at or below a directory, and only a directory at it. */
  predicate Within(entries: seq<Entry>, at: Path) {
    forall e :: e in entries ==> at <= e.path && (at == e.path ==> e.DirEntry?)
  }

  /** Every entry is within a subdirectory under one of the keys. */
  predicate WithinSome(entries: seq<Entry>, path: seq<Name>, keys: seq<Name>) {
    forall e :: e in entries ==> exists k :: k in keys && Within([e], Absolute(path + [k]))
  }

  lemma WithinEach(entries: seq<Entry>, at: Path, e: Entry)
    requires Within(entries, at) && e in entries
    ensures Within([e], at)
  {
  }

  lemma Lengthened(path: seq<Name>, k: Name)
    ensures Absolute(path + [k]) == Absolute(path) + [Normal(k)]
  {
  }

  lemma {:induction false} FilesWithin(path: seq<Name>, t: Tree, keys: seq<Name>)
    requires forall k :: k in keys ==> k in t
    ensures forall e :: e in EmitFiles(path, t, keys) ==>
                          !e.DirEntry? && exists k :: k in keys && e.path == Absolute(path + [k])
    decreases |keys|
  {
    if keys != [] {
      FilesWithin(path, t, keys[1..]);
      assert keys[0] in keys;
    }
  }

  lemma {:induction false} DirWithin(path: seq<Name>, dir: Item)
    requires dir.Dir?
    ensures Within(EmitDir(path, dir), Absolute(path))
    decreases dir, 1, 0
  {
    if dir.tree != map[] {
      var keys := InOrder(dir.tree.Keys);
      FilesWithin(path, dir.tree, keys);
      SubdirsWithin(path, dir, keys);
      forall e | e in EmitDir(path, dir)
        ensures Absolute(path) <= e.path && (Absolute(path) == e.path ==> e.DirEntry?)
      {
        if e in EmitFiles(path, dir.tree, keys) {
          var k :| k in keys && e.path == Absolute(path + [k]);
          Lengthened(path, k);
        } else if e in EmitSubdirs(path, dir, keys) {
          var k :| k in keys && Within([e], Absolute(path + [k]));
          assert e in [e];
          Lengthened(path, k);
        }
      }
    }
  }

  lemma {:induction false} SubdirsWithin(path: seq<Name>, dir: Item, keys: seq<Name>)
    requires dir.Dir? && forall k :: k in keys ==> k in dir.tree
    ensures WithinSome(EmitSubdirs(path, dir, keys), path, keys)
    decreases dir, 0, |keys|
  {
    if keys != [] {
      SubdirsWithin(path, dir, keys[1..]);
      if dir.tree[keys[0]].Dir? {
        DirWithin(path + [keys[0]], dir.tree[keys[0]]);
      }
      forall e | e in EmitSubdirs(path, dir, keys) ensures exists k :: k in keys && Within([e], Absolute(path + [k])) {
        if e in EmitSubdirs(path, dir, keys[1..]) {
          var k :| k in keys[1..] && Within([e], Absolute(path + [k]));
          assert k in keys;
        } else {
          WithinEach(EmitDir(path + [keys[0]], dir.tree[keys[0]]), Absolute(path + [keys[0]]), e);
        }
      }
    }
  }

  // ---- Putting the parts together ----

  predicate InTurn(a: Entry, b: Entry) { Siblings(a, b) ==> NamedBefore(a, b) }

  lemma AscendingTogether(a: seq<Entry>, b: seq<Entry>)
    requires Ascending(a) && Ascending(b) && forall x, y :: x in a && y in b ==> InTurn(x, y)
    ensures Ascending(a + b)
  {
    var all := a + b;
    forall i, j | 0 <= i < j < |all| && Siblings(all[i], all[j]) ensures NamedBefore(all[i], all[j]) {
      if j < |a| {
        assert all[i] == a[i] && all[j] == a[j];
      } else if i >= |a| {
        assert all[i] == b[i - |a|] && all[j] == b[j - |a|];
      } else {
        assert all[i] in a && all[j] in b;
        assert InTurn(all[i], all[j]);
      }
    }
  }

  /** Two entries under different names of one directory. */
  lemma NamesInTurn(path: seq<Name>, k: Name, l: Name, x: Entry, y: Entry)
    requires Before(k, l) && k != l
    requires Absolute(path + [k]) <= x.path && Absolute(path + [l]) <= y.path
    ensures InTurn(x, y)
  {
    Lengthened(path, k);
    Lengthened(path, l);
    var n := |Absolute(path)|;
    assert x.path[n] == Normal(k) && y.path[n] == Normal(l);
    SiblingsAgree(x, y);
  }

  predicate KeysAscend(keys: seq<Name>) {
    forall i, j :: 0 <= i < j < |keys| ==> keys[i] != keys[j] && Before(keys[i], keys[j])
  }

  lemma LaterKeys(keys: seq<Name>, k: Name)
    requires KeysAscend(keys) && keys != [] && k in keys[1..]
    ensures keys[0] != k && Before(keys[0], k)
  {
  }

  lemma {:induction false} FilesAscend(path: seq<Name>, t: Tree, keys: seq<Name>)
    requires (forall k :: k in keys ==> k in t) && KeysAscend(keys)
    ensures Ascending(EmitFiles(path, t, keys))
    decreases |keys|
  {
    if keys != [] {
      var k, rest := keys[0], EmitFiles(path, t, keys[1..]);
      FilesAscend(path, t, keys[1..]);
      FilesWithin(path, t, keys[1..]);
      FilesWithin(path, t, [k]);
      var first := EmitFiles(path, t, [k]);
      assert [k][1..] == [] && first + EmitFiles(path, t, []) == first;
      forall x, y | x in first && y in rest ensures InTurn(x, y) {
        var l :| l in keys[1..] && y.path == Absolute(path + [l]);
        LaterKeys(keys, l);
        NamesInTurn(path, k, l, x, y);
      }
      assert |first| <= 1;
      AscendingTogether(first, rest);
    }
  }

  lemma {:induction false} SubdirsAscend(path: seq<Name>, dir: Item, keys: seq<Name>)
    requires dir.Dir? && (forall k :: k in keys ==> k in dir.tree) && KeysAscend(keys)
    ensures Ascending(EmitSubdirs(path, dir, keys))
    decreases dir, 0, |keys|
  {
    if keys != [] {
      var k, rest := keys[0], EmitSubdirs(path, dir, keys[1..]);
      SubdirsAscend(path, dir, keys[1..]);
      SubdirsWithin(path, dir, keys[1..]);
      if dir.tree[k].Dir? {
        var first := EmitDir(path + [k], dir.tree[k]);
        DirAscends(path + [k], dir.tree[k]);
        DirWithin(path + [k], dir.tree[k]);
        forall x, y | x in first && y in rest ensures InTurn(x, y) {
          var l :| l in keys[1..] && Within([y], Absolute(path + [l]));
          assert y in [y];
          LaterKeys(keys, l);
          NamesInTurn(path, k, l, x, y);
        }
        AscendingTogether(first, rest);
      } else {
        assert EmitSubdirs(path, dir, keys) == rest;
      }
    }
  }

  /** The line of a directory, its files, and its subdirectories are of different levels or kinds. */
  lemma PartsInTurn(path: seq<Name>, dir: Item, keys: seq<Name>)
    requires dir.Dir? && forall k :: k in keys ==> k in dir.tree
    ensures forall y :: y in EmitFiles(path, dir.tree, keys) ==> InTurn(DirEntry(Absolute(path)), y)
    ensures forall y :: y in EmitSubdirs(path, dir, keys) ==> InTurn(DirEntry(Absolute(path)), y)
    ensures forall x, y :: x in EmitFiles(path, dir.tree, keys) && y in EmitSubdirs(path, dir, keys) ==> InTurn(x, y)
  {
    FilesWithin(path, dir.tree, keys);
    SubdirsWithin(path, dir, keys);
    forall y | y in EmitSubdirs(path, dir, keys)
      ensures |y.path| > |Absolute(path)| && (|y.path| == |Absolute(path)| + 1 ==> y.DirEntry?)
    {
      var k :| k in keys && Within([y], Absolute(path + [k]));
      assert y in [y];
      Lengthened(path, k);
    }
    forall x | x in EmitFiles(path, dir.tree, keys) ensures |x.path| == |Absolute(path)| + 1 {
      var k :| k in keys && x.path == Absolute(path + [k]);
    }
    forall x, y | x in EmitFiles(path, dir.tree, keys) && y in EmitSubdirs(path, dir, keys) ensures InTurn(x, y) {
      SiblingsAgree(x, y);
    }
    forall y | y in EmitSubdirs(path, dir, keys) ensures InTurn(DirEntry(Absolute(path)), y) {
      SiblingsAgree(DirEntry(Absolute(path)), y);
    }
  }

  lemma {:induction false} DirAscends(path: seq<Name>, dir: Item)
    requires dir.Dir?
    ensures Ascending(EmitDir(path, dir))
    decreases dir, 1, 0
  {
    if dir.tree != map[] {
      var keys := InOrder(dir.tree.Keys);
      var line, files := [DirEntry(Absolute(path))], EmitFiles(path, dir.tree, keys);
      var subdirs := EmitSubdirs(path, dir, keys);
      InOrderAscends(dir.tree.Keys);
      FilesAscend(path, dir.tree, keys);
      SubdirsAscend(path, dir, keys);
      PartsInTurn(path, dir, keys);
      AscendingTogether(line, files);
      AscendingTogether(line + files, subdirs);
    }
  }

  /**
   However the tree came about, the entries of each directory, and its subdirectories, are written in ascending
   order of their names, so the same tree is always written in the same way.
   */
  lemma EmissionAscends(t: Tree)
    ensures Ascending(Emit(t))
  {
    DirAscends([], Dir(t));
  }
}
