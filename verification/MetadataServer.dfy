/**
 The metadata subsystem as an object (src/daemon/metadata/mod.rs, upload.rs, index_gc.rs, scan.rs):
 a table and a set of record files that the methods update in place. Each method is proved to make
 exactly the state change that `Metadata` gives for it.

 `fresher` stands for the comparison of modification times, `trusted` for the signatures that verify
 under the upload keys, and an arbitrary choice of the next name for the order of a directory listing.
 */
module MetadataServer {
  import opened Wrappers
  import opened Signatures
  import opened Names
  import opened Metadata
  import Collector
  import Scanning

  class Server {
    const config: Config
    var writing: map<VPath, Writing>
    var files: map<RecordFile, State>
    var indexes: set<ImageId>
    var collecting: Option<set<ImageId>>
    var phase: Phase

    function View(): Meta
      reads this
    {
      Meta(writing, files, indexes, collecting, phase)
    }

    constructor (config: Config)
      ensures View() == EMPTY && this.config == config
    {
      this.config := config;
      writing, files, indexes, collecting, phase := map[], map[], {}, None, Idle;
    }

    method MarkUsed(image: ImageId)
      modifies this`collecting
      ensures View() == Metadata.MarkUsed(old(View()), image)
    {
      match collecting
      case Some(marks) => collecting := Some(marks + {image});
      case None =>
    }

    /** `replace_file`: write a temporary, over whatever has that name, and rename it to the record. */
    method RewriteFile(file: RecordFile, state: State)
      modifies this`files
      ensures View() == Rewrite(old(View()), file, state)
    {
      files := files[Temporary(file) := state];
      files := (files - {Temporary(file)})[file := state];
    }

    /** A request for the committed image: its signatures are merged into the `.state` record. */
    method Resign(path: VPath, signatures: seq<Entry>)
      requires path.suffix != [] && StateFile(path) in files
      modifies this`files
      ensures View() == Metadata.Resign(old(View()), path, signatures)
    {
      var state := files[StateFile(path)];
      var merged := AppendSignatures(state.signatures, signatures);
      RewriteFile(StateFile(path), State(state.image, merged));
    }

    /** A request for the image in flight: a list equal to the stored one is not merged again. */
    method JoinUpload(path: VPath, signatures: seq<Entry>)
      requires path.suffix != [] && path in writing
      modifies this`files, this`writing
      ensures View() == Join(old(View()), path, signatures)
    {
      var w := writing[path];
      if signatures != w.signatures {
        var merged := AppendSignatures(w.signatures, signatures);
        w := w.(signatures := merged);
      }
      writing := writing[path := w];
      RewriteFile(NewStateFile(path), State(w.image, w.signatures));
    }

    /** A new upload: the table entry first, then its `.new.state` record. */
    method BeginUpload(path: VPath, image: ImageId, signatures: seq<Entry>, replacing: bool)
      requires path.suffix != []
      modifies this`files, this`writing
      ensures View() == Begin(old(View()), path, State(image, signatures), replacing)
    {
      writing := writing[path := Writing(image, signatures, replacing)];
      RewriteFile(NewStateFile(path), State(image, signatures));
    }

    method StartAppend(r: AppendDir, trusted: set<nat>) returns (answer: Upload)
      modifies this
      ensures (View(), answer) == Metadata.StartAppend(config, old(View()), r, trusted)
    {
      MarkUsed(r.image);
      if r.path.key !in config {
        return Failed(PathNotFound);
      }
      if r.path.Level() != config[r.path.key].numLevels || r.path.Level() == 0 {
        return Rejected(ConfigLevelMismatch, None);
      }
      if !CheckKeys(r.signatures, trusted) {
        return Rejected(SignatureMismatch, None);
      }
      var signatures := Sort(Entries(r.timestamp, r.signatures));
      if r.path !in writing {
        if StateFile(r.path) !in files {
          BeginUpload(r.path, r.image, signatures, false);
          return Accepted(New);
        }
        var image := files[StateFile(r.path)].image;
        if image != r.image {
          return Rejected(AlreadyExists, Some(image));
        }
        Resign(r.path, signatures);
        return Accepted(AlreadyDone);
      }
      var image := writing[r.path].image;
      if image != r.image {
        return Rejected(AlreadyUploadingDifferentVersion, Some(image));
      }
      JoinUpload(r.path, signatures);
      return Accepted(InProgress);
    }

    method StartReplace(r: ReplaceDir, trusted: set<nat>) returns (answer: Upload)
      modifies this
      ensures (View(), answer) == Metadata.StartReplace(config, old(View()), r, trusted)
    {
      MarkUsed(r.image);
      if r.path.key !in config {
        return Failed(PathNotFound);
      }
      if r.path.Level() != config[r.path.key].numLevels || r.path.Level() == 0 {
        return Rejected(ConfigLevelMismatch, None);
      }
      if config[r.path.key].appendOnly {
        return Rejected(DirIsAppendOnly, None);
      }
      if !CheckKeys(r.signatures, trusted) {
        return Rejected(SignatureMismatch, None);
      }
      var signatures := Sort(Entries(r.timestamp, r.signatures));
      if r.path !in writing {
        if StateFile(r.path) !in files {
          BeginUpload(r.path, r.image, signatures, false);
          return Accepted(New);
        }
        var image := files[StateFile(r.path)].image;
        if image == r.image {
          Resign(r.path, signatures);
          return Accepted(AlreadyDone);
        }
        if r.oldImage.Some? && r.oldImage.value != image {
          return Rejected(ReplaceDoesntMatchIndex, Some(image));
        }
        BeginUpload(r.path, r.image, signatures, true);
        return Accepted(New);
      }
      var image := writing[r.path].image;
      if image == r.image {
        JoinUpload(r.path, signatures);
        return Accepted(InProgress);
      }
      if r.oldImage.Some? && r.oldImage.value != image {
        return Rejected(ReplaceDoesntMatchIndex, Some(image));
      }
      return Rejected(AlreadyUploadingDifferentVersion, Some(image));
    }

    method ResumeUpload(path: VPath) returns (answer: Resumed)
      modifies this
      ensures (View(), answer) == Metadata.Resume(config, old(View()), path)
    {
      if path.key !in config {
        return NotResumed(PathNotFound);
      }
      if path.Level() != config[path.key].numLevels || path.Level() == 0 {
        return NotResumed(LevelMismatch);
      }
      if path in writing {
        return NotResumed(ResumeConflict);
      }
      var state;
      if StateFile(path) in files {
        state := files[StateFile(path)];
        files := (files - {StateFile(path)})[NewStateFile(path) := state];
      } else if NewStateFile(path) in files {
        state := files[NewStateFile(path)];
      } else {
        return NotResumed(ResumeNoFile);
      }
      writing := writing[path := Writing(state.image, state.signatures, false)];
      return Resuming(state.image);
    }

    /** `spurious` is the "Spurious abort" report. */
    method DirAborted(path: VPath) returns (spurious: bool)
      requires path.suffix != []
      modifies this
      ensures View() == Abort(old(View()), path)
      ensures spurious <==> path !in old(writing)
    {
      if path in writing {
        writing := writing - {path};
        files := files - {NewStateFile(path)};
        return false;
      }
      return true;
    }

    /** `spurious` is the "Spurious ack" report. */
    method DirCommitted(path: VPath) returns (spurious: bool)
      requires path.suffix != []
      modifies this
      ensures View() == Commit(old(View()), path)
      ensures spurious <==> path !in old(writing)
    {
      if path in writing {
        writing := writing - {path};
        if NewStateFile(path) in files {
          var state := files[NewStateFile(path)];
          files := (files - {NewStateFile(path)})[StateFile(path) := state];
        }
        return false;
      }
      return true;
    }

    method RemoveStateFile(path: VPath, fresher: bool) returns (answer: Removed)
      requires path.suffix != []
      modifies this
      ensures (View(), answer) == Metadata.RemoveStateFile(old(View()), path, fresher)
    {
      if path in writing {
        return NotRemoved(CleanupCanceled);
      }
      if StateFile(path) in files {
        if fresher {
          return NotRemoved(CleanupCanceled);
        }
      } else {
        return NotRemoved(FileWasVanished);
      }
      files := files - {StateFile(path)};
      return Done;
    }

    method StoreIndex(image: ImageId)
      modifies this
      ensures View() == Metadata.StoreIndex(old(View()), image)
    {
      MarkUsed(image);
      indexes := indexes + {image};
    }

    /** `all_states`: the listing is taken once; stale and broken records go while it is worked off. */
    method AllStates(dir: VPath) returns (result: map<string, State>)
      modifies this
      ensures View() == ScanStates(old(View()), dir)
      ensures result == Scanning.ScanResult(old(View()), dir)
    {
      ghost var m := View();
      var todo := set f | f in files && f.dir == dir && Listed(f.name);
      ghost var listing := todo;
      result := map[];
      while todo != {}
        invariant todo <= listing
        invariant View() == m.(files := Remaining(m, listing - todo))
        invariant Reported(m, dir, listing - todo, result)
      {
        var f :| f in todo;
        ghost var done := listing - todo;
        todo := todo - {f};
        assert listing - todo == done + {f};
        ScanOne(m, dir, done, f, result);
        var live := false;
        if EndsWith(f.name, NEW_STATE) {
          live := dir.Join(Owner(f.name)) in writing;
          if !live {
            files := files - {f};
            continue;
          }
        }
        if files[f].signatures == [] {
          files := files - {f};
        } else {
          var state, name := files[f], Scanning.Stripped(f.name);
          if live || name !in result {
            result := result[name := state];
          }
        }
      }
      assert listing - todo == listing;
      AllSeen(m, dir, listing, result);
    }

    // ---- The collector's steps ----

    method CollectStart()
      modifies this
      ensures View() == Metadata.CollectStart(old(View()))
    {
      collecting := Some(set p | p in writing :: writing[p].image);
      phase := Scanning(set f | f in files :: f.dir);
    }

    /** `collect_dir`: read every listed record and mark its image. */
    method CollectDir(dir: VPath)
      requires phase.Scanning? && collecting.Some?
      modifies this`collecting, this`phase
      ensures View() == Metadata.CollectDir(old(View()), dir)
    {
      ghost var m := View();
      var listing := set f | f in files && f.dir == dir && Listed(f.name);
      var todo := listing;
      while todo != {}
        invariant todo <= listing && View() == m.(collecting := collecting) && collecting.Some?
        invariant collecting.value == m.collecting.value + set f | f in listing - todo :: m.files[f].image
      {
        var f :| f in todo;
        MarkUsed(files[f].image);
        assert listing - (todo - {f}) == (listing - todo) + {f};
        todo := todo - {f};
      }
      assert listing - todo == listing;
      assert ListedImages(m, dir) == set f | f in listing :: m.files[f].image;
      phase := Scanning(phase.todo - {dir});
    }

    /** `scan_dir`: visit every directory that `Walk` names, in any order of the listings. */
    method ScanDir(tree: set<VPath>, dir: VPath, level: nat)
      requires phase.Scanning? && collecting.Some?
      modifies this`collecting, this`phase
      ensures phase.Scanning? && collecting.Some?
      ensures View() == Marked(old(View()), Collector.Walk(tree, dir, level))
      decreases level
    {
      ghost var m := View();
      MarkedOnce(m, dir);
      if level > 1 {
        var listing := Collector.SubDirs(tree, dir);
        var todo := listing;
        ghost var visited: set<VPath> := {};
        while todo != {}
          invariant todo <= listing && phase.Scanning? && collecting.Some?
          invariant View() == Marked(m, visited)
          invariant forall x :: x in visited <==> exists d :: d in listing - todo && x in Collector.Walk(tree, d, level - 1)
        {
          var d :| d in todo;
          ScanDir(tree, d, level - 1);
          MarkedTwice(m, visited, Collector.Walk(tree, d, level - 1));
          assert listing - (todo - {d}) == (listing - todo) + {d};
          visited, todo := visited + Collector.Walk(tree, d, level - 1), todo - {d};
        }
        assert listing - todo == listing;
        assert visited == Collector.Walk(tree, dir, level);
      } else {
        CollectDir(dir);
      }
    }

    /** `scan`: every configured key whose directory exists is walked down to its configured depth. */
    method Scan(tree: set<VPath>)
      requires phase.Scanning? && collecting.Some?
      modifies this`collecting, this`phase
      ensures phase.Scanning? && collecting.Some?
      ensures View() == Marked(old(View()), Reached(config, tree))
    {
      ghost var m := View();
      var keys := set key | key in config && VPath(key, []) in tree;
      var todo := keys;
      ghost var visited: set<VPath> := {};
      MarkedNowhere(m);
      while todo != {}
        invariant todo <= keys && phase.Scanning? && collecting.Some?
        invariant View() == Marked(m, visited)
        invariant forall x :: x in visited <==>
                                (exists key :: key in keys - todo
                                               && x in Collector.Walk(tree, VPath(key, []), config[key].numLevels))
      {
        var key :| key in todo;
        ScanDir(tree, VPath(key, []), config[key].numLevels);
        MarkedTwice(m, visited, Collector.Walk(tree, VPath(key, []), config[key].numLevels));
        assert keys - (todo - {key}) == (keys - todo) + {key};
        visited, todo := visited + Collector.Walk(tree, VPath(key, []), config[key].numLevels), todo - {key};
      }
      assert keys - todo == keys;
      assert visited == Reached(config, tree);
    }

    /** The second half of `full_collection`: check every stored index against the marks. */
    method Sweep()
      requires phase.Sweeping? && collecting.Some?
      modifies this`indexes
      ensures View() == old(View()).(indexes := old(indexes) * collecting.value)
    {
      var listing := indexes;
      var todo := listing;
      while todo != {}
        invariant todo <= listing
        invariant indexes == listing - ((listing - todo) - collecting.value)
      {
        var image :| image in todo;
        if image !in collecting.value {
          indexes := indexes - {image};
        }
        todo := todo - {image};
      }
    }

    /**
     A collection that nothing interferes with keeps exactly the indexes of the uploads in flight and
     of the listed records, wherever in the tree of directories those records are.
     */
    method FullCollection(tree: set<VPath>)
      requires Inv(config, View())
      requires Collector.Rooted(tree) && RecordDirs(View()) <= tree
      modifies this
      ensures indexes == old(indexes) * Needed(old(View()))
      ensures writing == old(writing) && files == old(files) && phase == Idle
      ensures collecting == Some(Needed(old(View())))
    {
      ghost var m := View();
      CollectStart();
      Scan(tree);
      ReachedMarksTheNeeded(config, m, tree);
      phase := Sweeping;
      Sweep();
      phase := Idle;
    }
  }

  // ---- What a collection needs to keep ----

  function Needed(m: Meta): set<ImageId> {
    Images(m) + set f | f in m.files && Listed(f.name) :: m.files[f].image
  }

  ghost function Reached(config: Config, tree: set<VPath>): set<VPath> {
    set key, x | key in config && VPath(key, []) in tree
                 && x in Collector.Walk(tree, VPath(key, []), config[key].numLevels) :: x
  }

  lemma ReachedMarksTheNeeded(config: Config, m: Meta, tree: set<VPath>)
    requires Inv(config, m) && Collector.Rooted(tree) && RecordDirs(m) <= tree
    ensures Marked(Metadata.CollectStart(m), Reached(config, tree)).collecting.value == Needed(m)
  {
    var n := Metadata.CollectStart(m);
    forall f | f in m.files && Listed(f.name)
      ensures f.dir in Reached(config, tree) && m.files[f].image in ListedImages(n, f.dir)
    {
      Collector.ScanReachesEveryRecord(config, m, tree, f);
    }
  }

  // ---- Specifications of the loops ----

  /** The state after visiting a set of directories. */
  ghost function Marked(m: Meta, dirs: set<VPath>): Meta
    requires m.phase.Scanning? && m.collecting.Some?
  {
    m.(collecting := Some(m.collecting.value + set d, i | d in dirs && i in ListedImages(m, d) :: i),
       phase := Phase.Scanning(m.phase.todo - dirs))
  }

  lemma MarkedTwice(m: Meta, a: set<VPath>, b: set<VPath>)
    requires m.phase.Scanning? && m.collecting.Some?
    ensures Marked(Marked(m, a), b) == Marked(m, a + b)
  {
    var n := Marked(m, a);
    assert forall d :: ListedImages(n, d) == ListedImages(m, d);
    assert n.collecting.value + (set d, i | d in b && i in ListedImages(n, d) :: i)
           == m.collecting.value + set d, i | d in a + b && i in ListedImages(m, d) :: i;
    assert (m.phase.todo - a) - b == m.phase.todo - (a + b);
  }

  lemma MarkedNowhere(m: Meta)
    requires m.phase.Scanning? && m.collecting.Some?
    ensures Marked(m, {}) == m
  {
    assert Marked(m, {}).collecting.value == m.collecting.value;
    assert Marked(m, {}).phase.todo == m.phase.todo;
  }

  lemma MarkedOnce(m: Meta, dir: VPath)
    requires m.phase.Scanning? && m.collecting.Some?
    ensures Marked(m, {}) == m
    ensures Marked(m, {dir}) == Metadata.CollectDir(m, dir)
  {
    MarkedNowhere(m);
    assert Marked(m, {dir}).collecting.value == m.collecting.value + ListedImages(m, dir);
  }

  /** The files left once the records in `done` have been looked at. */
  ghost function Remaining(m: Meta, done: set<RecordFile>): map<RecordFile, State> {
    map f | f in m.files && !(f in done && SweptByScan(m, f)) :: m.files[f]
  }

  /** `name` has a kept record among those looked at. */
  ghost predicate Seen(m: Meta, dir: VPath, done: set<RecordFile>, name: string) {
    exists f :: f in done && Scanning.Kept(m, dir, f) && Scanning.Stripped(f.name) == name
  }

  /** The one of the two records looked at that counts. */
  ghost function Best(m: Meta, dir: VPath, done: set<RecordFile>, name: string): RecordFile {
    var live := Scanning.NewStateIn(dir, name);
    if live in done && Scanning.Kept(m, dir, live) then live else Scanning.StateIn(dir, name)
  }

  ghost predicate Reported(m: Meta, dir: VPath, done: set<RecordFile>, result: map<string, State>) {
    && (forall name :: name in result <==> Seen(m, dir, done, name))
    && (forall name :: name in result ==>
          Best(m, dir, done, name) in m.files && result[name] == m.files[Best(m, dir, done, name)])
  }

  /** What looking at `f` does to the result. */
  ghost function Looked(m: Meta, f: RecordFile, result: map<string, State>): map<string, State>
    requires f in m.files && EndsWith(f.name, STATE)
  {
    var name := Scanning.Stripped(f.name);
    if !SweptByScan(m, f) && (Live(m, f) || name !in result) then result[name := m.files[f]] else result
  }

  lemma ScanOne(m: Meta, dir: VPath, done: set<RecordFile>, f: RecordFile, result: map<string, State>)
    requires f in m.files && f.dir == dir && Listed(f.name) && f !in done
    requires Reported(m, dir, done, result)
    ensures Reported(m, dir, done + {f}, Looked(m, f, result))
    ensures Remaining(m, done + {f})
            == if SweptByScan(m, f) then Remaining(m, done) - {f} else Remaining(m, done)
    ensures f in Remaining(m, done) && Remaining(m, done)[f] == m.files[f]
  {
    var next := Looked(m, f, result);
    forall n ensures n in next <==> Seen(m, dir, done + {f}, n)
      ensures n in next ==> Best(m, dir, done + {f}, n) in m.files && next[n] == m.files[Best(m, dir, done + {f}, n)]
    {
      SeenOneMore(m, dir, done, f, n);
      ScanOneName(m, dir, done, f, result, n);
    }
  }

  lemma SeenOneMore(m: Meta, dir: VPath, done: set<RecordFile>, f: RecordFile, n: string)
    requires EndsWith(f.name, STATE)
    ensures Seen(m, dir, done + {f}, n)
            <==> Seen(m, dir, done, n) || (Scanning.Kept(m, dir, f) && Scanning.Stripped(f.name) == n)
  {
    if Seen(m, dir, done, n) {
      var g :| g in done && Scanning.Kept(m, dir, g) && Scanning.Stripped(g.name) == n;
      assert g in done + {f};
    }
    assert f in done + {f};
  }

  /** A name that has been seen without its live record was seen by its committed one. */
  lemma SeenBest(m: Meta, dir: VPath, done: set<RecordFile>, n: string)
    requires Seen(m, dir, done, n)
    ensures Best(m, dir, done, n) in done && Best(m, dir, done, n) in m.files
  {
    var g :| g in done && Scanning.Kept(m, dir, g) && Scanning.Stripped(g.name) == n;
    Scanning.StrippedInverts(g.name);
  }

  /** A record of another name changes nothing for `n`. */
  lemma OtherName(m: Meta, dir: VPath, done: set<RecordFile>, f: RecordFile, n: string)
    requires f.dir == dir && EndsWith(f.name, STATE) && Scanning.Stripped(f.name) != n
    ensures Best(m, dir, done + {f}, n) == Best(m, dir, done, n)
  {
    Scanning.NameForms(n);
  }

  lemma SameName(m: Meta, dir: VPath, done: set<RecordFile>, f: RecordFile, result: map<string, State>, n: string)
    requires f in m.files && f.dir == dir && Listed(f.name) && f !in done
    requires Reported(m, dir, done, result) && Scanning.Stripped(f.name) == n
    ensures var next := Looked(m, f, result);
            n in next ==> Best(m, dir, done + {f}, n) in m.files && next[n] == m.files[Best(m, dir, done + {f}, n)]
  {
    Scanning.StrippedInverts(f.name);
    Scanning.NameForms(n);
    if n in result {
      SeenBest(m, dir, done, n);
    }
  }

  lemma ScanOneName(m: Meta, dir: VPath, done: set<RecordFile>, f: RecordFile, result: map<string, State>, n: string)
    requires f in m.files && f.dir == dir && Listed(f.name) && f !in done
    requires Reported(m, dir, done, result)
    ensures var next := Looked(m, f, result);
            n in next ==> Best(m, dir, done + {f}, n) in m.files && next[n] == m.files[Best(m, dir, done + {f}, n)]
  {
    if Scanning.Stripped(f.name) == n {
      SameName(m, dir, done, f, result, n);
    } else {
      OtherName(m, dir, done, f, n);
    }
  }

  lemma SeenIsReported(m: Meta, dir: VPath, listing: set<RecordFile>, name: string)
    requires listing == set f | f in m.files && f.dir == dir && Listed(f.name)
    ensures Seen(m, dir, listing, name) <==> name in Scanning.ScanResult(m, dir)
  {
    if Seen(m, dir, listing, name) {
      var f :| f in listing && Scanning.Kept(m, dir, f) && Scanning.Stripped(f.name) == name;
      assert Scanning.Kept(m, dir, f) && f in m.files;
    }
  }

  lemma AllSeen(m: Meta, dir: VPath, listing: set<RecordFile>, result: map<string, State>)
    requires listing == set f | f in m.files && f.dir == dir && Listed(f.name)
    requires Reported(m, dir, listing, result)
    ensures result == Scanning.ScanResult(m, dir)
    ensures Remaining(m, listing) == ScanStates(m, dir).files
  {
    forall name ensures Seen(m, dir, listing, name) <==> name in Scanning.ScanResult(m, dir) {
      SeenIsReported(m, dir, listing, name);
    }
  }
}
