/**
 What every step of the metadata keeps, and what an upload may rely on from its acceptance to its
 commit or abort.
 */
module Transactions {
  import opened Signatures
  import opened Names
  import opened Metadata

  // ---- One path at a time ----

  /** The records of a path and their temporaries. */
  function OwnFiles(p: VPath): set<RecordFile>
    requires p.suffix != []
  {
    {StateFile(p), NewStateFile(p), Temporary(StateFile(p)), Temporary(NewStateFile(p))}
  }

  /**
   Only the table entry and the two records of `p` may differ, and files of the names of their temporaries
   may go; marks are not lost.
   */
  ghost predicate Local(m: Meta, n: Meta, p: VPath)
    requires p.suffix != []
  {
    && (forall q :: q in n.writing && q != p ==> q in m.writing && n.writing[q] == m.writing[q])
    && (forall q :: q in m.writing && q != p ==> q in n.writing)
    && (forall f :: f in n.files && f != StateFile(p) && f != NewStateFile(p) ==>
          f in m.files && n.files[f] == m.files[f])
    && (forall f :: f in m.files && f !in n.files ==> f in OwnFiles(p))
    && n.phase == m.phase
    && (m.collecting.Some? ==> n.collecting.Some? && m.collecting.value <= n.collecting.value)
  }

  lemma OthersStayInFlight(cfg: Config, m: Meta, n: Meta, p: VPath, q: VPath)
    requires Plain(p) && Local(m, n, p) && q != p && q in m.writing && InFlight(cfg, m, q)
    ensures q in n.writing && InFlight(cfg, n, q)
  {
    PlainNamesApart(p, q);
    PlainNamesApart(q, p);
    assert NewStateFile(q) !in OwnFiles(p) && StateFile(q) !in OwnFiles(p);
  }

  lemma LocalChangeKeepsInv(cfg: Config, m: Meta, n: Meta, p: VPath)
    requires Inv(cfg, m)
    requires Plain(p) && Local(m, n, p)
    requires p in n.writing ==> InFlight(cfg, n, p)
    requires StateFile(p) in n.files ==> Recorded(cfg, n, StateFile(p))
    requires NewStateFile(p) in n.files ==> Recorded(cfg, n, NewStateFile(p))
    ensures Inv(cfg, n)
  {
    forall q | q in n.writing && q != p ensures InFlight(cfg, n, q) {
      OthersStayInFlight(cfg, m, n, p, q);
    }
    forall f | f in n.files && f != StateFile(p) && f != NewStateFile(p) ensures Recorded(cfg, n, f) {
      assert Recorded(cfg, m, f);
    }
  }

  lemma RewriteIsLocal(m: Meta, p: VPath, file: RecordFile, state: State, writing: map<VPath, Writing>)
    requires p.suffix != [] && (file == StateFile(p) || file == NewStateFile(p))
    requires forall q :: q != p ==> (q in writing <==> q in m.writing) && (q in writing ==> writing[q] == m.writing[q])
    ensures Local(m, Rewrite(m, file, state).(writing := writing), p)
  {
  }

  lemma DropIsLocal(m: Meta, p: VPath, file: RecordFile, writing: map<VPath, Writing>)
    requires p.suffix != [] && (file == StateFile(p) || file == NewStateFile(p))
    requires forall q :: q != p ==> (q in writing <==> q in m.writing) && (q in writing ==> writing[q] == m.writing[q])
    ensures Local(m, Drop(m, file).(writing := writing), p)
  {
  }

  lemma EntriesSorted(timestamp: nat, signatures: seq<nat>, trusted: set<nat>)
    requires CheckKeys(signatures, trusted)
    ensures Sort(Entries(timestamp, signatures)) != []
  {
    var sig :| sig in signatures && sig in trusted;
    assert |multiset(Entries(timestamp, signatures))| == |signatures|;
    assert |Sort(Entries(timestamp, signatures))| == |multiset(Sort(Entries(timestamp, signatures)))|;
  }

  lemma MergeGrows(a: seq<Entry>, b: seq<Entry>)
    ensures Sorted(Merge(a, b))
    ensures forall e :: e in a ==> e in Merge(a, b)
    ensures a != [] ==> Merge(a, b) != []
  {
    MergeMembers(a, b);
    if a != [] {
      assert a[0] in Merge(a, b);
    }
  }

  lemma RecordsShareADirectory(p: VPath)
    requires p.suffix != []
    ensures StateFile(p).dir == p.Parent() && NewStateFile(p).dir == p.Parent()
    ensures p.Parent().key == p.key && p.Parent().Level() + 1 == p.Level()
    ensures EndsWith(StateFile(p).name, STATE) && EndsWith(NewStateFile(p).name, STATE)
    ensures Listed(StateFile(p).name) == Listed(NewStateFile(p).name)
  {
    ListedTogether(p);
  }

  lemma BeginKeepsInv(cfg: Config, m: Meta, p: VPath, state: State, replacing: bool)
    requires Inv(cfg, m)
    requires Plain(p) && Configured(cfg, p) && p !in m.writing
    requires state.signatures != [] && Sorted(state.signatures)
    requires replacing <==> StateFile(p) in m.files
    requires StateFile(p) in m.files ==> m.files[StateFile(p)].image != state.image
    requires cfg[p.key].appendOnly ==> !replacing
    requires !m.phase.Idle? && Listed(NewStateFile(p).name) ==>
               || (m.collecting.Some? && state.image in m.collecting.value)
               || (m.phase.Scanning? && p.Parent() in m.phase.todo)
    ensures Inv(cfg, Begin(m, p, state, replacing))
  {
    PlainNamesApart(p, p);
    RecordsShareADirectory(p);
    var n := Begin(m, p, state, replacing);
    assert StateFile(p) in m.files ==> Recorded(cfg, m, StateFile(p));
    RewriteIsLocal(m, p, NewStateFile(p), state, n.writing);
    LocalChangeKeepsInv(cfg, m, n, p);
  }

  lemma JoinKeepsInv(cfg: Config, m: Meta, p: VPath, signatures: seq<Entry>)
    requires Inv(cfg, m)
    requires Plain(p) && p in m.writing
    ensures Inv(cfg, Join(m, p, signatures))
  {
    assert InFlight(cfg, m, p);
    PlainNamesApart(p, p);
    MergeGrows(m.writing[p].signatures, signatures);
    assert Recorded(cfg, m, NewStateFile(p));
    assert StateFile(p) in m.files ==> Recorded(cfg, m, StateFile(p));
    var n, merged := Join(m, p, signatures), MergeUnlessEqual(m.writing[p].signatures, signatures);
    RewriteIsLocal(m, p, NewStateFile(p), State(m.writing[p].image, merged), n.writing);
    LocalChangeKeepsInv(cfg, m, n, p);
  }

  lemma ResignKeepsInv(cfg: Config, m: Meta, p: VPath, signatures: seq<Entry>)
    requires Inv(cfg, m)
    requires Plain(p) && p !in m.writing && StateFile(p) in m.files
    ensures Inv(cfg, Resign(m, p, signatures))
  {
    PlainNamesApart(p, p);
    var state := m.files[StateFile(p)];
    MergeGrows(state.signatures, signatures);
    assert Recorded(cfg, m, StateFile(p));
    assert NewStateFile(p) in m.files ==> Recorded(cfg, m, NewStateFile(p));
    RewriteIsLocal(m, p, StateFile(p), State(state.image, Merge(state.signatures, signatures)), m.writing);
    LocalChangeKeepsInv(cfg, m, Resign(m, p, signatures), p);
  }

  lemma MarkKeepsInv(cfg: Config, m: Meta, image: ImageId)
    requires Inv(cfg, m)
    ensures Inv(cfg, MarkUsed(m, image))
    ensures !m.phase.Idle? ==> MarkUsed(m, image).collecting.Some? && image in MarkUsed(m, image).collecting.value
  {
    var n := MarkUsed(m, image);
    forall p | p in n.writing ensures InFlight(cfg, n, p) {
      assert InFlight(cfg, m, p);
    }
    forall f | f in n.files ensures Recorded(cfg, n, f) {
      assert Recorded(cfg, m, f);
    }
  }

  // ---- Every operation ----

  /** What may be said of a request's effect before it is applied. */
  predicate Warranted(cfg: Config, m: Meta, path: VPath, state: State, effect: Effect)
    requires Applicable(m, path, effect)
  {
    match effect
    case Beginning(replacing) =>
      && Configured(cfg, path) && state.signatures != [] && Sorted(state.signatures)
      && (StateFile(path) in m.files ==> m.files[StateFile(path)].image != state.image)
      && (cfg[path.key].appendOnly ==> !replacing)
      && (!m.phase.Idle? ==> m.collecting.Some? && state.image in m.collecting.value)
    case _ => true
  }

  lemma ApplyKeepsInv(cfg: Config, m: Meta, path: VPath, state: State, effect: Effect)
    requires Inv(cfg, m) && Plain(path) && Applicable(m, path, effect) && Warranted(cfg, m, path, state, effect)
    ensures Inv(cfg, Apply(m, path, state, effect))
  {
    match effect
    case Nothing =>
    case Joining => JoinKeepsInv(cfg, m, path, state.signatures);
    case Resigning => ResignKeepsInv(cfg, m, path, state.signatures);
    case Beginning(replacing) => BeginKeepsInv(cfg, m, path, state, replacing);
  }

  lemma AppendKeepsInv(cfg: Config, m: Meta, r: AppendDir, trusted: set<nat>)
    requires Inv(cfg, m) && Plain(r.path)
    ensures Inv(cfg, StartAppend(cfg, m, r, trusted).0)
  {
    MarkKeepsInv(cfg, m, r.image);
    var marked := MarkUsed(m, r.image);
    var d := DecideAppend(cfg, m, r, trusted);
    if d.effect.Beginning? {
      EntriesSorted(r.timestamp, r.signatures, trusted);
    }
    ApplyKeepsInv(cfg, marked, r.path, Requested(r.image, r.timestamp, r.signatures), d.effect);
  }

  lemma ReplaceKeepsInv(cfg: Config, m: Meta, r: ReplaceDir, trusted: set<nat>)
    requires Inv(cfg, m) && Plain(r.path)
    ensures Inv(cfg, StartReplace(cfg, m, r, trusted).0)
  {
    MarkKeepsInv(cfg, m, r.image);
    var marked := MarkUsed(m, r.image);
    var d := DecideReplace(cfg, m, r, trusted);
    if d.effect.Beginning? {
      EntriesSorted(r.timestamp, r.signatures, trusted);
    }
    ApplyKeepsInv(cfg, marked, r.path, Requested(r.image, r.timestamp, r.signatures), d.effect);
  }

  lemma DropKeepsInv(cfg: Config, m: Meta, p: VPath, f: RecordFile)
    requires Inv(cfg, m)
    requires Plain(p) && p !in m.writing && (f == StateFile(p) || f == NewStateFile(p))
    ensures Inv(cfg, Drop(m, f))
  {
    assert StateFile(p) in m.files ==> Recorded(cfg, m, StateFile(p));
    assert NewStateFile(p) in m.files ==> Recorded(cfg, m, NewStateFile(p));
    DropIsLocal(m, p, f, m.writing);
    LocalChangeKeepsInv(cfg, m, Drop(m, f), p);
  }

  /** The rename of the committed record to the in-flight one, while the path is in no upload. */
  lemma RenameKeepsInv(cfg: Config, m: Meta, p: VPath)
    requires Inv(cfg, m) && Plain(p) && p !in m.writing && StateFile(p) in m.files
    ensures Inv(cfg, Store(Drop(m, StateFile(p)), NewStateFile(p), m.files[StateFile(p)]))
  {
    PlainNamesApart(p, p);
    RecordsShareADirectory(p);
    assert Recorded(cfg, m, StateFile(p));
    LocalChangeKeepsInv(cfg, m, Store(Drop(m, StateFile(p)), NewStateFile(p), m.files[StateFile(p)]), p);
  }

  /** Taking up the upload of an in-flight record beside which there is no committed one. */
  lemma EnterKeepsInv(cfg: Config, m: Meta, p: VPath)
    requires Inv(cfg, m) && Plain(p) && Configured(cfg, p) && p !in m.writing
    requires NewStateFile(p) in m.files && StateFile(p) !in m.files
    ensures Inv(cfg, Enter(m, p, m.files[NewStateFile(p)], false))
  {
    var n := Enter(m, p, m.files[NewStateFile(p)], false);
    assert Recorded(cfg, m, NewStateFile(p));
    assert Recorded(cfg, n, NewStateFile(p));
    LocalChangeKeepsInv(cfg, m, n, p);
  }

  lemma ResumeKeepsInv(cfg: Config, m: Meta, p: VPath)
    requires Inv(cfg, m) && Plain(p)
    ensures Inv(cfg, Resume(cfg, m, p).0)
  {
    PlainNamesApart(p, p);
    if Configured(cfg, p) && p !in m.writing {
      if StateFile(p) in m.files {
        RenameKeepsInv(cfg, m, p);
        EnterKeepsInv(cfg, Store(Drop(m, StateFile(p)), NewStateFile(p), m.files[StateFile(p)]), p);
      } else if NewStateFile(p) in m.files {
        EnterKeepsInv(cfg, m, p);
      }
    }
  }

  lemma AbortKeepsInv(cfg: Config, m: Meta, p: VPath)
    requires Inv(cfg, m) && Plain(p)
    ensures Inv(cfg, Abort(m, p))
  {
    if p in m.writing {
      assert StateFile(p) in m.files ==> Recorded(cfg, m, StateFile(p));
      DropIsLocal(m, p, NewStateFile(p), m.writing - {p});
      LocalChangeKeepsInv(cfg, m, Abort(m, p), p);
    }
  }

  lemma CommitKeepsInv(cfg: Config, m: Meta, p: VPath)
    requires Inv(cfg, m) && Plain(p)
    ensures Inv(cfg, Commit(m, p))
  {
    if p in m.writing {
      PlainNamesApart(p, p);
      RecordsShareADirectory(p);
      assert InFlight(cfg, m, p);
      assert Recorded(cfg, m, NewStateFile(p));
      LocalChangeKeepsInv(cfg, m, Commit(m, p), p);
    }
  }

  /** A scan never takes a live record away, because an upload always carries a signature. */
  lemma ScanKeepsInv(cfg: Config, m: Meta, dir: VPath)
    requires Inv(cfg, m)
    ensures Inv(cfg, ScanStates(m, dir))
  {
    var n := ScanStates(m, dir);
    forall p | p in n.writing ensures InFlight(cfg, n, p) {
      assert InFlight(cfg, m, p);
      LiveRecord(m, p);
      assert Recorded(cfg, m, NewStateFile(p));
      if StateFile(p) in m.files {
        assert Recorded(cfg, m, StateFile(p));
        NotInFlightName(p);
      }
    }
    forall f | f in n.files ensures Recorded(cfg, n, f) {
      assert Recorded(cfg, m, f);
    }
  }

  lemma LiveRecord(m: Meta, p: VPath)
    requires p.suffix != [] && p in m.writing
    ensures Live(m, NewStateFile(p))
  {
    EndsWithTail(p.FinalName(), NEW_STATE);
    assert p.suffix == p.Parent().suffix + [p.FinalName()];
  }

  lemma NotInFlightName(p: VPath)
    requires Plain(p)
    ensures !EndsWith(StateFile(p).name, NEW_STATE)
  {
    var name := StateFile(p).name;
    if EndsWith(name, NEW_STATE) {
      var owner := name[..|name| - |NEW_STATE|];
      assert name == owner + NEW_STATE;
      NewStateSplits(owner);
      CancelTail(p.FinalName(), owner + NEW, STATE);
      EndsWithTail(owner, NEW);
      assert false;
    }
  }

  lemma CollectorKeepsInv(cfg: Config, m: Meta, step: Step)
    requires Inv(cfg, m)
    requires step.CollectStartStep? || step.CollectDirStep? || step.CollectScannedStep? || step.CheckIndexStep?
             || step.CollectEndStep? || step.CrashStep? || step.StoreIndexStep?
    ensures Inv(cfg, Next(cfg, m, step))
  {
    var n := Next(cfg, m, step);
    if step.StoreIndexStep? {
      MarkKeepsInv(cfg, m, step.image);
    }
    forall p | p in n.writing ensures InFlight(cfg, n, p) {
      assert InFlight(cfg, m, p);
    }
    forall f | f in n.files ensures Recorded(cfg, n, f) {
      assert Recorded(cfg, m, f);
      assert f.dir in RecordDirs(m);
      if Listed(f.name) {
        assert m.files[f].image in ListedImages(m, f.dir);
      }
    }
  }

  lemma NextKeepsInv(cfg: Config, m: Meta, step: Step)
    requires Inv(cfg, m) && Admissible(step)
    ensures Inv(cfg, Next(cfg, m, step))
  {
    match step
    case AppendStep(r, trusted) => AppendKeepsInv(cfg, m, r, trusted);
    case ReplaceStep(r, trusted) => ReplaceKeepsInv(cfg, m, r, trusted);
    case ResumeStep(p) => ResumeKeepsInv(cfg, m, p);
    case AbortStep(p) => AbortKeepsInv(cfg, m, p);
    case CommitStep(p) => CommitKeepsInv(cfg, m, p);
    case RemoveStep(p, fresher) =>
      if p !in m.writing {
        DropKeepsInv(cfg, m, p, StateFile(p));
      }
    case ScanStep(dir) => ScanKeepsInv(cfg, m, dir);
    case _ => CollectorKeepsInv(cfg, m, step);
  }

  /** The invariant holds after every run from the empty database, restarts and collections included. */
  lemma {:induction false} RunKeepsInv(cfg: Config, steps: seq<Step>)
    requires AllAdmissible(steps)
    ensures Inv(cfg, Run(cfg, EMPTY, steps))
    decreases |steps|
  {
    if steps != [] {
      RunKeepsInv(cfg, steps[..|steps| - 1]);
      NextKeepsInv(cfg, Run(cfg, EMPTY, steps[..|steps| - 1]), steps[|steps| - 1]);
    }
  }
}
