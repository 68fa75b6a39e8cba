/**
 Safety of the mark-and-sweep index collector (src/daemon/metadata/index_gc.rs) while every other
 operation of the metadata runs beside it.
 */
module Collector {
  import opened Wrappers
  import opened Signatures
  import opened Names
  import opened Metadata
  import opened Transactions

  /** `image` is in flight for `p`, or named by its `.state` or its live `.new.state` record. */
  predicate Holds(m: Meta, p: VPath, image: ImageId)
    requires p.suffix != []
  {
    || (p in m.writing && m.writing[p].image == image)
    || (p in m.writing && NewStateFile(p) in m.files && m.files[NewStateFile(p)].image == image)
    || (StateFile(p) in m.files && m.files[StateFile(p)].image == image)
  }

  predicate Deletes(cfg: Config, m: Meta, step: Step, image: ImageId)
    requires Admissible(step)
  {
    image in m.indexes && image !in Next(cfg, m, step).indexes
  }

  /** No step of the system deletes an index that a path with a listed name still needs. */
  lemma DeletionSparesHeldImages(cfg: Config, m: Meta, step: Step, image: ImageId, p: VPath)
    requires Inv(cfg, m) && Admissible(step) && Deletes(cfg, m, step, image)
    requires Plain(p) && Listed(StateFile(p).name)
    ensures !Holds(m, p, image)
  {
    RecordsShareADirectory(p);
    assert step == CheckIndexStep(image) && m.phase.Sweeping? && image !in m.collecting.value;
    assert p in m.writing ==> InFlight(cfg, m, p);
    assert StateFile(p) in m.files ==> Recorded(cfg, m, StateFile(p));
    assert NewStateFile(p) in m.files ==> Recorded(cfg, m, NewStateFile(p));
  }

  /** In no run at all does a step delete an index that `p` holds at that moment. */
  ghost predicate NeverLosesItsIndex(cfg: Config, p: VPath)
    requires p.suffix != []
  {
    forall steps, step, image ::
      AllAdmissible(steps) && Admissible(step) && Deletes(cfg, Run(cfg, EMPTY, steps), step, image) ==>
        !Holds(Run(cfg, EMPTY, steps), p, image)
  }

  lemma RunAppend(cfg: Config, m: Meta, steps: seq<Step>, step: Step)
    requires AllAdmissible(steps) && Admissible(step)
    ensures AllAdmissible(steps + [step])
    ensures Run(cfg, m, steps + [step]) == Next(cfg, Run(cfg, m, steps), step)
  {
    assert (steps + [step])[..|steps|] == steps;
  }

  /** A request for image 1, signed once at time 0 with a signature that verifies. */
  function Sample(p: VPath): Step {
    AppendStep(AppendDir(p, 1, 0, [0]), {0})
  }

  /** Upload, commit, and a complete collection up to its sweep. */
  function CollectionOver(p: VPath): seq<Step>
    requires p.suffix != []
  {
    [StoreIndexStep(1)] + [Sample(p)] + [CommitStep(p)] + [CollectStartStep]
    + [CollectDirStep(p.Parent())] + [CollectScannedStep]
  }

  /** The first three steps leave one record and one index. */
  lemma SampleUpload(cfg: Config, p: VPath)
    requires Plain(p) && Configured(cfg, p)
    ensures AllAdmissible([StoreIndexStep(1)] + [Sample(p)] + [CommitStep(p)])
    ensures Run(cfg, EMPTY, [StoreIndexStep(1)] + [Sample(p)] + [CommitStep(p)])
            == Meta(map[], map[StateFile(p) := State(1, Sort(Entries(0, [0])))], {1}, None, Idle)
  {
    PlainNamesApart(p, p);
    RunAppend(cfg, EMPTY, [], StoreIndexStep(1));
    assert [] + [StoreIndexStep(1)] == [StoreIndexStep(1)];
    var stored := Run(cfg, EMPTY, [StoreIndexStep(1)]);
    assert stored == Meta(map[], map[], {1}, None, Idle);
    RunAppend(cfg, EMPTY, [StoreIndexStep(1)], Sample(p));
    var started := Next(cfg, stored, Sample(p));
    assert 0 in [0] && 0 in {0};
    assert StartAppend(cfg, stored, AppendDir(p, 1, 0, [0]), {0}).1 == Accepted(New);
    RunAppend(cfg, EMPTY, [StoreIndexStep(1)] + [Sample(p)], CommitStep(p));
    var committed := Next(cfg, started, CommitStep(p));
    assert committed.writing == map[];
    assert committed.files == map[StateFile(p) := State(1, Sort(Entries(0, [0])))];
  }

  /** The collection passes over a record whose name is not listed, and the sweep takes its index. */
  lemma UnlistedNameLosesItsIndex(cfg: Config, p: VPath)
    requires Plain(p) && Configured(cfg, p) && !Listed(StateFile(p).name)
    ensures AllAdmissible(CollectionOver(p))
    ensures Deletes(cfg, Run(cfg, EMPTY, CollectionOver(p)), CheckIndexStep(1), 1)
    ensures Holds(Run(cfg, EMPTY, CollectionOver(p)), p, 1)
  {
    SampleUpload(cfg, p);
    var upload := [StoreIndexStep(1)] + [Sample(p)] + [CommitStep(p)];
    RunAppend(cfg, EMPTY, upload, CollectStartStep);
    RunAppend(cfg, EMPTY, upload + [CollectStartStep], CollectDirStep(p.Parent()));
    RunAppend(cfg, EMPTY, upload + [CollectStartStep] + [CollectDirStep(p.Parent())], CollectScannedStep);
    UnlistedNameIsPassedOver(p, State(1, Sort(Entries(0, [0]))));
  }

  /** A collection over a single record with an unlisted name. */
  lemma UnlistedNameIsPassedOver(p: VPath, state: State)
    requires p.suffix != [] && !Listed(StateFile(p).name)
    ensures var m := Meta(map[], map[StateFile(p) := state], {1}, None, Idle);
            CollectDir(CollectStart(m), p.Parent()) == m.(collecting := Some({}), phase := Scanning({}))
  {
    var m := Meta(map[], map[StateFile(p) := state], {1}, None, Idle);
    var started := CollectStart(m);
    assert Images(m) == {} && RecordDirs(m) == {p.Parent()};
    assert started == m.(collecting := Some({}), phase := Scanning({p.Parent()}));
    assert ListedImages(started, p.Parent()) == {};
    assert started.collecting.value + ListedImages(started, p.Parent()) == {};
    assert {p.Parent()} - {p.Parent()} == {};
  }

  lemma ListedNameIsSafeAt(cfg: Config, p: VPath, steps: seq<Step>, step: Step, image: ImageId)
    requires Plain(p) && Listed(StateFile(p).name)
    requires AllAdmissible(steps) && Admissible(step) && Deletes(cfg, Run(cfg, EMPTY, steps), step, image)
    ensures !Holds(Run(cfg, EMPTY, steps), p, image)
  {
    RunKeepsInv(cfg, steps);
    DeletionSparesHeldImages(cfg, Run(cfg, EMPTY, steps), step, image, p);
  }

  lemma ListedNameIsSafe(cfg: Config, p: VPath)
    requires Plain(p) && Listed(StateFile(p).name)
    ensures NeverLosesItsIndex(cfg, p)
  {
    forall steps, step, image | AllAdmissible(steps) && Admissible(step)
                                && Deletes(cfg, Run(cfg, EMPTY, steps), step, image)
      ensures !Holds(Run(cfg, EMPTY, steps), p, image)
    {
      ListedNameIsSafeAt(cfg, p, steps, step, image);
    }
  }

  lemma UnlistedNameIsUnsafe(cfg: Config, p: VPath)
    requires Plain(p) && Configured(cfg, p) && !Listed(StateFile(p).name)
    ensures !NeverLosesItsIndex(cfg, p)
  {
    UnlistedNameLosesItsIndex(cfg, p);
  }

  /**
   The collector is safe for a path exactly when its final name does not start with a dot (and is
   not empty): those are the names `list_files` returns.
   */
  lemma SafeExactlyForListedNames(cfg: Config, p: VPath)
    requires Plain(p) && Configured(cfg, p)
    ensures NeverLosesItsIndex(cfg, p) <==> p.FinalName() != "" && !StartsWithDot(p.FinalName())
  {
    ListedTogether(p);
    if Listed(StateFile(p).name) {
      ListedNameIsSafe(cfg, p);
    } else {
      UnlistedNameIsUnsafe(cfg, p);
    }
  }

  // ---- Images named while a collection is under way ----

  /** The collection in progress, if there is one, will not take the image's index. */
  predicate Sheltered(m: Meta, image: ImageId) {
    m.phase.Idle? || (m.collecting.Some? && image in m.collecting.value)
  }

  /** The step stores the index of the image, or is a request that names it, accepted or not. */
  predicate Mentions(step: Step, image: ImageId) {
    || step == StoreIndexStep(image)
    || (step.AppendStep? && step.append.image == image)
    || (step.ReplaceStep? && step.replace_.image == image)
  }

  /** A request marks its image and otherwise leaves indexes and collection alone. */
  predicate JustMarks(m: Meta, n: Meta, image: ImageId) {
    && n.indexes == m.indexes && n.phase == m.phase
    && n.collecting == if m.collecting.Some? then Some(m.collecting.value + {image}) else None
  }

  lemma AppliedJustMarks(m: Meta, p: VPath, state: State, effect: Effect)
    requires Applicable(m, p, effect)
    ensures var n := Apply(m, p, state, effect);
            n.indexes == m.indexes && n.phase == m.phase && n.collecting == m.collecting
  {
  }

  lemma AppendJustMarks(cfg: Config, m: Meta, r: AppendDir, trusted: set<nat>)
    ensures JustMarks(m, StartAppend(cfg, m, r, trusted).0, r.image)
  {
    AppliedJustMarks(MarkUsed(m, r.image), r.path, Requested(r.image, r.timestamp, r.signatures),
                     DecideAppend(cfg, m, r, trusted).effect);
  }

  lemma ReplaceJustMarks(cfg: Config, m: Meta, r: ReplaceDir, trusted: set<nat>)
    ensures JustMarks(m, StartReplace(cfg, m, r, trusted).0, r.image)
  {
    AppliedJustMarks(MarkUsed(m, r.image), r.path, Requested(r.image, r.timestamp, r.signatures),
                     DecideReplace(cfg, m, r, trusted).effect);
  }

  lemma MentionShelters(cfg: Config, m: Meta, step: Step, image: ImageId)
    requires Inv(cfg, m) && Admissible(step) && Mentions(step, image)
    ensures Sheltered(Next(cfg, m, step), image)
    ensures step.StoreIndexStep? || image in m.indexes ==> image in Next(cfg, m, step).indexes
  {
    match step
    case AppendStep(r, trusted) => AppendJustMarks(cfg, m, r, trusted);
    case ReplaceStep(r, trusted) => ReplaceJustMarks(cfg, m, r, trusted);
    case StoreIndexStep(_) =>
  }

  lemma ShelterHolds(cfg: Config, m: Meta, step: Step, image: ImageId)
    requires Admissible(step) && step != CollectStartStep && Sheltered(m, image)
    ensures Sheltered(Next(cfg, m, step), image)
    ensures image in m.indexes ==> image in Next(cfg, m, step).indexes
  {
    match step
    case AppendStep(r, trusted) => AppendJustMarks(cfg, m, r, trusted);
    case ReplaceStep(r, trusted) => ReplaceJustMarks(cfg, m, r, trusted);
    case _ =>
  }

  predicate NoNewCollection(steps: seq<Step>) {
    AllAdmissible(steps) && forall i :: 0 <= i < |steps| ==> steps[i] != CollectStartStep
  }

  lemma {:induction false} ShelteredThroughout(cfg: Config, m: Meta, steps: seq<Step>, image: ImageId)
    requires NoNewCollection(steps) && Sheltered(m, image) && image in m.indexes
    ensures Sheltered(Run(cfg, m, steps), image) && image in Run(cfg, m, steps).indexes
    decreases |steps|
  {
    if steps != [] {
      ShelteredThroughout(cfg, m, steps[..|steps| - 1], image);
      ShelterHolds(cfg, Run(cfg, m, steps[..|steps| - 1]), steps[|steps| - 1], image);
    }
  }

  /**
   An index just stored is not deleted before another collection starts, and neither is one whose image a request
   has just named, even if the request was turned down: whatever else happens, the client has time to go on.
   */
  lemma MentionedIndexStays(cfg: Config, before: seq<Step>, step: Step, image: ImageId, steps: seq<Step>)
    requires AllAdmissible(before) && Admissible(step) && Mentions(step, image) && NoNewCollection(steps)
    requires step.StoreIndexStep? || image in Run(cfg, EMPTY, before).indexes
    ensures image in Run(cfg, Next(cfg, Run(cfg, EMPTY, before), step), steps).indexes
  {
    RunKeepsInv(cfg, before);
    MentionShelters(cfg, Run(cfg, EMPTY, before), step, image);
    ShelteredThroughout(cfg, Next(cfg, Run(cfg, EMPTY, before), step), steps, image);
  }

  // ---- Which directories a scan visits ----

  /** `list_dirs`: the directories right below one directory. */
  function SubDirs(dirs: set<VPath>, dir: VPath): set<VPath> {
    set d | d in dirs && d.suffix != [] && d.Parent() == dir
  }

  /** `scan_dir`: descend while more than one level is left, collect in the directories reached. */
  function Walk(dirs: set<VPath>, dir: VPath, level: nat): set<VPath>
    decreases level
  {
    if level > 1 then
      var below := level - 1;
      set d, x | d in SubDirs(dirs, dir) && x in Walk(dirs, d, below) :: x
    else {dir}
  }

  /** Every directory lies in a directory, up to the directory of its key. */
  predicate Rooted(dirs: set<VPath>) {
    forall d :: d in dirs && d.suffix != [] ==> d.Parent() in dirs
  }

  lemma {:induction false} WalkReaches(dirs: set<VPath>, dir: VPath, level: nat, x: VPath)
    requires Rooted(dirs) && dir in dirs && level >= 1
    requires x in dirs && x.key == dir.key && x.Level() == dir.Level() + level - 1 && dir.suffix <= x.suffix
    ensures x in Walk(dirs, dir, level)
    decreases level
  {
    if level > 1 {
      var d := VPath(x.key, x.suffix[..dir.Level() + 1]);
      AncestorsExist(dirs, x, dir.Level() + 1);
      assert d.Parent() == dir;
      assert d in SubDirs(dirs, dir);
      WalkReaches(dirs, d, level - 1, x);
    } else {
      assert x.suffix == dir.suffix;
    }
  }

  lemma {:induction false} AncestorsExist(dirs: set<VPath>, x: VPath, n: nat)
    requires Rooted(dirs) && x in dirs && n <= x.Level()
    ensures VPath(x.key, x.suffix[..n]) in dirs
    decreases x.Level()
  {
    if n < x.Level() {
      AncestorsExist(dirs, x.Parent(), n);
      assert x.Parent().suffix[..n] == x.suffix[..n];
    } else {
      assert x.suffix[..n] == x.suffix;
    }
  }

  /** The directory of every record is visited, at the depth the configuration gives its key. */
  lemma ScanReachesEveryRecord(cfg: Config, m: Meta, dirs: set<VPath>, f: RecordFile)
    requires Inv(cfg, m) && f in m.files
    requires Rooted(dirs) && RecordDirs(m) <= dirs
    ensures f.dir.key in cfg && VPath(f.dir.key, []) in dirs
    ensures cfg[f.dir.key].numLevels >= 1
    ensures f.dir in Walk(dirs, VPath(f.dir.key, []), cfg[f.dir.key].numLevels)
  {
    assert Recorded(cfg, m, f);
    assert f.dir in RecordDirs(m);
    AncestorsExist(dirs, f.dir, 0);
    assert f.dir.suffix[..0] == [];
    WalkReaches(dirs, VPath(f.dir.key, []), cfg[f.dir.key].numLevels, f.dir);
  }
}
