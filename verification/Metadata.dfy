/**
 The upload transactions of one node as state changes (src/daemon/metadata/upload.rs and mod.rs).

 `writing` is the in-memory table, `files` the `.state` and `.new.state` records on disk, `indexes`
 the stored index files, `collecting` the mark set of the index collector and `phase` how far the
 collector has come. Every operation below is one step; MetadataServer carries the same operations
 out on an object and is proved to make exactly these state changes.
 */
module Metadata {
  import opened Wrappers
  import opened Signatures
  import opened Names

  /** The hash that names an image. */
  type ImageId = nat

  datatype Directory = Directory(appendOnly: bool, numLevels: nat)
  type Config = map<string, Directory>

  datatype State = State(image: ImageId, signatures: seq<Entry>)
  datatype Writing = Writing(image: ImageId, signatures: seq<Entry>, replacing: bool)

  /** While scanning, `todo` holds the directories with records that are still to be visited. */
  datatype Phase = Idle | Scanning(todo: set<VPath>) | Sweeping

  datatype Meta = Meta(
    writing: map<VPath, Writing>,
    files: map<RecordFile, State>,
    indexes: set<ImageId>,
    collecting: Option<set<ImageId>>,
    phase: Phase
  )

  const EMPTY := Meta(map[], map[], {}, None, Idle)

  datatype AppendDir = AppendDir(path: VPath, image: ImageId, timestamp: nat, signatures: seq<nat>)
  datatype ReplaceDir = ReplaceDir(path: VPath, image: ImageId, oldImage: Option<ImageId>,
                                   timestamp: nat, signatures: seq<nat>)

  datatype Accept = New | InProgress | AlreadyDone
  datatype Reason =
    | ConfigLevelMismatch
    | SignatureMismatch
    | AlreadyExists
    | AlreadyUploadingDifferentVersion
    | DirIsAppendOnly
    | ReplaceDoesntMatchIndex
  datatype Error = PathNotFound | LevelMismatch | ResumeNoFile | ResumeConflict | CleanupCanceled | FileWasVanished
  datatype Upload = Accepted(accept: Accept) | Rejected(reason: Reason, current: Option<ImageId>) | Failed(error: Error)
  datatype Resumed = Resuming(image: ImageId) | NotResumed(error: Error)
  datatype Removed = Done | NotRemoved(error: Error)

  // ---- Requests ----

  function Entries(timestamp: nat, signatures: seq<nat>): seq<Entry> {
    seq(|signatures|, i requires 0 <= i < |signatures| => Entry(timestamp, signatures[i]))
  }

  /** `check_keys`: some signature verifies; `trusted` holds those that verify for this request. */
  predicate CheckKeys(signatures: seq<nat>, trusted: set<nat>) {
    exists sig :: sig in signatures && sig in trusted
  }

  /** A path the configuration accepts: its key is configured and its depth is the configured one. */
  predicate Configured(cfg: Config, path: VPath) {
    path.key in cfg && path.Level() == cfg[path.key].numLevels && path.suffix != []
  }

  // ---- Operations ----

  function MarkUsed(m: Meta, image: ImageId): Meta {
    if m.collecting.Some? then m.(collecting := Some(m.collecting.value + {image})) else m
  }

  function Store(m: Meta, file: RecordFile, state: State): Meta {
    m.(files := m.files[file := state])
  }

  function Drop(m: Meta, file: RecordFile): Meta {
    m.(files := m.files - {file})
  }

  /** `replace_file`: a temporary is written, over any file of that name, and renamed to the record. */
  function Rewrite(m: Meta, file: RecordFile, state: State): Meta {
    Store(Drop(m, Temporary(file)), file, state)
  }

  /** The table entry of an upload. */
  function Enter(m: Meta, path: VPath, state: State, replacing: bool): Meta {
    m.(writing := m.writing[path := Writing(state.image, state.signatures, replacing)])
  }

  /** A new in-flight upload: the table entry and its `.new.state` record. */
  function Begin(m: Meta, path: VPath, state: State, replacing: bool): Meta
    requires path.suffix != []
  {
    Enter(Rewrite(m, NewStateFile(path), state), path, state, replacing)
  }

  /** Further signatures for the image in flight. */
  function Join(m: Meta, path: VPath, signatures: seq<Entry>): Meta
    requires path.suffix != [] && path in m.writing
  {
    var w := m.writing[path];
    var merged := MergeUnlessEqual(w.signatures, signatures);
    Rewrite(m, NewStateFile(path), State(w.image, merged))
    .(writing := m.writing[path := w.(signatures := merged)])
  }

  /** Further signatures for the committed image. */
  function Resign(m: Meta, path: VPath, signatures: seq<Entry>): Meta
    requires path.suffix != [] && StateFile(path) in m.files
  {
    var state := m.files[StateFile(path)];
    Rewrite(m, StateFile(path), State(state.image, Merge(state.signatures, signatures)))
  }

  /** What an accepted request does to the records of its path; a rejected one does nothing. */
  datatype Effect = Nothing | Joining | Resigning | Beginning(replacing: bool)

  predicate Applicable(m: Meta, path: VPath, effect: Effect) {
    match effect
    case Nothing => true
    case Joining => path.suffix != [] && path in m.writing
    case Resigning => path.suffix != [] && path !in m.writing && StateFile(path) in m.files
    case Beginning(replacing) =>
      path.suffix != [] && path !in m.writing && (replacing <==> StateFile(path) in m.files)
  }

  function Apply(m: Meta, path: VPath, state: State, effect: Effect): Meta
    requires Applicable(m, path, effect)
  {
    match effect
    case Nothing => m
    case Joining => Join(m, path, state.signatures)
    case Resigning => Resign(m, path, state.signatures)
    case Beginning(replacing) => Begin(m, path, state, replacing)
  }

  datatype Decision = Decision(effect: Effect, answer: Upload)

  /** The answer tells which effect a request had. */
  predicate Consistent(d: Decision) {
    && (d.effect.Nothing? <==> !d.answer.Accepted?)
    && (d.effect.Joining? <==> d.answer == Accepted(InProgress))
    && (d.effect.Resigning? <==> d.answer == Accepted(AlreadyDone))
    && (d.effect.Beginning? <==> d.answer == Accepted(New))
  }

  function DecideAppend(cfg: Config, m: Meta, r: AppendDir, trusted: set<nat>): (d: Decision)
    ensures Applicable(m, r.path, d.effect) && Consistent(d)
  {
    if r.path.key !in cfg then Decision(Nothing, Failed(PathNotFound))
    else if !Configured(cfg, r.path) then Decision(Nothing, Rejected(ConfigLevelMismatch, None))
    else if !CheckKeys(r.signatures, trusted) then Decision(Nothing, Rejected(SignatureMismatch, None))
    else if r.path in m.writing then
      var image := m.writing[r.path].image;
      if image == r.image then Decision(Joining, Accepted(InProgress))
      else Decision(Nothing, Rejected(AlreadyUploadingDifferentVersion, Some(image)))
    else if StateFile(r.path) in m.files then
      var image := m.files[StateFile(r.path)].image;
      if image == r.image then Decision(Resigning, Accepted(AlreadyDone))
      else Decision(Nothing, Rejected(AlreadyExists, Some(image)))
    else Decision(Beginning(false), Accepted(New))
  }

  function DecideReplace(cfg: Config, m: Meta, r: ReplaceDir, trusted: set<nat>): (d: Decision)
    ensures Applicable(m, r.path, d.effect) && Consistent(d)
  {
    if r.path.key !in cfg then Decision(Nothing, Failed(PathNotFound))
    else if !Configured(cfg, r.path) then Decision(Nothing, Rejected(ConfigLevelMismatch, None))
    else if cfg[r.path.key].appendOnly then Decision(Nothing, Rejected(DirIsAppendOnly, None))
    else if !CheckKeys(r.signatures, trusted) then Decision(Nothing, Rejected(SignatureMismatch, None))
    else if r.path in m.writing then
      var image := m.writing[r.path].image;
      if image == r.image then Decision(Joining, Accepted(InProgress))
      else if r.oldImage.Some? && r.oldImage.value != image then
        Decision(Nothing, Rejected(ReplaceDoesntMatchIndex, Some(image)))
      else Decision(Nothing, Rejected(AlreadyUploadingDifferentVersion, Some(image)))
    else if StateFile(r.path) in m.files then
      var image := m.files[StateFile(r.path)].image;
      if image == r.image then Decision(Resigning, Accepted(AlreadyDone))
      else if r.oldImage.Some? && r.oldImage.value != image then
        Decision(Nothing, Rejected(ReplaceDoesntMatchIndex, Some(image)))
      else Decision(Beginning(true), Accepted(New))
    else Decision(Beginning(false), Accepted(New))
  }

  /** The record a request asks for. */
  function Requested(image: ImageId, timestamp: nat, signatures: seq<nat>): State {
    State(image, Sort(Entries(timestamp, signatures)))
  }

  function StartAppend(cfg: Config, m: Meta, r: AppendDir, trusted: set<nat>): (Meta, Upload) {
    var d := DecideAppend(cfg, m, r, trusted);
    (Apply(MarkUsed(m, r.image), r.path, Requested(r.image, r.timestamp, r.signatures), d.effect), d.answer)
  }

  function StartReplace(cfg: Config, m: Meta, r: ReplaceDir, trusted: set<nat>): (Meta, Upload) {
    var d := DecideReplace(cfg, m, r, trusted);
    (Apply(MarkUsed(m, r.image), r.path, Requested(r.image, r.timestamp, r.signatures), d.effect), d.answer)
  }

  function Resume(cfg: Config, m: Meta, path: VPath): (Meta, Resumed) {
    if path.key !in cfg then (m, NotResumed(PathNotFound))
    else if !Configured(cfg, path) then (m, NotResumed(LevelMismatch))
    else if path in m.writing then (m, NotResumed(ResumeConflict))
    else if StateFile(path) in m.files then
      var state := m.files[StateFile(path)];
      (Enter(Store(Drop(m, StateFile(path)), NewStateFile(path), state), path, state, false), Resuming(state.image))
    else if NewStateFile(path) in m.files then
      var state := m.files[NewStateFile(path)];
      (Enter(m, path, state, false), Resuming(state.image))
    else (m, NotResumed(ResumeNoFile))
  }

  /** `dir_aborted`; the branch for a path that is not in `writing` is the "Spurious abort" one. */
  function Abort(m: Meta, path: VPath): Meta {
    if path in m.writing && path.suffix != [] then
      Drop(m, NewStateFile(path)).(writing := m.writing - {path})
    else m
  }

  /** `dir_committed`: the rename of `.new.state` over `.state`. */
  function Commit(m: Meta, path: VPath): Meta {
    if path in m.writing && path.suffix != [] then
      var unlisted := m.(writing := m.writing - {path});
      if NewStateFile(path) in m.files then
        Store(Drop(unlisted, NewStateFile(path)), StateFile(path), m.files[NewStateFile(path)])
      else unlisted
    else m
  }

  /** `remove_state_file`; `fresher` is what the modification time of the record says. */
  function RemoveStateFile(m: Meta, path: VPath, fresher: bool): (Meta, Removed)
    requires path.suffix != []
  {
    if path in m.writing then (m, NotRemoved(CleanupCanceled))
    else if StateFile(path) !in m.files then (m, NotRemoved(FileWasVanished))
    else if fresher then (m, NotRemoved(CleanupCanceled))
    else (Drop(m, StateFile(path)), Done)
  }

  function StoreIndex(m: Meta, image: ImageId): Meta {
    var marked := MarkUsed(m, image);
    marked.(indexes := marked.indexes + {image})
  }

  // ---- The collector ----

  function Images(m: Meta): set<ImageId> {
    set p | p in m.writing :: m.writing[p].image
  }

  function RecordDirs(m: Meta): set<VPath> {
    set f | f in m.files :: f.dir
  }

  /** The images named by the records that listing one directory shows. */
  function ListedImages(m: Meta, dir: VPath): set<ImageId> {
    set f | f in m.files && f.dir == dir && Listed(f.name) :: m.files[f].image
  }

  function CollectStart(m: Meta): Meta {
    m.(collecting := Some(Images(m)), phase := Scanning(RecordDirs(m)))
  }

  function CollectDir(m: Meta, dir: VPath): Meta {
    if m.phase.Scanning? && m.collecting.Some? then
      m.(collecting := Some(m.collecting.value + ListedImages(m, dir)),
         phase := Scanning(m.phase.todo - {dir}))
    else m
  }

  /** Check and delete of one index; the collector gives up when the mark set is gone. */
  function CheckIndex(m: Meta, image: ImageId): Meta {
    if !m.phase.Sweeping? then m
    else if m.collecting.None? then m.(phase := Idle)
    else if image in m.collecting.value then m
    else m.(indexes := m.indexes - {image})
  }

  // ---- The directory scan ----

  /** The final name a `.new.state` file belongs to. */
  function Owner(name: string): string
    requires EndsWith(name, NEW_STATE)
  {
    name[..|name| - |NEW_STATE|]
  }

  predicate Live(m: Meta, f: RecordFile) {
    EndsWith(f.name, NEW_STATE) && f.dir.Join(Owner(f.name)) in m.writing
  }

  /** The records a scan takes away: stale in-flight ones, and those it renames as broken. */
  predicate SweptByScan(m: Meta, f: RecordFile) {
    f in m.files && Listed(f.name)
    && ((EndsWith(f.name, NEW_STATE) && !Live(m, f)) || m.files[f].signatures == [])
  }

  function ScanStates(m: Meta, dir: VPath): Meta {
    m.(files := map f | f in m.files && !(f.dir == dir && SweptByScan(m, f)) :: m.files[f])
  }

  /** A restart of the daemon: only what is on disk survives. */
  function Crash(m: Meta): Meta {
    m.(writing := map[], collecting := None, phase := Idle)
  }

  // ---- Runs ----

  datatype Step =
    | AppendStep(append: AppendDir, trusted: set<nat>)
    | ReplaceStep(replace_: ReplaceDir, trusted: set<nat>)
    | ResumeStep(path: VPath)
    | AbortStep(path: VPath)
    | CommitStep(path: VPath)
    | RemoveStep(path: VPath, fresher: bool)
    | StoreIndexStep(image: ImageId)
    | ScanStep(dir: VPath)
    | CollectStartStep
    | CollectDirStep(dir: VPath)
    | CollectScannedStep
    | CheckIndexStep(image: ImageId)
    | CollectEndStep
    | CrashStep

  /** The one demand on callers: final names that keep the record files and their temporaries apart. */
  predicate Admissible(step: Step) {
    match step
    case AppendStep(r, _) => Plain(r.path)
    case ReplaceStep(r, _) => Plain(r.path)
    case ResumeStep(p) => Plain(p)
    case AbortStep(p) => Plain(p)
    case CommitStep(p) => Plain(p)
    case RemoveStep(p, _) => Plain(p)
    case _ => true
  }

  function Next(cfg: Config, m: Meta, step: Step): Meta
    requires Admissible(step)
  {
    match step
    case AppendStep(r, trusted) => StartAppend(cfg, m, r, trusted).0
    case ReplaceStep(r, trusted) => StartReplace(cfg, m, r, trusted).0
    case ResumeStep(p) => Resume(cfg, m, p).0
    case AbortStep(p) => Abort(m, p)
    case CommitStep(p) => Commit(m, p)
    case RemoveStep(p, fresher) => RemoveStateFile(m, p, fresher).0
    case StoreIndexStep(image) => StoreIndex(m, image)
    case ScanStep(dir) => ScanStates(m, dir)
    case CollectStartStep => CollectStart(m)
    case CollectDirStep(dir) => CollectDir(m, dir)
    case CollectScannedStep => if m.phase == Scanning({}) then m.(phase := Sweeping) else m
    case CheckIndexStep(image) => CheckIndex(m, image)
    case CollectEndStep => m.(phase := Idle)
    case CrashStep => Crash(m)
  }

  predicate AllAdmissible(steps: seq<Step>) {
    forall i :: 0 <= i < |steps| ==> Admissible(steps[i])
  }

  function Run(cfg: Config, m: Meta, steps: seq<Step>): Meta
    requires AllAdmissible(steps)
    decreases |steps|
  {
    if steps == [] then m
    else Next(cfg, Run(cfg, m, steps[..|steps| - 1]), steps[|steps| - 1])
  }

  // ---- The invariant ----

  /** An in-flight upload and its records. */
  predicate InFlight(cfg: Config, m: Meta, p: VPath)
    requires p in m.writing
  {
    var w := m.writing[p];
    && Plain(p) && Configured(cfg, p)
    && NewStateFile(p) in m.files
    && m.files[NewStateFile(p)] == State(w.image, w.signatures)
    && (w.replacing <==> StateFile(p) in m.files)
    && (StateFile(p) in m.files ==> m.files[StateFile(p)].image != w.image)
    && (cfg[p.key].appendOnly ==> !w.replacing)
  }

  /** A record, and what the collector in progress knows of its image. */
  predicate Recorded(cfg: Config, m: Meta, f: RecordFile)
    requires f in m.files
  {
    && f.dir.key in cfg && f.dir.Level() + 1 == cfg[f.dir.key].numLevels
    && EndsWith(f.name, STATE)
    && m.files[f].signatures != []
    && Sorted(m.files[f].signatures)
    && (!m.phase.Idle? && Listed(f.name) ==> Covered(m, f))
  }

  /** Marked, or its directory is still unscanned. */
  predicate Covered(m: Meta, f: RecordFile)
    requires f in m.files
  {
    || (m.collecting.Some? && m.files[f].image in m.collecting.value)
    || (m.phase.Scanning? && f.dir in m.phase.todo)
  }

  predicate Inv(cfg: Config, m: Meta) {
    && (forall p :: p in m.writing ==> InFlight(cfg, m, p))
    && (forall f :: f in m.files ==> Recorded(cfg, m, f))
    && (!m.phase.Idle? ==> m.collecting.Some?)
  }
}
