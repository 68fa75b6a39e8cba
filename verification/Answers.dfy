/**
 What a node answers to a request for a path, and what it has recorded afterwards, on the state and the
 request alone (src/daemon/metadata/upload.rs and mod.rs).
 */
module Answers {
  import opened Wrappers
  import opened Signatures
  import opened Names
  import opened Metadata

  // ---- Upload requests ----

  /** The checks before any record is read: depth, append-only directories, and one signature that verifies. */
  predicate Passes(cfg: Config, path: VPath, signatures: seq<nat>, trusted: set<nat>, replace: bool) {
    && path.key in cfg && 0 < |path.suffix| == cfg[path.key].numLevels
    && !(replace && cfg[path.key].appendOnly)
    && exists i :: 0 <= i < |signatures| && signatures[i] in trusted
  }

  /** What a path holds: the upload in flight, or else the committed record. */
  function Current(m: Meta, p: VPath): Option<State> {
    if p in m.writing then Some(State(m.writing[p].image, m.writing[p].signatures))
    else if p.suffix != [] && StateFile(p) in m.files then Some(m.files[StateFile(p)])
    else None
  }

  /** The path holds this image. */
  predicate Has(m: Meta, p: VPath, image: ImageId) {
    Current(m, p).Some? && Current(m, p).value.image == image
  }

  predicate HasAnother(m: Meta, p: VPath, image: ImageId) {
    Current(m, p).Some? && Current(m, p).value.image != image
  }

  lemma SomeVerifies(signatures: seq<nat>, trusted: set<nat>)
    ensures CheckKeys(signatures, trusted) <==> exists i :: 0 <= i < |signatures| && signatures[i] in trusted
  {
    if CheckKeys(signatures, trusted) {
      var sig :| sig in signatures && sig in trusted;
      var i :| 0 <= i < |signatures| && signatures[i] == sig;
    }
  }

  /**
   An append is new where the path holds nothing, joins an upload or record of its own image only, and is
   otherwise told the image the path holds.
   */
  lemma AppendAnswer(cfg: Config, m: Meta, r: AppendDir, trusted: set<nat>)
    ensures var answer, p := StartAppend(cfg, m, r, trusted).1, r.path;
            var passes := Passes(cfg, p, r.signatures, trusted, false);
            && (answer == Accepted(New) <==> passes && Current(m, p) == None)
            && (answer == Accepted(InProgress) <==> passes && p in m.writing && m.writing[p].image == r.image)
            && (answer == Accepted(AlreadyDone) <==> passes && p !in m.writing && Has(m, p, r.image))
            && (passes && HasAnother(m, p, r.image) ==>
                  answer == Rejected(if p in m.writing then AlreadyUploadingDifferentVersion else AlreadyExists,
                                     Some(Current(m, p).value.image)))
            && (!passes ==> answer.Failed? || (answer.Rejected? && answer.current == None))
            && (answer == Failed(PathNotFound) <==> p.key !in cfg)
            && (answer == Rejected(SignatureMismatch, None)
                <==> && p.key in cfg && 0 < |p.suffix| == cfg[p.key].numLevels
                     && forall i :: 0 <= i < |r.signatures| ==> r.signatures[i] !in trusted)
  {
    SomeVerifies(r.signatures, trusted);
  }

  /** The old image a replace names is not the one it finds. */
  predicate Outdated(m: Meta, r: ReplaceDir) {
    r.oldImage.Some? && HasAnother(m, r.path, r.oldImage.value)
  }

  /**
   A replace is new where the path holds nothing, or a committed record of another image that is the old one it
   names, if it names one; it never takes the place of an upload in flight.
   */
  lemma ReplaceAnswer(cfg: Config, m: Meta, r: ReplaceDir, trusted: set<nat>)
    ensures var answer, p := StartReplace(cfg, m, r, trusted).1, r.path;
            var passes := Passes(cfg, p, r.signatures, trusted, true);
            && (answer == Accepted(New)
                <==> && passes && p !in m.writing
                     && (Current(m, p) == None || (HasAnother(m, p, r.image) && !Outdated(m, r))))
            && (answer == Accepted(InProgress) <==> passes && p in m.writing && m.writing[p].image == r.image)
            && (answer == Accepted(AlreadyDone) <==> passes && p !in m.writing && Has(m, p, r.image))
            && (passes && HasAnother(m, p, r.image) && Outdated(m, r) ==>
                  answer == Rejected(ReplaceDoesntMatchIndex, Some(Current(m, p).value.image)))
            && (passes && HasAnother(m, p, r.image) && !Outdated(m, r) && p in m.writing ==>
                  answer == Rejected(AlreadyUploadingDifferentVersion, Some(m.writing[p].image)))
            && (!passes ==> answer.Failed? || (answer.Rejected? && answer.current == None))
            && (answer == Failed(PathNotFound) <==> p.key !in cfg)
            && (answer == Rejected(DirIsAppendOnly, None)
                <==> p.key in cfg && 0 < |p.suffix| == cfg[p.key].numLevels && cfg[p.key].appendOnly)
            && (answer == Rejected(SignatureMismatch, None)
                <==> && p.key in cfg && 0 < |p.suffix| == cfg[p.key].numLevels && !cfg[p.key].appendOnly
                     && forall i :: 0 <= i < |r.signatures| ==> r.signatures[i] !in trusted)
  {
    SomeVerifies(r.signatures, trusted);
  }

  // ---- What is recorded ----

  /** The record file that holds what `Current` gives. */
  function CurrentFile(m: Meta, p: VPath): RecordFile
    requires p.suffix != []
  {
    if p in m.writing then NewStateFile(p) else StateFile(p)
  }

  /** A request left the path with its image and with exactly its entries and those the image had there. */
  ghost predicate OnRecord(m: Meta, n: Meta, p: VPath, image: ImageId, entries: seq<Entry>)
    requires p.suffix != []
  {
    && Has(n, p, image)
    && CurrentFile(n, p) in n.files && n.files[CurrentFile(n, p)] == Current(n, p).value
    && Sorted(Current(n, p).value.signatures)
    && forall e :: e in Current(n, p).value.signatures
                   <==> e in entries || (Has(m, p, image) && e in Current(m, p).value.signatures)
  }

  /** Marks for a collection in progress apart, a request that is turned down changes nothing. */
  predicate OnlyMarked(m: Meta, n: Meta, image: ImageId) {
    && n.writing == m.writing && n.files == m.files && n.indexes == m.indexes && n.phase == m.phase
    && n.collecting == if m.collecting.Some? then Some(m.collecting.value + {image}) else None
  }

  lemma RequestedEntries(image: ImageId, timestamp: nat, signatures: seq<nat>)
    ensures Sorted(Requested(image, timestamp, signatures).signatures)
    ensures forall e :: e in Requested(image, timestamp, signatures).signatures <==> e in Entries(timestamp, signatures)
  {
    var entries := Entries(timestamp, signatures);
    forall e ensures e in Sort(entries) <==> e in entries {
      assert e in multiset(Sort(entries)) <==> e in multiset(entries);
    }
  }

  lemma JoinedEntries(current: seq<Entry>, incoming: seq<Entry>)
    requires Sorted(incoming)
    ensures Sorted(MergeUnlessEqual(current, incoming))
    ensures forall e :: e in MergeUnlessEqual(current, incoming) <==> e in current || e in incoming
    ensures forall e :: e in Merge(current, incoming) <==> e in current || e in incoming
  {
    MergeMembers(current, incoming);
  }

  /** The entries that count already: those the path has for the same image. */
  function Before(m: Meta, p: VPath, image: ImageId): seq<Entry> {
    if Has(m, p, image) then Current(m, p).value.signatures else []
  }

  lemma AppliedIsRecorded(m: Meta, p: VPath, state: State, effect: Effect, entries: seq<Entry>)
    requires Plain(p) && Applicable(m, p, effect) && !effect.Nothing?
    requires effect.Joining? || effect.Resigning? <==> Has(m, p, state.image)
    requires Sorted(state.signatures) && forall e :: e in state.signatures <==> e in entries
    ensures OnRecord(m, Apply(m, p, state, effect), p, state.image, entries)
  {
    PlainNamesApart(p, p);
    JoinedEntries(Before(m, p, state.image), state.signatures);
  }

  /** An accepted append is on record with all its signatures, and one that is not changes nothing. */
  lemma AppendIsRecorded(cfg: Config, m: Meta, r: AppendDir, trusted: set<nat>)
    requires Plain(r.path)
    ensures var (n, answer) := StartAppend(cfg, m, r, trusted);
            if answer.Accepted? then OnRecord(m, n, r.path, r.image, Entries(r.timestamp, r.signatures))
            else OnlyMarked(m, n, r.image)
  {
    RequestedEntries(r.image, r.timestamp, r.signatures);
    var d, marked := DecideAppend(cfg, m, r, trusted), MarkUsed(m, r.image);
    if !d.effect.Nothing? {
      AppliedIsRecorded(marked, r.path, Requested(r.image, r.timestamp, r.signatures), d.effect,
                        Entries(r.timestamp, r.signatures));
    }
  }

  /** The same for a replace. */
  lemma ReplaceIsRecorded(cfg: Config, m: Meta, r: ReplaceDir, trusted: set<nat>)
    requires Plain(r.path)
    ensures var (n, answer) := StartReplace(cfg, m, r, trusted);
            if answer.Accepted? then OnRecord(m, n, r.path, r.image, Entries(r.timestamp, r.signatures))
            else OnlyMarked(m, n, r.image)
  {
    RequestedEntries(r.image, r.timestamp, r.signatures);
    var d, marked := DecideReplace(cfg, m, r, trusted), MarkUsed(m, r.image);
    if !d.effect.Nothing? {
      AppliedIsRecorded(marked, r.path, Requested(r.image, r.timestamp, r.signatures), d.effect,
                        Entries(r.timestamp, r.signatures));
    }
  }

  // ---- Resuming, removing, ending ----

  /** The record a resume takes up: the committed one if there is one. */
  function Resumable(m: Meta, p: VPath): Option<State>
    requires p.suffix != []
  {
    if StateFile(p) in m.files then Some(m.files[StateFile(p)])
    else if NewStateFile(p) in m.files then Some(m.files[NewStateFile(p)])
    else None
  }

  /** A resume succeeds whenever the path is in no upload and has either record, and takes that record up as it is. */
  lemma ResumeAnswer(cfg: Config, m: Meta, p: VPath)
    requires p.suffix != []
    ensures var (n, answer) := Resume(cfg, m, p);
            var fits := p.key in cfg && |p.suffix| == cfg[p.key].numLevels;
            && (answer.Resuming? <==> fits && p !in m.writing && Resumable(m, p).Some?)
            && (answer == NotResumed(PathNotFound) <==> p.key !in cfg)
            && (answer == NotResumed(LevelMismatch) <==> p.key in cfg && !fits)
            && (answer == NotResumed(ResumeConflict) <==> fits && p in m.writing)
            && (answer == NotResumed(ResumeNoFile) <==> fits && p !in m.writing && Resumable(m, p).None?)
            && (answer.NotResumed? ==> n == m)
            && (answer.Resuming? ==>
                  var taken := Resumable(m, p).value;
                  && answer.image == taken.image
                  && n.writing == m.writing[p := Writing(taken.image, taken.signatures, false)]
                  && n.files == (m.files - {StateFile(p)})[NewStateFile(p) := taken])
  {
    RecordNamesApart(p, p);
    assert p.FinalName() != p.FinalName() + NEW by {
      assert |p.FinalName() + NEW| == |p.FinalName()| + 4;
    }
    if Resumable(m, p).Some? {
      assert StateFile(p) !in m.files ==> m.files - {StateFile(p)} == m.files;
      assert StateFile(p) !in m.files ==> m.files[NewStateFile(p) := m.files[NewStateFile(p)]] == m.files;
    }
  }

  /** A record is removed exactly when it is there, in no upload, and has not been written since. */
  lemma RemoveAnswer(m: Meta, p: VPath, fresher: bool)
    requires p.suffix != []
    ensures var (n, answer) := RemoveStateFile(m, p, fresher);
            && (answer == Removed.Done <==> p !in m.writing && StateFile(p) in m.files && !fresher)
            && (answer == NotRemoved(CleanupCanceled) <==> p in m.writing || (StateFile(p) in m.files && fresher))
            && (answer == NotRemoved(FileWasVanished) <==> p !in m.writing && StateFile(p) !in m.files)
            && n == if answer == Removed.Done then m.(files := m.files - {StateFile(p)}) else m
  {
  }

  /** A commit or abort without an upload changes nothing. */
  lemma SpuriousEndingsChangeNothing(m: Meta, p: VPath)
    requires p !in m.writing
    ensures Abort(m, p) == m && Commit(m, p) == m
  {
  }
}
