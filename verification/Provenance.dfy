/**
 Where the records come from: whatever a node has written for a path was asked for, in a request for that path
 and that very image which passed the checks.
 */
module Provenance {
  import opened Wrappers
  import opened Signatures
  import opened Names
  import opened Metadata
  import opened Transactions
  import opened Answers
  import opened Uploads

  /** The step is a request that brings this signature entry for this image at this path. */
  predicate Vouches(cfg: Config, step: Step, p: VPath, image: ImageId, e: Entry) {
    match step
    case AppendStep(r, trusted) =>
      && r.path == p && r.image == image && e.timestamp == r.timestamp && e.signature in r.signatures
      && Passes(cfg, p, r.signatures, trusted, false)
    case ReplaceStep(r, trusted) =>
      && r.path == p && r.image == image && e.timestamp == r.timestamp && e.signature in r.signatures
      && Passes(cfg, p, r.signatures, trusted, true)
    case _ => false
  }

  predicate VouchedEntry(cfg: Config, steps: seq<Step>, p: VPath, image: ImageId, e: Entry) {
    exists i :: 0 <= i < |steps| && Vouches(cfg, steps[i], p, image, e)
  }

  /** Every signature of a record was brought by one of the steps. */
  ghost predicate Vouched(cfg: Config, steps: seq<Step>, p: VPath, state: State) {
    forall e :: e in state.signatures ==> VouchedEntry(cfg, steps, p, state.image, e)
  }

  /** All that the node holds for one path. */
  ghost predicate SourcedAt(cfg: Config, steps: seq<Step>, m: Meta, p: VPath)
    requires p.suffix != []
  {
    && (p in m.writing ==> Vouched(cfg, steps, p, State(m.writing[p].image, m.writing[p].signatures)))
    && (StateFile(p) in m.files ==> Vouched(cfg, steps, p, m.files[StateFile(p)]))
    && (NewStateFile(p) in m.files ==> Vouched(cfg, steps, p, m.files[NewStateFile(p)]))
  }

  lemma VouchedLater(cfg: Config, steps: seq<Step>, step: Step, p: VPath, state: State)
    requires Vouched(cfg, steps, p, state)
    ensures Vouched(cfg, steps + [step], p, state)
  {
    forall e | e in state.signatures ensures VouchedEntry(cfg, steps + [step], p, state.image, e) {
      assert VouchedEntry(cfg, steps, p, state.image, e);
      var i :| 0 <= i < |steps| && Vouches(cfg, steps[i], p, state.image, e);
      assert (steps + [step])[i] == steps[i];
    }
  }

  lemma SourcedLater(cfg: Config, steps: seq<Step>, step: Step, m: Meta, p: VPath)
    requires p.suffix != [] && SourcedAt(cfg, steps, m, p)
    ensures SourcedAt(cfg, steps + [step], m, p)
  {
    if p in m.writing {
      VouchedLater(cfg, steps, step, p, State(m.writing[p].image, m.writing[p].signatures));
    }
    if StateFile(p) in m.files {
      VouchedLater(cfg, steps, step, p, m.files[StateFile(p)]);
    }
    if NewStateFile(p) in m.files {
      VouchedLater(cfg, steps, step, p, m.files[NewStateFile(p)]);
    }
  }

  /** Nothing was added for the path. */
  predicate NothingNew(m: Meta, n: Meta, p: VPath)
    requires p.suffix != []
  {
    && (p in n.writing ==> p in m.writing && n.writing[p] == m.writing[p])
    && (StateFile(p) in n.files ==> StateFile(p) in m.files && n.files[StateFile(p)] == m.files[StateFile(p)])
    && (NewStateFile(p) in n.files ==>
          NewStateFile(p) in m.files && n.files[NewStateFile(p)] == m.files[NewStateFile(p)])
  }

  lemma ApplyAddsNothingElsewhere(m: Meta, q: VPath, state: State, effect: Effect, p: VPath)
    requires Plain(p) && Plain(q) && p != q && Applicable(m, q, effect)
    ensures NothingNew(m, Apply(m, q, state, effect), p)
  {
    PlainNamesApart(p, q);
    PlainNamesApart(q, p);
  }

  lemma AppendAddsNothingElsewhere(cfg: Config, m: Meta, r: AppendDir, trusted: set<nat>, p: VPath)
    requires Plain(p) && Plain(r.path) && p != r.path
    ensures NothingNew(m, StartAppend(cfg, m, r, trusted).0, p)
  {
    ApplyAddsNothingElsewhere(MarkUsed(m, r.image), r.path, Requested(r.image, r.timestamp, r.signatures),
                              DecideAppend(cfg, m, r, trusted).effect, p);
  }

  lemma ReplaceAddsNothingElsewhere(cfg: Config, m: Meta, r: ReplaceDir, trusted: set<nat>, p: VPath)
    requires Plain(p) && Plain(r.path) && p != r.path
    ensures NothingNew(m, StartReplace(cfg, m, r, trusted).0, p)
  {
    ApplyAddsNothingElsewhere(MarkUsed(m, r.image), r.path, Requested(r.image, r.timestamp, r.signatures),
                              DecideReplace(cfg, m, r, trusted).effect, p);
  }

  lemma OthersAddNothing(cfg: Config, m: Meta, q: VPath, p: VPath, fresher: bool)
    requires Plain(p) && Plain(q) && p != q
    ensures NothingNew(m, Resume(cfg, m, q).0, p) && NothingNew(m, Abort(m, q), p)
    ensures NothingNew(m, Commit(m, q), p) && NothingNew(m, RemoveStateFile(m, q, fresher).0, p)
  {
    PlainNamesApart(p, q);
    PlainNamesApart(q, p);
  }

  // ---- A request for the path itself ----

  /** What an accepted request left at its path is vouched for. */
  lemma OnRecordIsVouched(cfg: Config, steps: seq<Step>, step: Step, m: Meta, n: Meta, p: VPath, image: ImageId,
                          entries: seq<Entry>)
    requires p.suffix != [] && SourcedAt(cfg, steps, m, p) && OnRecord(m, n, p, image, entries)
    requires forall e :: e in entries ==> Vouches(cfg, step, p, image, e)
    ensures Vouched(cfg, steps + [step], p, Current(n, p).value)
  {
    SourcedLater(cfg, steps, step, m, p);
    forall e | e in Current(n, p).value.signatures ensures VouchedEntry(cfg, steps + [step], p, image, e) {
      if e in entries {
        assert (steps + [step])[|steps|] == step;
      } else {
        assert Vouched(cfg, steps + [step], p, Current(m, p).value);
      }
    }
  }

  /** The record that an accepted request does not write is as it was. */
  lemma AppliedElsewhere(m: Meta, p: VPath, state: State, effect: Effect)
    requires Plain(p) && Applicable(m, p, effect) && !effect.Nothing?
    ensures var n := Apply(m, p, state, effect);
            && (effect.Resigning? <==> p !in n.writing)
            && (effect.Resigning? ==> (NewStateFile(p) in n.files ==>
                  NewStateFile(p) in m.files && n.files[NewStateFile(p)] == m.files[NewStateFile(p)]))
            && (!effect.Resigning? ==> (StateFile(p) in n.files ==>
                  StateFile(p) in m.files && n.files[StateFile(p)] == m.files[StateFile(p)]))
  {
    PlainNamesApart(p, p);
  }

  lemma EntriesAreRequested(timestamp: nat, signatures: seq<nat>, e: Entry)
    requires e in Entries(timestamp, signatures)
    ensures e.timestamp == timestamp && e.signature in signatures
  {
  }

  lemma RequestIsVouched(cfg: Config, steps: seq<Step>, step: Step, m: Meta, p: VPath, effect: Effect,
                         image: ImageId, timestamp: nat, signatures: seq<nat>)
    requires Plain(p) && SourcedAt(cfg, steps, m, p)
    requires Applicable(m, p, effect) && !effect.Nothing?
    requires OnRecord(m, Apply(m, p, Requested(image, timestamp, signatures), effect), p, image,
                      Entries(timestamp, signatures))
    requires forall e :: e in Entries(timestamp, signatures) ==> Vouches(cfg, step, p, image, e)
    ensures SourcedAt(cfg, steps + [step], Apply(m, p, Requested(image, timestamp, signatures), effect), p)
  {
    var n := Apply(m, p, Requested(image, timestamp, signatures), effect);
    OnRecordIsVouched(cfg, steps, step, m, n, p, image, Entries(timestamp, signatures));
    AppliedElsewhere(m, p, Requested(image, timestamp, signatures), effect);
    SourcedLater(cfg, steps, step, m, p);
  }

  lemma AppendIsVouched(cfg: Config, steps: seq<Step>, m: Meta, r: AppendDir, trusted: set<nat>)
    requires Plain(r.path) && SourcedAt(cfg, steps, m, r.path)
    ensures SourcedAt(cfg, steps + [AppendStep(r, trusted)], StartAppend(cfg, m, r, trusted).0, r.path)
  {
    var step, marked, d := AppendStep(r, trusted), MarkUsed(m, r.image), DecideAppend(cfg, m, r, trusted);
    AppendAnswer(cfg, m, r, trusted);
    AppendIsRecorded(cfg, m, r, trusted);
    if d.effect.Nothing? {
      SourcedLater(cfg, steps, step, m, r.path);
    } else {
      assert SourcedAt(cfg, steps, marked, r.path);
      forall e | e in Entries(r.timestamp, r.signatures) ensures Vouches(cfg, step, r.path, r.image, e) {
        EntriesAreRequested(r.timestamp, r.signatures, e);
      }
      RequestIsVouched(cfg, steps, step, marked, r.path, d.effect, r.image, r.timestamp, r.signatures);
    }
  }

  lemma ReplaceIsVouched(cfg: Config, steps: seq<Step>, m: Meta, r: ReplaceDir, trusted: set<nat>)
    requires Plain(r.path) && SourcedAt(cfg, steps, m, r.path)
    ensures SourcedAt(cfg, steps + [ReplaceStep(r, trusted)], StartReplace(cfg, m, r, trusted).0, r.path)
  {
    var step, marked, d := ReplaceStep(r, trusted), MarkUsed(m, r.image), DecideReplace(cfg, m, r, trusted);
    ReplaceAnswer(cfg, m, r, trusted);
    ReplaceIsRecorded(cfg, m, r, trusted);
    if d.effect.Nothing? {
      SourcedLater(cfg, steps, step, m, r.path);
    } else {
      assert SourcedAt(cfg, steps, marked, r.path);
      forall e | e in Entries(r.timestamp, r.signatures) ensures Vouches(cfg, step, r.path, r.image, e) {
        EntriesAreRequested(r.timestamp, r.signatures, e);
      }
      RequestIsVouched(cfg, steps, step, marked, r.path, d.effect, r.image, r.timestamp, r.signatures);
    }
  }

  // ---- Steps and runs ----

  lemma OwnStepIsSourced(cfg: Config, steps: seq<Step>, m: Meta, step: Step, p: VPath)
    requires Inv(cfg, m) && Plain(p) && SourcedAt(cfg, steps, m, p)
    requires || step == ResumeStep(p) || step == AbortStep(p) || step == CommitStep(p)
             || (step.RemoveStep? && step.path == p)
    ensures SourcedAt(cfg, steps + [step], Next(cfg, m, step), p)
  {
    PlainNamesApart(p, p);
    SourcedLater(cfg, steps, step, m, p);
    if p in m.writing {
      assert InFlight(cfg, m, p);
    }
    ResumeAnswer(cfg, m, p);
  }

  lemma ForeignStepAddsNothing(cfg: Config, m: Meta, step: Step, q: VPath, p: VPath)
    requires Admissible(step) && Plain(p) && Plain(q) && p != q && Target(step) == Some(q)
    ensures NothingNew(m, Next(cfg, m, step), p)
  {
    match step
    case AppendStep(r, trusted) => AppendAddsNothingElsewhere(cfg, m, r, trusted, p);
    case ReplaceStep(r, trusted) => ReplaceAddsNothingElsewhere(cfg, m, r, trusted, p);
    case RemoveStep(_, fresher) => OthersAddNothing(cfg, m, q, p, fresher);
    case _ => OthersAddNothing(cfg, m, q, p, false);
  }

  /** The path that a step is about. */
  function Target(step: Step): Option<VPath> {
    match step
    case AppendStep(r, _) => Some(r.path)
    case ReplaceStep(r, _) => Some(r.path)
    case ResumeStep(q) => Some(q)
    case AbortStep(q) => Some(q)
    case CommitStep(q) => Some(q)
    case RemoveStep(q, _) => Some(q)
    case _ => None
  }

  lemma UntargetedStepAddsNothing(cfg: Config, m: Meta, step: Step, p: VPath)
    requires Admissible(step) && p.suffix != [] && Target(step) == None
    ensures NothingNew(m, Next(cfg, m, step), p)
  {
  }

  lemma NothingNewIsSourced(cfg: Config, steps: seq<Step>, m: Meta, n: Meta, p: VPath)
    requires p.suffix != [] && SourcedAt(cfg, steps, m, p) && NothingNew(m, n, p)
    ensures SourcedAt(cfg, steps, n, p)
  {
  }

  lemma StepIsSourced(cfg: Config, steps: seq<Step>, m: Meta, step: Step, p: VPath)
    requires Inv(cfg, m) && Admissible(step) && Plain(p) && SourcedAt(cfg, steps, m, p)
    ensures SourcedAt(cfg, steps + [step], Next(cfg, m, step), p)
  {
    if Target(step) == Some(p) {
      match step
      case AppendStep(r, trusted) => AppendIsVouched(cfg, steps, m, r, trusted);
      case ReplaceStep(r, trusted) => ReplaceIsVouched(cfg, steps, m, r, trusted);
      case _ => OwnStepIsSourced(cfg, steps, m, step, p);
    } else {
      if Target(step).Some? {
        ForeignStepAddsNothing(cfg, m, step, Target(step).value, p);
      } else {
        UntargetedStepAddsNothing(cfg, m, step, p);
      }
      SourcedLater(cfg, steps, step, m, p);
      NothingNewIsSourced(cfg, steps + [step], m, Next(cfg, m, step), p);
    }
  }

  /**
   In every run, restarts and resumes included, each signature of an upload in flight or of a record on disk was
   brought by a request of that run for that path and exactly that image, which passed the checks: the depth, a
   signature that verifies, and, for a replace, a directory that is not append-only.
   */
  lemma {:induction false} RunIsSourced(cfg: Config, steps: seq<Step>, p: VPath)
    requires AllAdmissible(steps) && Plain(p)
    ensures SourcedAt(cfg, steps, Run(cfg, EMPTY, steps), p)
    decreases |steps|
  {
    if steps != [] {
      var before, last := steps[..|steps| - 1], steps[|steps| - 1];
      RunIsSourced(cfg, before, p);
      RunKeepsInv(cfg, before);
      assert steps == before + [last];
      StepIsSourced(cfg, before, Run(cfg, EMPTY, before), last, p);
    }
  }

  /** So an image is in flight or committed at a path only if some request asked for it there. */
  lemma HeldImageWasAskedFor(cfg: Config, steps: seq<Step>, p: VPath)
    requires AllAdmissible(steps) && Plain(p) && Current(Run(cfg, EMPTY, steps), p).Some?
    ensures exists i, e :: 0 <= i < |steps|
                           && Vouches(cfg, steps[i], p, Current(Run(cfg, EMPTY, steps), p).value.image, e)
  {
    var m := Run(cfg, EMPTY, steps);
    RunIsSourced(cfg, steps, p);
    RunKeepsInv(cfg, steps);
    var state := Current(m, p).value;
    if p in m.writing {
      assert InFlight(cfg, m, p);
      assert Metadata.Recorded(cfg, m, NewStateFile(p));
    } else {
      assert Metadata.Recorded(cfg, m, StateFile(p));
    }
    assert state.signatures[0] in state.signatures;
    assert VouchedEntry(cfg, steps, p, state.image, state.signatures[0]);
  }
}
