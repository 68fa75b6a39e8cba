/**
 What an upload may rely on between its acceptance and its commit or abort, whatever other requests,
 scans, removals and collections run in between.
 */
module Uploads {
  import opened Wrappers
  import opened Signatures
  import opened Names
  import opened Metadata
  import opened Transactions
  import opened Answers

  /** The committed record of a path, if it has one. */
  function Committed(m: Meta, p: VPath): Option<State>
    requires p.suffix != []
  {
    if StateFile(p) in m.files then Some(m.files[StateFile(p)]) else None
  }

  /** A step that ends the upload of `p`, or loses it in a restart. */
  predicate Ends(step: Step, p: VPath) {
    step == AbortStep(p) || step == CommitStep(p) || step == CrashStep
  }

  predicate Undisturbed(steps: seq<Step>, p: VPath) {
    AllAdmissible(steps) && forall i :: 0 <= i < |steps| ==> !Ends(steps[i], p)
  }

  /** The entries a step adds to the upload of `p`: those of a request for its very image that passes the checks. */
  function Contribution(cfg: Config, m: Meta, step: Step, p: VPath): Option<seq<Entry>> {
    match step
    case AppendStep(r, trusted) =>
      if r.path == p && p in m.writing && m.writing[p].image == r.image && Passes(cfg, p, r.signatures, trusted, false)
      then Some(Entries(r.timestamp, r.signatures)) else None
    case ReplaceStep(r, trusted) =>
      if r.path == p && p in m.writing && m.writing[p].image == r.image && Passes(cfg, p, r.signatures, trusted, true)
      then Some(Entries(r.timestamp, r.signatures)) else None
    case _ => None
  }

  function Contributions(cfg: Config, m: Meta, steps: seq<Step>, p: VPath): seq<seq<Entry>>
    requires AllAdmissible(steps)
    decreases |steps|
  {
    if steps == [] then []
    else
      var before := steps[..|steps| - 1];
      var c := Contribution(cfg, Run(cfg, m, before), steps[|steps| - 1], p);
      Contributions(cfg, m, before, p) + if c.Some? then [c.value] else []
  }

  // ---- One step ----

  /** Nothing that concerns `p` differs. */
  predicate Same(m: Meta, n: Meta, p: VPath)
    requires p.suffix != []
  {
    && Committed(n, p) == Committed(m, p)
    && (p in n.writing <==> p in m.writing)
    && (p in m.writing ==> n.writing[p] == m.writing[p])
  }

  lemma ApplyElsewhere(m: Meta, q: VPath, state: State, effect: Effect, p: VPath)
    requires Plain(p) && Plain(q) && p != q && Applicable(m, q, effect)
    ensures Same(m, Apply(m, q, state, effect), p)
  {
    PlainNamesApart(p, q);
    PlainNamesApart(q, p);
  }

  lemma EndingsElsewhere(m: Meta, p: VPath, q: VPath, fresher: bool)
    requires Plain(p) && Plain(q) && p != q
    ensures Same(m, Abort(m, q), p) && Same(m, Commit(m, q), p) && Same(m, RemoveStateFile(m, q, fresher).0, p)
  {
    PlainNamesApart(p, q);
    PlainNamesApart(q, p);
  }

  lemma ResumeElsewhere(cfg: Config, m: Meta, p: VPath, q: VPath)
    requires Plain(p) && Plain(q) && p != q
    ensures Same(m, Resume(cfg, m, q).0, p)
  {
    PlainNamesApart(p, q);
    PlainNamesApart(q, p);
  }

  lemma OtherPathsUntouched(cfg: Config, m: Meta, step: Step, p: VPath, q: VPath)
    requires Admissible(step) && Plain(p) && Plain(q) && p != q
    requires || (step.AppendStep? && step.append.path == q) || (step.ReplaceStep? && step.replace_.path == q)
             || step == ResumeStep(q) || step == AbortStep(q) || step == CommitStep(q)
             || (step.RemoveStep? && step.path == q)
    ensures Same(m, Next(cfg, m, step), p)
  {
    match step
    case AppendStep(r, trusted) =>
      var marked := MarkUsed(m, r.image);
      ApplyElsewhere(marked, q, Requested(r.image, r.timestamp, r.signatures),
                     DecideAppend(cfg, m, r, trusted).effect, p);
    case ReplaceStep(r, trusted) =>
      var marked := MarkUsed(m, r.image);
      ApplyElsewhere(marked, q, Requested(r.image, r.timestamp, r.signatures),
                     DecideReplace(cfg, m, r, trusted).effect, p);
    case ResumeStep(_) => ResumeElsewhere(cfg, m, p, q);
    case RemoveStep(_, fresher) => EndingsElsewhere(m, p, q, fresher);
    case _ => EndingsElsewhere(m, p, q, false);
  }

  lemma ScanSparesCommitted(cfg: Config, m: Meta, dir: VPath, p: VPath)
    requires Inv(cfg, m) && Plain(p)
    ensures Committed(ScanStates(m, dir), p) == Committed(m, p)
  {
    NotInFlightName(p);
    if StateFile(p) in m.files {
      assert Recorded(cfg, m, StateFile(p));
    }
  }

  lemma ApplyHere(m: Meta, p: VPath, state: State, effect: Effect)
    requires Plain(p) && Applicable(m, p, effect) && !effect.Resigning?
    ensures Committed(Apply(m, p, state, effect), p) == Committed(m, p)
    ensures effect.Beginning? ==>
              && p in Apply(m, p, state, effect).writing
              && Apply(m, p, state, effect).writing[p] == Writing(state.image, state.signatures, effect.replacing)
    ensures effect.Joining? ==>
              && p in Apply(m, p, state, effect).writing
              && Apply(m, p, state, effect).writing[p]
                 == m.writing[p].(signatures := MergeUnlessEqual(m.writing[p].signatures, state.signatures))
  {
    PlainNamesApart(p, p);
  }

  /** The upload of `p` after a request for it. */
  function Joined(w: Writing, contribution: Option<seq<Entry>>): Writing {
    match contribution
    case Some(request) => w.(signatures := MergeRequest(w.signatures, request))
    case None => w
  }

  lemma AppendForUpload(cfg: Config, m: Meta, r: AppendDir, trusted: set<nat>)
    requires Plain(r.path) && r.path in m.writing
    ensures var n := StartAppend(cfg, m, r, trusted).0;
            && Committed(n, r.path) == Committed(m, r.path)
            && r.path in n.writing
            && n.writing[r.path] == Joined(m.writing[r.path], Contribution(cfg, m, AppendStep(r, trusted), r.path))
  {
    AppendAnswer(cfg, m, r, trusted);
    var marked := MarkUsed(m, r.image);
    ApplyHere(marked, r.path, Requested(r.image, r.timestamp, r.signatures),
              DecideAppend(cfg, m, r, trusted).effect);
  }

  lemma ReplaceForUpload(cfg: Config, m: Meta, r: ReplaceDir, trusted: set<nat>)
    requires Plain(r.path) && r.path in m.writing
    ensures var n := StartReplace(cfg, m, r, trusted).0;
            && Committed(n, r.path) == Committed(m, r.path)
            && r.path in n.writing
            && n.writing[r.path] == Joined(m.writing[r.path], Contribution(cfg, m, ReplaceStep(r, trusted), r.path))
  {
    ReplaceAnswer(cfg, m, r, trusted);
    var marked := MarkUsed(m, r.image);
    ApplyHere(marked, r.path, Requested(r.image, r.timestamp, r.signatures),
              DecideReplace(cfg, m, r, trusted).effect);
  }

  /** One step that does not end it leaves an upload in flight and its committed record alone. */
  lemma UploadSurvivesStep(cfg: Config, m: Meta, step: Step, p: VPath)
    requires Inv(cfg, m) && Admissible(step) && Plain(p) && p in m.writing
    requires !Ends(step, p)
    ensures p in Next(cfg, m, step).writing
    ensures Committed(Next(cfg, m, step), p) == Committed(m, p)
    ensures Next(cfg, m, step).writing[p] == Joined(m.writing[p], Contribution(cfg, m, step, p))
  {
    match step
    case AppendStep(r, trusted) =>
      if r.path == p { AppendForUpload(cfg, m, r, trusted); } else { OtherPathsUntouched(cfg, m, step, p, r.path); }
    case ReplaceStep(r, trusted) =>
      if r.path == p { ReplaceForUpload(cfg, m, r, trusted); } else { OtherPathsUntouched(cfg, m, step, p, r.path); }
    case ResumeStep(q) => if q != p { OtherPathsUntouched(cfg, m, step, p, q); }
    case AbortStep(q) => OtherPathsUntouched(cfg, m, step, p, q);
    case CommitStep(q) => OtherPathsUntouched(cfg, m, step, p, q);
    case RemoveStep(q, _) => if q != p { OtherPathsUntouched(cfg, m, step, p, q); }
    case ScanStep(dir) => ScanSparesCommitted(cfg, m, dir, p);
    case _ =>
  }

  // ---- Whole uploads ----

  /** One more accepted request is merged into what was accepted before it. */
  lemma AcceptedGrows(w: Writing, first: seq<Entry>, earlier: seq<seq<Entry>>, c: Option<seq<Entry>>)
    requires w.signatures == AcceptAll([first] + earlier)
    ensures Joined(w, c).signatures == AcceptAll([first] + (earlier + if c.Some? then [c.value] else []))
  {
    var lists := [first] + earlier;
    if c.Some? {
      assert [first] + (earlier + [c.value]) == lists + [c.value];
      assert (lists + [c.value])[..|lists|] == lists;
    } else {
      assert [first] + (earlier + []) == lists;
    }
  }

  /**
   From acceptance to commit or abort: the upload stays in the table with its image, the committed
   record does not change, and the signatures are exactly the first request's merged with those of
   every request accepted as in progress.
   */
  lemma {:induction false} UploadSurvivesRun(cfg: Config, m: Meta, steps: seq<Step>, p: VPath, first: seq<Entry>)
    requires Inv(cfg, m) && Plain(p) && p in m.writing && Undisturbed(steps, p)
    requires m.writing[p].signatures == Sort(first)
    ensures Inv(cfg, Run(cfg, m, steps))
    ensures p in Run(cfg, m, steps).writing
    ensures Committed(Run(cfg, m, steps), p) == Committed(m, p)
    ensures Run(cfg, m, steps).writing[p].image == m.writing[p].image
    ensures Run(cfg, m, steps).writing[p].replacing == m.writing[p].replacing
    ensures Run(cfg, m, steps).writing[p].signatures == AcceptAll([first] + Contributions(cfg, m, steps, p))
    decreases |steps|
  {
    if steps == [] {
      assert [first] + Contributions(cfg, m, steps, p) == [first];
    } else {
      var before, last := steps[..|steps| - 1], steps[|steps| - 1];
      var mid := Run(cfg, m, before);
      UploadSurvivesRun(cfg, m, before, p, first);
      NextKeepsInv(cfg, mid, last);
      UploadSurvivesStep(cfg, mid, last, p);
      AcceptedGrows(mid.writing[p], first, Contributions(cfg, m, before, p), Contribution(cfg, mid, last, p));
    }
  }

  /** The state right after a request was accepted as new. */
  lemma AcceptedAsNew(cfg: Config, m: Meta, step: Step, p: VPath, image: ImageId, first: seq<Entry>)
    requires Inv(cfg, m) && Admissible(step)
    requires || (step.AppendStep? && step.append.path == p && step.append.image == image
                 && first == Entries(step.append.timestamp, step.append.signatures)
                 && DecideAppend(cfg, m, step.append, step.trusted).answer == Accepted(New))
             || (step.ReplaceStep? && step.replace_.path == p && step.replace_.image == image
                 && first == Entries(step.replace_.timestamp, step.replace_.signatures)
                 && DecideReplace(cfg, m, step.replace_, step.trusted).answer == Accepted(New))
    ensures Inv(cfg, Next(cfg, m, step))
    ensures p !in m.writing && p in Next(cfg, m, step).writing
    ensures Committed(Next(cfg, m, step), p) == Committed(m, p)
    ensures Next(cfg, m, step).writing[p] == Writing(image, Sort(first), Committed(m, p).Some?)
  {
    NextKeepsInv(cfg, m, step);
    var marked := MarkUsed(m, image);
    match step
    case AppendStep(r, trusted) =>
      ApplyHere(marked, p, Requested(r.image, r.timestamp, r.signatures), DecideAppend(cfg, m, r, trusted).effect);
    case ReplaceStep(r, trusted) =>
      ApplyHere(marked, p, Requested(r.image, r.timestamp, r.signatures), DecideReplace(cfg, m, r, trusted).effect);
  }

  /**
   No lost update: when an accepted replace commits, the record it overwrites is still the one it was
   checked against; with `oldImage` given that is a record of exactly that image, or none at all. The
   record left carries the new image and every signature accepted on the way.
   */
  lemma ReplaceOverwritesWhatItChecked(cfg: Config, m: Meta, r: ReplaceDir, trusted: set<nat>, steps: seq<Step>)
    requires Inv(cfg, m) && Plain(r.path)
    requires DecideReplace(cfg, m, r, trusted).answer == Accepted(New)
    requires Undisturbed(steps, r.path)
    ensures var accepted := StartReplace(cfg, m, r, trusted).0;
            var n := Run(cfg, accepted, steps);
            && Committed(n, r.path) == Committed(m, r.path)
            && (r.oldImage.Some? && Committed(n, r.path).Some? ==>
                  Committed(n, r.path).value.image == r.oldImage.value)
            && Committed(Commit(n, r.path), r.path)
               == Some(State(r.image, AcceptAll([Entries(r.timestamp, r.signatures)]
                                                + Contributions(cfg, accepted, steps, r.path))))
            && r.path !in Commit(n, r.path).writing
            && NewStateFile(r.path) !in Commit(n, r.path).files
  {
    var p, first := r.path, Entries(r.timestamp, r.signatures);
    AcceptedAsNew(cfg, m, ReplaceStep(r, trusted), p, r.image, first);
    var accepted := StartReplace(cfg, m, r, trusted).0;
    UploadSurvivesRun(cfg, accepted, steps, p, first);
    assert InFlight(cfg, Run(cfg, accepted, steps), p);
    PlainNamesApart(p, p);
  }

  /** The same for an append, which finds no record and leaves one. */
  lemma AppendCommitsItsImage(cfg: Config, m: Meta, r: AppendDir, trusted: set<nat>, steps: seq<Step>)
    requires Inv(cfg, m) && Plain(r.path)
    requires DecideAppend(cfg, m, r, trusted).answer == Accepted(New)
    requires Undisturbed(steps, r.path)
    ensures var accepted := StartAppend(cfg, m, r, trusted).0;
            var n := Run(cfg, accepted, steps);
            && Committed(m, r.path) == Committed(n, r.path) == None
            && Committed(Commit(n, r.path), r.path)
               == Some(State(r.image, AcceptAll([Entries(r.timestamp, r.signatures)]
                                                + Contributions(cfg, accepted, steps, r.path))))
  {
    var p, first := r.path, Entries(r.timestamp, r.signatures);
    AcceptedAsNew(cfg, m, AppendStep(r, trusted), p, r.image, first);
    var accepted := StartAppend(cfg, m, r, trusted).0;
    UploadSurvivesRun(cfg, accepted, steps, p, first);
    assert InFlight(cfg, Run(cfg, accepted, steps), p);
    PlainNamesApart(p, p);
  }

  /** Rollback: aborting an accepted append or replace leaves the record that was there before it. */
  lemma AbortRestoresTheRecord(cfg: Config, m: Meta, step: Step, p: VPath, steps: seq<Step>)
    requires Inv(cfg, m) && Admissible(step) && Undisturbed(steps, p)
    requires || (step.AppendStep? && step.append.path == p
                 && DecideAppend(cfg, m, step.append, step.trusted).answer == Accepted(New))
             || (step.ReplaceStep? && step.replace_.path == p
                 && DecideReplace(cfg, m, step.replace_, step.trusted).answer == Accepted(New))
    ensures var n := Run(cfg, Next(cfg, m, step), steps);
            && Committed(Abort(n, p), p) == Committed(m, p)
            && p !in Abort(n, p).writing
            && NewStateFile(p) !in Abort(n, p).files
  {
    var image := if step.AppendStep? then step.append.image else step.replace_.image;
    var first := if step.AppendStep? then Entries(step.append.timestamp, step.append.signatures)
                 else Entries(step.replace_.timestamp, step.replace_.signatures);
    AcceptedAsNew(cfg, m, step, p, image, first);
    UploadSurvivesRun(cfg, Next(cfg, m, step), steps, p, first);
    PlainNamesApart(p, p);
  }

  /** The committed record alone, for an upload that began in any way. */
  lemma {:induction false} RecordSurvivesRun(cfg: Config, m: Meta, steps: seq<Step>, p: VPath)
    requires Inv(cfg, m) && Plain(p) && p in m.writing && Undisturbed(steps, p)
    ensures Inv(cfg, Run(cfg, m, steps)) && p in Run(cfg, m, steps).writing
    ensures Committed(Run(cfg, m, steps), p) == Committed(m, p)
    ensures Run(cfg, m, steps).writing[p].image == m.writing[p].image
    decreases |steps|
  {
    if steps != [] {
      var before, last := steps[..|steps| - 1], steps[|steps| - 1];
      RecordSurvivesRun(cfg, m, before, p);
      NextKeepsInv(cfg, Run(cfg, m, before), last);
      UploadSurvivesStep(cfg, Run(cfg, m, before), last, p);
    }
  }

  lemma ResumedState(cfg: Config, m: Meta, p: VPath)
    requires Inv(cfg, m) && Plain(p) && Resume(cfg, m, p).1.Resuming?
    ensures var r := Resume(cfg, m, p).0;
            Inv(cfg, r) && p in r.writing && Committed(r, p) == None && p !in m.writing
    ensures Resume(cfg, m, p).0.writing[p].image == Resume(cfg, m, p).1.image
    ensures Committed(m, p).Some? ==> Committed(m, p).value.image == Resume(cfg, m, p).1.image
  {
    NextKeepsInv(cfg, m, ResumeStep(p));
    PlainNamesApart(p, p);
  }

  /**
   A resumed upload is different: resuming renames the committed record away. However long it runs and
   whatever happens beside it, an abort leaves the path with no record at all, so it restores what was
   there exactly when there was no committed record.
   */
  lemma AbortedResumeLosesTheRecord(cfg: Config, m: Meta, p: VPath, steps: seq<Step>)
    requires Inv(cfg, m) && Plain(p) && Resume(cfg, m, p).1.Resuming? && Undisturbed(steps, p)
    ensures var n := Abort(Run(cfg, Resume(cfg, m, p).0, steps), p);
            && Committed(n, p) == None && NewStateFile(p) !in n.files && p !in n.writing
            && (Committed(n, p) == Committed(m, p) <==> StateFile(p) !in m.files)
  {
    ResumedState(cfg, m, p);
    RecordSurvivesRun(cfg, Resume(cfg, m, p).0, steps, p);
    PlainNamesApart(p, p);
  }

  /** A resumed upload that commits leaves the image it was resumed with, which is the committed one if there was one. */
  lemma CommittedResumeKeepsTheImage(cfg: Config, m: Meta, p: VPath, steps: seq<Step>)
    requires Inv(cfg, m) && Plain(p) && Resume(cfg, m, p).1.Resuming? && Undisturbed(steps, p)
    ensures var n := Commit(Run(cfg, Resume(cfg, m, p).0, steps), p);
            && Committed(n, p).Some? && Committed(n, p).value.image == Resume(cfg, m, p).1.image
            && (Committed(m, p).Some? ==> Committed(n, p).value.image == Committed(m, p).value.image)
  {
    ResumedState(cfg, m, p);
    RecordSurvivesRun(cfg, Resume(cfg, m, p).0, steps, p);
    assert InFlight(cfg, Run(cfg, Resume(cfg, m, p).0, steps), p);
    PlainNamesApart(p, p);
  }

  /**
   An upload that a restart cut off is taken up as it was exactly when it was replacing nothing; otherwise the
   resume takes up the committed image instead, and the record of the upload is overwritten.
   */
  lemma RestartedUpload(cfg: Config, m: Meta, p: VPath)
    requires Inv(cfg, m) && Plain(p) && p in m.writing
    ensures var w, (n, answer) := m.writing[p], Resume(cfg, Crash(m), p);
            && answer.Resuming?
            && (answer == Resuming(w.image) <==> !w.replacing)
            && (!w.replacing ==> n.writing == map[p := w] && n.files == m.files)
            && (w.replacing ==> Committed(m, p).Some? && answer == Resuming(Committed(m, p).value.image)
                                && NewStateFile(p) in n.files && n.files[NewStateFile(p)] == Committed(m, p).value)
  {
    assert InFlight(cfg, m, p);
    PlainNamesApart(p, p);
    ResumeAnswer(cfg, Crash(m), p);
  }

  // ---- Append-only directories ----

  /** A step for the path itself. */
  lemma AppendOnlyOwnStep(cfg: Config, m: Meta, step: Step, p: VPath)
    requires Inv(cfg, m) && Admissible(step) && Plain(p)
    requires p.key in cfg && cfg[p.key].appendOnly
    requires || (step.AppendStep? && step.append.path == p) || (step.ReplaceStep? && step.replace_.path == p)
             || step == ResumeStep(p) || step == AbortStep(p) || step == CommitStep(p)
             || (step.RemoveStep? && step.path == p)
    requires Committed(m, p).Some? && Committed(Next(cfg, m, step), p).Some?
    ensures Committed(Next(cfg, m, step), p).value.image == Committed(m, p).value.image
  {
    PlainNamesApart(p, p);
    assert p in m.writing ==> InFlight(cfg, m, p);
  }

  lemma AppendOnlyStep(cfg: Config, m: Meta, step: Step, p: VPath)
    requires Inv(cfg, m) && Admissible(step) && Plain(p)
    requires p.key in cfg && cfg[p.key].appendOnly
    requires Committed(m, p).Some? && Committed(Next(cfg, m, step), p).Some?
    ensures Committed(Next(cfg, m, step), p).value.image == Committed(m, p).value.image
  {
    var q := match step
      case AppendStep(r, _) => r.path
      case ReplaceStep(r, _) => r.path
      case ResumeStep(q) => q
      case AbortStep(q) => q
      case CommitStep(q) => q
      case RemoveStep(q, _) => q
      case _ => p;
    if step.ScanStep? {
      ScanSparesCommitted(cfg, m, step.dir, p);
    } else if q != p {
      OtherPathsUntouched(cfg, m, step, p, q);
    } else if step.AppendStep? || step.ReplaceStep? || step.ResumeStep? || step.AbortStep? || step.CommitStep?
              || step.RemoveStep? {
      AppendOnlyOwnStep(cfg, m, step, p);
    }
  }

  /** In an append-only directory a committed image stays what it is for as long as its record exists. */
  lemma {:induction false} AppendOnlyImageIsFinal(cfg: Config, m: Meta, steps: seq<Step>, p: VPath)
    requires Inv(cfg, m) && AllAdmissible(steps) && Plain(p)
    requires p.key in cfg && cfg[p.key].appendOnly
    requires forall i :: 0 <= i <= |steps| ==> Committed(Run(cfg, m, steps[..i]), p).Some?
    ensures Inv(cfg, Run(cfg, m, steps))
    ensures Committed(m, p).Some? && Committed(Run(cfg, m, steps), p).Some?
    ensures Committed(Run(cfg, m, steps), p).value.image == Committed(m, p).value.image
    decreases |steps|
  {
    assert steps[..|steps|] == steps;
    if steps == [] {
      assert steps[..0] == [];
    } else {
      var before := steps[..|steps| - 1];
      forall i | 0 <= i <= |before| ensures Committed(Run(cfg, m, before[..i]), p).Some? {
        assert before[..i] == steps[..i];
      }
      AppendOnlyImageIsFinal(cfg, m, before, p);
      NextKeepsInv(cfg, Run(cfg, m, before), steps[|steps| - 1]);
      AppendOnlyStep(cfg, Run(cfg, m, before), steps[|steps| - 1], p);
    }
  }

  // ---- Names that are not plain ----

  /**
   When writing the in-flight record of `q` takes a record of another path away: exactly when one of them has
   the name of its temporary.
   */
  lemma UploadSparesExactly(m: Meta, q: VPath, state: State, replacing: bool, p: VPath)
    requires p.suffix != [] && q.suffix != []
    requires StateFile(p) in m.files && NewStateFile(p) in m.files
    ensures var n, siblings := Begin(m, q, state, replacing), p.Parent() == q.Parent();
            && (NewStateFile(p) in n.files <==> !(siblings && p.FinalName() == TMP + q.FinalName()))
            && (StateFile(p) in n.files <==> !(siblings && p.FinalName() == TMP + q.FinalName() + NEW))
  {
    TemporariesApart(p, q);
    TemporariesApart(q, q);
    assert |Temporary(NewStateFile(q)).name| > |NewStateFile(q).name|;
  }

  /** The same for further signatures of a committed image. */
  lemma ResignSparesExactly(m: Meta, q: VPath, signatures: seq<Entry>, p: VPath)
    requires p.suffix != [] && q.suffix != [] && StateFile(q) in m.files
    requires StateFile(p) in m.files && NewStateFile(p) in m.files
    ensures var n, siblings := Resign(m, q, signatures), p.Parent() == q.Parent();
            && (StateFile(p) in n.files <==> !(siblings && p.FinalName() == TMP + q.FinalName()))
            && (NewStateFile(p) in n.files
                <==> !(siblings && ((EndsWith(q.FinalName(), NEW)
                                     && p.FinalName() == TMP + q.FinalName()[..|q.FinalName()| - 4])
                                    || (p.FinalName() == ".tmp" && q.FinalName() == "new"))))
  {
    TemporariesApart(p, q);
    assert |Temporary(StateFile(q)).name| > |StateFile(q).name|;
  }

  /** Two appends to an empty database, after which the first upload has lost its record. */
  lemma TemporaryTakesTheUpload(cfg: Config, p: VPath, q: VPath)
    requires Configured(cfg, p) && Configured(cfg, q) && p.Parent() == q.Parent()
    requires p.FinalName() == TMP + q.FinalName()
    ensures var first := StartAppend(cfg, EMPTY, AppendDir(p, 1, 0, [0]), {0});
            var second := StartAppend(cfg, first.0, AppendDir(q, 2, 0, [0]), {0});
            && first.1 == Accepted(New) && second.1 == Accepted(New)
            && p in second.0.writing && NewStateFile(p) !in second.0.files
  {
    TemporariesApart(p, q);
    ParentAndName(p, q);
    RecordNamesApart(q, p);
    assert 0 in [0] && 0 in {0};
    assert |p.FinalName()| == 5 + |q.FinalName()|;
    assert |NewStateFile(p).name| > |StateFile(q).name|;
    var one := StartAppend(cfg, EMPTY, AppendDir(p, 1, 0, [0]), {0}).0;
    assert one.files.Keys == {NewStateFile(p)};
  }
}
