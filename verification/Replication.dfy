/**
 The commands of a reconciliation carried out: the request each becomes (src/daemon/tracking/reconciliation.rs),
 how the metadata answers it, and what a download that commits leaves behind.
 */
module Replication {
  import opened Wrappers
  import opened Signatures
  import opened Names
  import opened Metadata
  import opened Transactions
  import opened Answers
  import opened Uploads
  import opened Reconciliation
  import opened ReconciliationProperties

  /** A command for a name not held locally is an append, any other a replace of the image it names. */
  function RequestFor(base: VPath, c: Command, trusted: set<nat>): Step {
    if c.replaced == None then
      AppendStep(AppendDir(base.Join(c.name), c.image, c.sig.timestamp, [c.sig.signature]), trusted)
    else
      ReplaceStep(ReplaceDir(base.Join(c.name), c.image, c.replaced, c.sig.timestamp, [c.sig.signature]), trusted)
  }

  function AnswerTo(cfg: Config, meta: Meta, base: VPath, c: Command, trusted: set<nat>): Upload {
    match RequestFor(base, c, trusted)
    case AppendStep(r, t) => StartAppend(cfg, meta, r, t).1
    case ReplaceStep(r, t) => StartReplace(cfg, meta, r, t).1
  }

  /** The state after an accepted command, any steps that do not end its upload, and the commit. */
  function Outcome(cfg: Config, meta: Meta, base: VPath, c: Command, trusted: set<nat>, steps: seq<Step>): Meta
    requires Plain(base.Join(c.name)) && AllAdmissible(steps)
  {
    Commit(Run(cfg, Next(cfg, meta, RequestFor(base, c, trusted)), steps), base.Join(c.name))
  }

  /** What has joined the upload meanwhile. */
  function JoinedMeanwhile(cfg: Config, meta: Meta, base: VPath, c: Command, trusted: set<nat>, steps: seq<Step>)
    : seq<seq<Entry>>
    requires Plain(base.Join(c.name)) && AllAdmissible(steps)
  {
    Contributions(cfg, Next(cfg, meta, RequestFor(base, c, trusted)), steps, base.Join(c.name))
  }

  lemma SingleEntry(sig: Entry)
    ensures Entries(sig.timestamp, [sig.signature]) == [sig]
    ensures AcceptAll([[sig]]) == [sig]
  {
    assert Sort([sig]) == [sig] by {
      assert [sig][1..] == [];
    }
  }

  /** The path is as the reconciliation found it: in no upload, with the local image as its record, or with none. */
  predicate AsFound(meta: Meta, base: VPath, m: Merge, name: string) {
    && base.Join(name) !in meta.writing
    && Committed(meta, base.Join(name)) == if name in m.local then Some(m.local[name]) else None
  }

  /** With its path as found, a command is accepted exactly when its signature verifies and the directory allows it. */
  lemma CommandAnswer(cfg: Config, meta: Meta, base: VPath, m: Merge, c: Command, trusted: set<nat>)
    requires c.name in m.remote && Newer(m.local, c.name, m.remote[c.name]) && AsksFor(m, c.name, c)
    requires AsFound(meta, base, m, c.name)
    ensures AnswerTo(cfg, meta, base, c, trusted) == Accepted(New)
            <==> && base.key in cfg && base.Level() + 1 == cfg[base.key].numLevels && c.sig.signature in trusted
                 && (c.name in m.local ==> !cfg[base.key].appendOnly)
  {
    assert [c.sig.signature][0] == c.sig.signature;
    match RequestFor(base, c, trusted)
    case AppendStep(r, t) => AppendAnswer(cfg, meta, r, t);
    case ReplaceStep(r, t) => ReplaceAnswer(cfg, meta, r, t);
  }

  /**
   However the path has changed since, an accepted command overwrites no record but that of the image it was
   weighed against, and an append none at all.
   */
  lemma CommandOverwritesOnlyWhatItWeighed(cfg: Config, meta: Meta, base: VPath, m: Merge, c: Command,
                                           trusted: set<nat>, steps: seq<Step>)
    requires Inv(cfg, meta) && Plain(base.Join(c.name)) && Undisturbed(steps, base.Join(c.name))
    requires c.name in m.remote && m.remote[c.name].signatures != [] && AsksFor(m, c.name, c)
    requires AnswerTo(cfg, meta, base, c, trusted) == Accepted(New)
    ensures var n, p := Run(cfg, Next(cfg, meta, RequestFor(base, c, trusted)), steps), base.Join(c.name);
            && Committed(n, p) == Committed(meta, p)
            && (Committed(n, p).Some? ==> c.name in m.local && Committed(n, p).value.image == m.local[c.name].image)
  {
    match RequestFor(base, c, trusted)
    case AppendStep(r, t) => AppendCommitsItsImage(cfg, meta, r, t, steps);
    case ReplaceStep(r, t) => ReplaceOverwritesWhatItChecked(cfg, meta, r, t, steps);
  }

  /**
   The record that an accepted command leaves when its download commits is the one the reconciliation reckoned
   with, the image with that one signature; whatever else signed the image meanwhile is added.
   */
  lemma CommandCarriesItsImage(cfg: Config, meta: Meta, base: VPath, m: Merge, c: Command, trusted: set<nat>,
                               steps: seq<Step>)
    requires Inv(cfg, meta) && Plain(base.Join(c.name)) && Undisturbed(steps, base.Join(c.name))
    requires c.name in m.remote && m.remote[c.name].signatures != [] && AsksFor(m, c.name, c)
    requires AnswerTo(cfg, meta, base, c, trusted) == Accepted(New)
    ensures Signed(m, {c.name}) && c.name in Carried(m, {c.name})
    ensures var after := Committed(Outcome(cfg, meta, base, c, trusted, steps), base.Join(c.name));
            var more := JoinedMeanwhile(cfg, meta, base, c, trusted, steps);
            && after == Some(State(c.image, AcceptAll([[c.sig]] + more)))
            && after.value.image == Carried(m, {c.name})[c.name].image
            && (more == [] ==> after == Some(Carried(m, {c.name})[c.name]))
  {
    SingleEntry(c.sig);
    assert [[c.sig]] + [] == [[c.sig]];
    match RequestFor(base, c, trusted)
    case AppendStep(r, t) => AppendCommitsItsImage(cfg, meta, r, t, steps);
    case ReplaceStep(r, t) => ReplaceOverwritesWhatItChecked(cfg, meta, r, t, steps);
  }
}
