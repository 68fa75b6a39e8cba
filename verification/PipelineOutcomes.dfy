/** How a download ends, read off the outcomes it got (src/daemon/tracking/fetch_dir.rs). */
module PipelineOutcomes {
  import opened Wrappers
  import opened Metadata
  import opened Pipelines

  /** The outcomes that a download got while it was live, in order. */
  function Got(cfg: Config, events: seq<Event>, id: nat): seq<bool>
    requires AllAllowed(events)
    decreases |events|
  {
    if events == [] then []
    else
      var before, last := events[..|events| - 1], events[|events| - 1];
      Got(cfg, before, id)
      + if last.Progress? && last.id == id && id in History(cfg, before).live then [last.ok] else []
  }

  /**
   The reason reported for a failure at each of the five stages: fetching the index, starting the image,
   hardlinking, fetching blocks, committing the image.
   */
  const REASONS := ["cant_fetch_index", "cant_create_directory", "internal_error_when_hardlinking",
                    "cluster_abort_no_file_source", "commit_error"]

  /** Stage `k` failed and those before it succeeded. The first outcome is the start and cannot fail. */
  predicate FirstFailure(got: seq<bool>, k: nat) {
    1 <= k <= 5 && k < |got| && !got[k] && forall i :: 1 <= i < k ==> got[i]
  }

  predicate NoFailure(got: seq<bool>) {
    forall i :: 1 <= i < |got| && i <= 5 ==> got[i]
  }

  /** A commit after five successes, an abort right after the first failure; each waits for its own outcome. */
  predicate EndsRightly(aborted: Option<string>, got: seq<bool>) {
    match aborted
    case None => |got| == 7 && NoFailure(got)
    case Some(reason) =>
      2 < |got| <= 7 && FirstFailure(got, |got| - 2) && reason == REASONS[|got| - 3]
  }

  // ---- Where a live download stands ----

  function Passed(stage: Stage): nat
    requires !stage.Aborting?
  {
    match stage
    case Queued => 0
    case FetchingIndex => 1
    case StartingImage => 2
    case Hardlinking => 3
    case FetchingBlocks => 4
    case CommittingImage => 5
    case Acknowledging => 6
  }

  predicate Stands(stage: Stage, got: seq<bool>) {
    match stage
    case Aborting(reason) => 2 <= |got| <= 6 && FirstFailure(got, |got| - 1) && reason == REASONS[|got| - 2]
    case _ => |got| == Passed(stage) && NoFailure(got)
  }

  lemma StageStands(stage: Stage, got: seq<bool>, ok: bool)
    requires Stands(stage, got) && !stage.Acknowledging? && !stage.Aborting?
    ensures Stands(Following(stage, ok), got + [ok])
  {
  }

  lemma EndStands(stage: Stage, got: seq<bool>, ok: bool)
    requires Stands(stage, got) && (stage.Acknowledging? || stage.Aborting?)
    ensures EndsRightly(if stage.Aborting? then Some(stage.reason) else None, got + [ok])
  {
    var more := got + [ok];
    if stage.Aborting? {
      assert more[|more| - 2] == got[|got| - 1];
    }
  }

  // ---- In every history ----

  ghost predicate ToldLive(cfg: Config, events: seq<Event>, n: Node)
    requires AllAllowed(events)
  {
    forall id :: id in n.live ==> Stands(n.live[id].stage, Got(cfg, events, id))
  }

  ghost predicate ToldEnded(cfg: Config, events: seq<Event>, n: Node)
    requires AllAllowed(events)
  {
    forall i :: 0 <= i < |n.endings| ==> EndsRightly(n.endings[i].aborted, Got(cfg, events, n.endings[i].id))
  }

  /** A download that has not begun has got nothing. */
  ghost predicate ToldNext(cfg: Config, events: seq<Event>, n: Node)
    requires AllAllowed(events)
  {
    forall id: nat :: id >= n.next ==> Got(cfg, events, id) == []
  }

  ghost predicate Told(cfg: Config, events: seq<Event>, n: Node)
    requires AllAllowed(events)
  {
    ToldLive(cfg, events, n) && ToldEnded(cfg, events, n) && ToldNext(cfg, events, n)
  }

  lemma LiveAreBelow(n: Node, id: nat)
    requires Accounted(n)
    ensures id in n.live ==> id < n.next
    ensures forall i :: 0 <= i < |n.endings| ==> n.endings[i].id !in n.live && n.endings[i].id < n.next
  {
    assert id in n.live ==> id in Below(n.next);
    forall i | 0 <= i < |n.endings| ensures n.endings[i].id !in n.live && n.endings[i].id < n.next {
      assert n.endings[i].id in Ended(n.endings);
      assert n.endings[i].id in Below(n.next);
      assert n.endings[i].id !in n.live.Keys;
    }
  }

  /** What one event adds to what a download got. */
  function More(n: Node, e: Event, id: nat): seq<bool> {
    if e.Progress? && e.id == id && id in n.live then [e.ok] else []
  }

  lemma GotSnoc(cfg: Config, events: seq<Event>, e: Event, id: nat)
    requires AllAllowed(events) && Allowed(e)
    ensures AllAllowed(events + [e])
    ensures Got(cfg, events + [e], id) == Got(cfg, events, id) + More(History(cfg, events), e, id)
  {
    assert (events + [e])[..|events|] == events;
  }

  lemma GotNothing(cfg: Config, events: seq<Event>, e: Event, id: nat)
    requires AllAllowed(events) && Allowed(e) && More(History(cfg, events), e, id) == []
    ensures AllAllowed(events + [e]) && Got(cfg, events + [e], id) == Got(cfg, events, id)
  {
    GotSnoc(cfg, events, e, id);
    assert Got(cfg, events, id) + [] == Got(cfg, events, id);
  }

  /** A request begins at most one download, and a restart cuts all of them off. */
  lemma RequestBegins(cfg: Config, n: Node, step: Step, id: nat)
    requires Admissible(step)
    ensures var o := OnRequest(cfg, n, step);
            && o.endings == n.endings && o.next >= n.next
            && (id in o.live ==>
                  (id in n.live && o.live[id] == n.live[id]) || (id == n.next && o.live[id].stage == Queued))
  {
    var spawned := Spawned(cfg, n.meta, step);
    assert spawned.Some? ==> spawned.value.stage == Queued;
  }

  lemma RequestTold(cfg: Config, events: seq<Event>, step: Step, n: Node)
    requires AllAllowed(events) && Allowed(Request(step)) && n == History(cfg, events) && Told(cfg, events, n)
    ensures AllAllowed(events + [Request(step)])
    ensures Told(cfg, events + [Request(step)], OnRequest(cfg, n, step))
  {
    var o, more := OnRequest(cfg, n, step), events + [Request(step)];
    RequestBegins(cfg, n, step, 0);
    forall id | id in o.live ensures Stands(o.live[id].stage, Got(cfg, more, id)) {
      RequestBegins(cfg, n, step, id);
      GotNothing(cfg, events, Request(step), id);
    }
    forall i | 0 <= i < |o.endings| ensures EndsRightly(o.endings[i].aborted, Got(cfg, more, o.endings[i].id)) {
      GotNothing(cfg, events, Request(step), o.endings[i].id);
    }
    forall id: nat | id >= o.next ensures Got(cfg, more, id) == [] {
      GotNothing(cfg, events, Request(step), id);
    }
  }

  /** An outcome moves one download on, or ends it. */
  lemma OutcomeMoves(n: Node, id: nat, ok: bool)
    requires id in n.live
    ensures var o, stage := OnProgress(n, id, ok), n.live[id].stage;
            && o.next == n.next && n.endings <= o.endings
            && (forall x :: x in o.live && x != id ==> x in n.live && o.live[x] == n.live[x])
            && (if stage.Acknowledging? || stage.Aborting? then
                  && id !in o.live && |o.endings| == |n.endings| + 1
                  && o.endings[|n.endings|].id == id
                  && o.endings[|n.endings|].aborted == if stage.Aborting? then Some(stage.reason) else None
                else id in o.live && o.live[id].stage == Following(stage, ok) && o.endings == n.endings)
  {
  }

  lemma ProgressLive(cfg: Config, events: seq<Event>, id: nat, ok: bool, n: Node, x: nat)
    requires AllAllowed(events) && n == History(cfg, events) && Told(cfg, events, n)
    requires id in n.live && x in OnProgress(n, id, ok).live
    ensures AllAllowed(events + [Progress(id, ok)])
    ensures Stands(OnProgress(n, id, ok).live[x].stage, Got(cfg, events + [Progress(id, ok)], x))
  {
    OutcomeMoves(n, id, ok);
    GotSnoc(cfg, events, Progress(id, ok), x);
    if x == id {
      StageStands(n.live[id].stage, Got(cfg, events, id), ok);
    } else {
      GotNothing(cfg, events, Progress(id, ok), x);
    }
  }

  lemma ProgressEnded(cfg: Config, events: seq<Event>, id: nat, ok: bool, n: Node, i: nat)
    requires AllAllowed(events) && n == History(cfg, events) && Told(cfg, events, n) && Accounted(n)
    requires id in n.live && i < |OnProgress(n, id, ok).endings|
    ensures AllAllowed(events + [Progress(id, ok)])
    ensures var ending := OnProgress(n, id, ok).endings[i];
            EndsRightly(ending.aborted, Got(cfg, events + [Progress(id, ok)], ending.id))
  {
    OutcomeMoves(n, id, ok);
    LiveAreBelow(n, id);
    if i < |n.endings| {
      GotNothing(cfg, events, Progress(id, ok), n.endings[i].id);
    } else {
      GotSnoc(cfg, events, Progress(id, ok), id);
      EndStands(n.live[id].stage, Got(cfg, events, id), ok);
    }
  }

  lemma ProgressTold(cfg: Config, events: seq<Event>, id: nat, ok: bool, n: Node)
    requires AllAllowed(events) && n == History(cfg, events) && Told(cfg, events, n) && Accounted(n)
    ensures AllAllowed(events + [Progress(id, ok)])
    ensures Told(cfg, events + [Progress(id, ok)], OnProgress(n, id, ok))
  {
    var o, more := OnProgress(n, id, ok), events + [Progress(id, ok)];
    LiveAreBelow(n, id);
    if id in n.live {
      OutcomeMoves(n, id, ok);
      forall x | x in o.live ensures Stands(o.live[x].stage, Got(cfg, more, x)) {
        ProgressLive(cfg, events, id, ok, n, x);
      }
      forall i | 0 <= i < |o.endings| ensures EndsRightly(o.endings[i].aborted, Got(cfg, more, o.endings[i].id)) {
        ProgressEnded(cfg, events, id, ok, n, i);
      }
    } else {
      forall x: nat ensures Got(cfg, more, x) == Got(cfg, events, x) {
        GotNothing(cfg, events, Progress(id, ok), x);
      }
    }
    forall x: nat | x >= o.next ensures Got(cfg, more, x) == [] {
      GotNothing(cfg, events, Progress(id, ok), x);
    }
  }

  lemma {:induction false} HistoryIsTold(cfg: Config, events: seq<Event>)
    requires AllAllowed(events)
    ensures Told(cfg, events, History(cfg, events))
    decreases |events|
  {
    if events != [] {
      var before, last := events[..|events| - 1], events[|events| - 1];
      HistoryIsTold(cfg, before);
      HistoryIsAccounted(cfg, before);
      assert events == before + [last];
      match last
      case Request(step) => RequestTold(cfg, before, step, History(cfg, before));
      case Progress(id, ok) => ProgressTold(cfg, before, id, ok, History(cfg, before));
    }
  }

  lemma OnlyOneFirst(got: seq<bool>, j: nat, k: nat)
    requires FirstFailure(got, j) && FirstFailure(got, k)
    ensures j == k
  {
  }

  /** An ending that is right tells how the outcomes were. */
  lemma RightEndingTells(aborted: Option<string>, got: seq<bool>)
    requires EndsRightly(aborted, got)
    ensures aborted == None <==> |got| == 7 && got[1] && got[2] && got[3] && got[4] && got[5]
    ensures forall k: nat :: FirstFailure(got, k) ==> aborted == Some(REASONS[k - 1])
    ensures aborted.Some? ==> exists k: nat :: FirstFailure(got, k) && |got| == k + 2
  {
    if aborted.Some? {
      var last := |got| - 2;
      assert FirstFailure(got, last);
      forall k: nat | FirstFailure(got, k) ensures k == last {
        OnlyOneFirst(got, k, last);
      }
    }
  }

  /**
   In every history a download's metadata is committed exactly when all five stages succeeded, and otherwise
   aborted with the reason of the first that failed.
   */
  lemma EndingTellsTheOutcomes(cfg: Config, events: seq<Event>, i: nat)
    requires AllAllowed(events) && i < |History(cfg, events).endings|
    ensures var ending := History(cfg, events).endings[i];
            var got := Got(cfg, events, ending.id);
            && (ending.aborted == None <==> |got| == 7 && got[1] && got[2] && got[3] && got[4] && got[5])
            && (forall k: nat :: FirstFailure(got, k) ==> ending.aborted == Some(REASONS[k - 1]))
            && (ending.aborted.Some? ==> exists k: nat :: FirstFailure(got, k) && |got| == k + 2)
  {
    HistoryIsTold(cfg, events);
    var ending := History(cfg, events).endings[i];
    RightEndingTells(ending.aborted, Got(cfg, events, ending.id));
  }
}
