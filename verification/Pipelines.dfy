/**
 The life of a download from its acceptance to the commit or abort of its metadata
 (src/daemon/tracking/fetch_dir.rs), beside all other requests to the metadata.
 */
module Pipelines {
  import opened Wrappers
  import opened Names
  import opened Metadata
  import opened Transactions
  import opened Uploads

  /** What a download waits for; a failing stage leads to `Aborting` with the reason reported. */
  datatype Stage =
    | Queued
    | FetchingIndex
    | StartingImage
    | Hardlinking
    | FetchingBlocks
    | CommittingImage
    | Acknowledging
    | Aborting(reason: string)

  datatype Download = Download(path: VPath, image: ImageId, stage: Stage)

  /** A metadata commit, or an abort with the reason reported. */
  datatype Ending = Ending(id: nat, aborted: Option<string>, spurious: bool)

  /**
   One node: its metadata, the live downloads by number, the number of the next one, the metadata
   commits and aborts issued so far, and the downloads that a restart cut off.
   */
  datatype Node = Node(meta: Meta, live: map<nat, Download>, next: nat, endings: seq<Ending>, lost: set<nat>)

  const FRESH := Node(EMPTY, map[], 0, [], {})

  /** A metadata request by anyone, or the outcome of what a download waits for. */
  datatype Event = Request(step: Step) | Progress(id: nat, ok: bool)

  /** Only a download acknowledges or aborts its directory. */
  predicate Allowed(event: Event) {
    match event
    case Request(step) => Admissible(step) && !step.AbortStep? && !step.CommitStep?
    case Progress(_, _) => true
  }

  /** The download that an answer to a request calls for: `fetch_dir` on `Accepted(New)` and on a resume. */
  function Spawned(cfg: Config, m: Meta, step: Step): Option<Download>
    requires Admissible(step)
  {
    match step
    case AppendStep(r, trusted) =>
      if DecideAppend(cfg, m, r, trusted).answer == Accepted(New) then Some(Download(r.path, r.image, Queued)) else None
    case ReplaceStep(r, trusted) =>
      if DecideReplace(cfg, m, r, trusted).answer == Accepted(New) then Some(Download(r.path, r.image, Queued)) else None
    case ResumeStep(p) =>
      match Resume(cfg, m, p).1 {
        case Resuming(image) => Some(Download(p, image, Queued))
        case NotResumed(_) => None
      }
    case _ => None
  }

  function Following(stage: Stage, ok: bool): Stage
    requires !stage.Acknowledging? && !stage.Aborting?
  {
    match stage
    case Queued => FetchingIndex
    case FetchingIndex => if ok then StartingImage else Aborting("cant_fetch_index")
    case StartingImage => if ok then Hardlinking else Aborting("cant_create_directory")
    case Hardlinking => if ok then FetchingBlocks else Aborting("internal_error_when_hardlinking")
    case FetchingBlocks => if ok then CommittingImage else Aborting("cluster_abort_no_file_source")
    case CommittingImage => if ok then Acknowledging else Aborting("commit_error")
  }

  function OnRequest(cfg: Config, n: Node, step: Step): Node
    requires Admissible(step)
  {
    var meta := Next(cfg, n.meta, step);
    if step.CrashStep? then n.(meta := meta, live := map[], lost := n.lost + n.live.Keys)
    else Settle(n, meta, Spawned(cfg, n.meta, step))
  }

  function Settle(n: Node, meta: Meta, spawned: Option<Download>): Node {
    match spawned
    case Some(d) => n.(meta := meta, live := n.live[n.next := d], next := n.next + 1)
    case None => n.(meta := meta)
  }

  function OnProgress(n: Node, id: nat, ok: bool): Node {
    if id !in n.live then n
    else
      var d := n.live[id];
      match d.stage
      case Acknowledging =>
        n.(meta := Commit(n.meta, d.path), live := n.live - {id},
           endings := n.endings + [Ending(id, None, d.path !in n.meta.writing)])
      case Aborting(reason) =>
        n.(meta := Abort(n.meta, d.path), live := n.live - {id},
           endings := n.endings + [Ending(id, Some(reason), d.path !in n.meta.writing)])
      case _ => n.(live := n.live[id := d.(stage := Following(d.stage, ok))])
  }

  function Happen(cfg: Config, n: Node, event: Event): Node
    requires Allowed(event)
  {
    match event
    case Request(step) => OnRequest(cfg, n, step)
    case Progress(id, ok) => OnProgress(n, id, ok)
  }

  predicate AllAllowed(events: seq<Event>) {
    forall i :: 0 <= i < |events| ==> Allowed(events[i])
  }

  function History(cfg: Config, events: seq<Event>): Node
    requires AllAllowed(events)
    decreases |events|
  {
    if events == [] then FRESH
    else Happen(cfg, History(cfg, events[..|events| - 1]), events[|events| - 1])
  }

  // ---- The invariant ----

  /** A live download runs for a path in `writing`, with the image recorded there. */
  predicate Owns(n: Node, id: nat)
    requires id in n.live
  {
    var d := n.live[id];
    Plain(d.path) && d.path in n.meta.writing && n.meta.writing[d.path].image == d.image
  }

  function Ended(endings: seq<Ending>): set<nat> {
    set i | 0 <= i < |endings| :: endings[i].id
  }

  function Below(n: nat): (r: set<nat>)
    ensures forall id: nat :: id in r <==> id < n
  {
    if n == 0 then {} else Below(n - 1) + {n - 1}
  }

  function Paths(live: map<nat, Download>): set<VPath> {
    set id | id in live :: live[id].path
  }

  /** The paths in `writing` and the live downloads stand in one-to-one correspondence. */
  ghost predicate OneOwnerEach(n: Node) {
    && (forall id :: id in n.live ==> Owns(n, id))
    && (forall a, b :: a in n.live && b in n.live && a != b ==> n.live[a].path != n.live[b].path)
    && Paths(n.live) == n.meta.writing.Keys
  }

  /** Every download started so far is live, ended once, or cut off; no end was spurious. */
  ghost predicate Accounted(n: Node) {
    && Below(n.next) == n.live.Keys + n.lost + Ended(n.endings)
    && n.live.Keys !! n.lost !! Ended(n.endings)
    && (forall i, j :: 0 <= i < j < |n.endings| ==> n.endings[i].id != n.endings[j].id)
    && (forall i :: 0 <= i < |n.endings| ==> !n.endings[i].spurious)
  }

  ghost predicate Sound(cfg: Config, n: Node) {
    Inv(cfg, n.meta) && OneOwnerEach(n) && Accounted(n)
  }

  // ---- Preservation ----

  /** `m` becomes `o` with at most one more upload, `d`; the others keep their images. */
  ghost predicate StartsAtMost(m: Meta, o: Meta, d: Option<Download>) {
    && o.writing.Keys == m.writing.Keys + (if d.Some? then {d.value.path} else {})
    && (d.Some? ==> Plain(d.value.path) && d.value.path !in m.writing && d.value.path in o.writing
                    && o.writing[d.value.path].image == d.value.image)
    && (forall p :: p in m.writing ==> p in o.writing && o.writing[p].image == m.writing[p].image)
  }

  lemma ApplyStartsAtMostOne(m: Meta, p: VPath, state: State, effect: Effect)
    requires Plain(p) && Applicable(m, p, effect)
    ensures StartsAtMost(m, Apply(m, p, state, effect),
                         if effect.Beginning? then Some(Download(p, state.image, Queued)) else None)
  {
  }

  lemma AppendStartsAtMostOne(cfg: Config, m: Meta, r: AppendDir, trusted: set<nat>)
    requires Plain(r.path)
    ensures StartsAtMost(m, StartAppend(cfg, m, r, trusted).0, Spawned(cfg, m, AppendStep(r, trusted)))
  {
    var marked := MarkUsed(m, r.image);
    ApplyStartsAtMostOne(marked, r.path, Requested(r.image, r.timestamp, r.signatures),
                         DecideAppend(cfg, m, r, trusted).effect);
  }

  lemma ReplaceStartsAtMostOne(cfg: Config, m: Meta, r: ReplaceDir, trusted: set<nat>)
    requires Plain(r.path)
    ensures StartsAtMost(m, StartReplace(cfg, m, r, trusted).0, Spawned(cfg, m, ReplaceStep(r, trusted)))
  {
    var marked := MarkUsed(m, r.image);
    ApplyStartsAtMostOne(marked, r.path, Requested(r.image, r.timestamp, r.signatures),
                         DecideReplace(cfg, m, r, trusted).effect);
  }

  lemma ResumeStartsAtMostOne(cfg: Config, m: Meta, p: VPath)
    requires Plain(p)
    ensures StartsAtMost(m, Resume(cfg, m, p).0, Spawned(cfg, m, ResumeStep(p)))
  {
  }

  /** A request other than a restart starts at most one upload and ends none. */
  lemma RequestStartsAtMostOne(cfg: Config, m: Meta, step: Step)
    requires Admissible(step) && !step.AbortStep? && !step.CommitStep? && !step.CrashStep?
    ensures StartsAtMost(m, Next(cfg, m, step), Spawned(cfg, m, step))
  {
    match step
    case AppendStep(r, trusted) => AppendStartsAtMostOne(cfg, m, r, trusted);
    case ReplaceStep(r, trusted) => ReplaceStartsAtMostOne(cfg, m, r, trusted);
    case ResumeStep(p) => ResumeStartsAtMostOne(cfg, m, p);
    case _ =>
  }

  lemma QuietRequestKeepsOwners(n: Node, meta: Meta)
    requires OneOwnerEach(n) && StartsAtMost(n.meta, meta, None)
    ensures OneOwnerEach(n.(meta := meta))
  {
    forall id | id in n.live ensures Owns(n.(meta := meta), id) {
      assert Owns(n, id);
    }
  }

  lemma OneMorePath(live: map<nat, Download>, id: nat, d: Download)
    requires id !in live
    ensures Paths(live[id := d]) == Paths(live) + {d.path}
  {
    var more := live[id := d];
    forall k | k in live ensures live[k].path in Paths(more) {
      assert k in more && more[k] == live[k];
    }
    assert id in more && more[id] == d;
  }

  lemma SpawnedOwns(n: Node, meta: Meta, d: Download, id: nat)
    requires OneOwnerEach(n) && StartsAtMost(n.meta, meta, Some(d)) && n.next !in n.live && id in n.live
    ensures n.live[id].path != d.path
    ensures Owns(n.(meta := meta, live := n.live[n.next := d], next := n.next + 1), id)
  {
    assert Owns(n, id);
  }

  lemma SpawnKeepsOwners(n: Node, meta: Meta, d: Download)
    requires OneOwnerEach(n) && StartsAtMost(n.meta, meta, Some(d)) && n.next !in n.live
    ensures OneOwnerEach(n.(meta := meta, live := n.live[n.next := d], next := n.next + 1))
  {
    var o := n.(meta := meta, live := n.live[n.next := d], next := n.next + 1);
    OneMorePath(n.live, n.next, d);
    forall id | id in n.live ensures n.live[id].path != d.path && Owns(o, id) {
      SpawnedOwns(n, meta, d, id);
    }
    assert Owns(o, n.next);
  }

  lemma SpawnIsAccounted(n: Node, meta: Meta, d: Download)
    requires Accounted(n)
    ensures n.next !in n.live
    ensures Accounted(n.(meta := meta, live := n.live[n.next := d], next := n.next + 1))
  {
    assert n.next !in Below(n.next);
    assert n.next !in n.live.Keys + n.lost + Ended(n.endings);
    assert n.live[n.next := d].Keys == n.live.Keys + {n.next};
    assert Below(n.next + 1) == Below(n.next) + {n.next};
  }

  lemma SettleKeepsSound(cfg: Config, n: Node, meta: Meta, spawned: Option<Download>)
    requires Sound(cfg, n) && Inv(cfg, meta) && StartsAtMost(n.meta, meta, spawned)
    ensures Sound(cfg, Settle(n, meta, spawned))
  {
    match spawned
    case Some(d) =>
      SpawnIsAccounted(n, meta, d);
      SpawnKeepsOwners(n, meta, d);
    case None => QuietRequestKeepsOwners(n, meta);
  }

  lemma RequestKeepsSound(cfg: Config, n: Node, step: Step)
    requires Sound(cfg, n) && Allowed(Request(step)) && !step.CrashStep?
    ensures Sound(cfg, OnRequest(cfg, n, step))
  {
    NextKeepsInv(cfg, n.meta, step);
    RequestStartsAtMostOne(cfg, n.meta, step);
    SettleKeepsSound(cfg, n, Next(cfg, n.meta, step), Spawned(cfg, n.meta, step));
  }

  lemma CrashKeepsSound(cfg: Config, n: Node)
    requires Sound(cfg, n)
    ensures Sound(cfg, OnRequest(cfg, n, CrashStep))
  {
    NextKeepsInv(cfg, n.meta, CrashStep);
  }

  lemma PathsWithout(live: map<nat, Download>, id: nat)
    requires id in live
    requires forall other :: other in live && other != id ==> live[other].path != live[id].path
    ensures Paths(live - {id}) == Paths(live) - {live[id].path}
  {
    forall p ensures p in Paths(live - {id}) <==> p in Paths(live) && p != live[id].path {
      if p in Paths(live) && p != live[id].path {
        var k :| k in live && live[k].path == p;
        assert k in live - {id} && (live - {id})[k].path == p;
      }
    }
  }

  lemma EndingKeepsOwners(n: Node, meta: Meta, id: nat)
    requires OneOwnerEach(n) && id in n.live
    requires meta.writing == n.meta.writing - {n.live[id].path}
    ensures OneOwnerEach(n.(meta := meta, live := n.live - {id}))
  {
    var o := n.(meta := meta, live := n.live - {id});
    forall other | other in o.live ensures Owns(o, other) {
      assert Owns(n, other);
    }
    PathsWithout(n.live, id);
  }

  lemma EndingIsAccounted(n: Node, id: nat, aborted: Option<string>)
    requires Accounted(n) && id in n.live
    ensures Accounted(n.(live := n.live - {id}, endings := n.endings + [Ending(id, aborted, false)]))
  {
    var more := n.endings + [Ending(id, aborted, false)];
    assert Ended(more) == Ended(n.endings) + {id} by {
      assert more[|n.endings|].id == id;
      forall k | k in Ended(n.endings) ensures k in Ended(more) {
        var i :| 0 <= i < |n.endings| && n.endings[i].id == k;
        assert more[i].id == k;
      }
    }
    forall i | 0 <= i < |n.endings| ensures n.endings[i].id != id {
      assert n.endings[i].id in Ended(n.endings);
    }
  }

  lemma EndedKeepsSound(cfg: Config, n: Node, id: nat, meta: Meta, aborted: Option<string>)
    requires Sound(cfg, n) && id in n.live
    requires Inv(cfg, meta) && meta.writing == n.meta.writing - {n.live[id].path}
    ensures Sound(cfg, n.(meta := meta, live := n.live - {id}, endings := n.endings + [Ending(id, aborted, false)]))
  {
    EndingKeepsOwners(n, meta, id);
    EndingIsAccounted(n, id, aborted);
  }

  /** The end of a download removes exactly its own upload. */
  lemma EndingKeepsSound(cfg: Config, n: Node, id: nat, ok: bool)
    requires Sound(cfg, n) && id in n.live && (n.live[id].stage.Acknowledging? || n.live[id].stage.Aborting?)
    ensures Sound(cfg, OnProgress(n, id, ok))
  {
    var p := n.live[id].path;
    assert Owns(n, id);
    if n.live[id].stage.Acknowledging? {
      CommitKeepsInv(cfg, n.meta, p);
      EndedKeepsSound(cfg, n, id, Commit(n.meta, p), None);
    } else {
      AbortKeepsInv(cfg, n.meta, p);
      EndedKeepsSound(cfg, n, id, Abort(n.meta, p), Some(n.live[id].stage.reason));
    }
  }

  lemma SameDownloadsKeepOwners(n: Node, live: map<nat, Download>)
    requires OneOwnerEach(n) && live.Keys == n.live.Keys
    requires forall id :: id in live ==> live[id].path == n.live[id].path && live[id].image == n.live[id].image
    ensures OneOwnerEach(n.(live := live))
  {
    forall id | id in live ensures Owns(n.(live := live), id) {
      assert Owns(n, id);
    }
    assert Paths(live) == Paths(n.live);
  }

  lemma StageKeepsSound(cfg: Config, n: Node, id: nat, ok: bool)
    requires Sound(cfg, n) && id in n.live && !n.live[id].stage.Acknowledging? && !n.live[id].stage.Aborting?
    ensures Sound(cfg, OnProgress(n, id, ok))
  {
    var live := n.live[id := n.live[id].(stage := Following(n.live[id].stage, ok))];
    assert live.Keys == n.live.Keys;
    SameDownloadsKeepOwners(n, live);
  }

  /**
   In every history each path in `writing` has exactly one live download, each download ends in at
   most one metadata commit or abort, and neither is ever spurious.
   */
  lemma {:induction false} HistoryIsSound(cfg: Config, events: seq<Event>)
    requires AllAllowed(events)
    ensures Sound(cfg, History(cfg, events))
    decreases |events|
  {
    if events != [] {
      var n, last := History(cfg, events[..|events| - 1]), events[|events| - 1];
      HistoryIsSound(cfg, events[..|events| - 1]);
      match last
      case Request(step) =>
        if step.CrashStep? { CrashKeepsSound(cfg, n); } else { RequestKeepsSound(cfg, n, step); }
      case Progress(id, ok) =>
        if id in n.live {
          if n.live[id].stage.Acknowledging? || n.live[id].stage.Aborting? {
            EndingKeepsSound(cfg, n, id, ok);
          } else {
            StageKeepsSound(cfg, n, id, ok);
          }
        }
    }
  }

  // ---- Every download comes to its end ----

  /** How many outcomes a download still waits for at most. */
  function Left(stage: Stage): (n: nat)
    ensures 1 <= n <= 7
  {
    match stage
    case Queued => 7
    case FetchingIndex => 6
    case StartingImage => 5
    case Hardlinking => 4
    case FetchingBlocks => 3
    case CommittingImage => 2
    case Acknowledging => 1
    case Aborting(_) => 1
  }

  predicate IsOutcome(e: Event, id: nat) { e.Progress? && e.id == id }

  /** How often the download `id` gets an outcome. */
  function Outcomes(events: seq<Event>, id: nat): nat
    decreases |events|
  {
    if events == [] then 0
    else
      var last := events[|events| - 1];
      Outcomes(events[..|events| - 1], id) + if IsOutcome(last, id) then 1 else 0
  }

  lemma HistoryIsAccounted(cfg: Config, events: seq<Event>)
    requires AllAllowed(events)
    ensures Accounted(History(cfg, events))
  {
    HistoryIsSound(cfg, events);
  }

  predicate Restarts(events: seq<Event>) {
    exists i :: 0 <= i < |events| && events[i] == Request(CrashStep)
  }

  lemma HistorySnoc(cfg: Config, events: seq<Event>, e: Event)
    requires AllAllowed(events) && Allowed(e)
    ensures AllAllowed(events + [e])
    ensures History(cfg, events + [e]) == Happen(cfg, History(cfg, events), e)
  {
    assert (events + [e])[..|events|] == events;
  }

  /** Its own outcomes bring a download nearer to its end. */
  lemma OutcomeAdvances(n: Node, id: nat, ok: bool)
    requires id in n.live
    ensures var o := OnProgress(n, id, ok);
            || (id in o.live && Left(o.live[id].stage) < Left(n.live[id].stage))
            || (id !in o.live && id in Ended(o.endings))
  {
    if n.live[id].stage.Acknowledging? || n.live[id].stage.Aborting? {
      var o := OnProgress(n, id, ok);
      assert o.endings[|n.endings|].id == id;
    }
  }

  /** A restart cuts a download off; nothing else but its own outcomes touches it. */
  lemma OthersLeaveIt(cfg: Config, n: Node, e: Event, id: nat)
    requires Accounted(n) && Allowed(e) && id in n.live && !(e.Progress? && e.id == id)
    ensures var o := Happen(cfg, n, e);
            if e == Request(CrashStep) then id in o.lost else id in o.live && o.live[id] == n.live[id]
  {
    SpawnIsNew(n);
  }

  lemma SpawnIsNew(n: Node)
    requires Accounted(n)
    ensures n.next !in n.live
  {
    assert n.next !in Below(n.next);
    assert n.next !in n.live.Keys + n.lost + Ended(n.endings);
  }

  lemma EndedStays(cfg: Config, n: Node, e: Event, id: nat)
    requires Allowed(e) && (id in Ended(n.endings) || id in n.lost)
    ensures var o := Happen(cfg, n, e);
            (id in Ended(n.endings) ==> id in Ended(o.endings)) && (id in n.lost ==> id in o.lost)
  {
    var o := Happen(cfg, n, e);
    if id in Ended(n.endings) {
      var i :| 0 <= i < |n.endings| && n.endings[i].id == id;
      assert o.endings[i].id == id;
    }
  }

  /** Where a download stands after more events: ended, cut off, or nearer to its end by its outcomes. */
  ghost predicate Underway(n: Node, id: nat, left: int, restarted: bool) {
    || id in Ended(n.endings)
    || (restarted && id in n.lost)
    || (id in n.live && Left(n.live[id].stage) <= left)
  }

  lemma UnderwayNext(cfg: Config, n: Node, e: Event, id: nat, left: int, restarted: bool)
    requires Accounted(n) && Allowed(e) && Underway(n, id, left, restarted)
    ensures Underway(Happen(cfg, n, e), id, left - if IsOutcome(e, id) then 1 else 0,
                     restarted || e == Request(CrashStep))
  {
    if id in Ended(n.endings) || (restarted && id in n.lost) {
      EndedStays(cfg, n, e, id);
    } else if IsOutcome(e, id) {
      OutcomeAdvances(n, id, e.ok);
    } else {
      OthersLeaveIt(cfg, n, e, id);
    }
  }

  lemma RestartsSnoc(events: seq<Event>)
    requires events != []
    ensures Restarts(events) <==> Restarts(events[..|events| - 1]) || events[|events| - 1] == Request(CrashStep)
  {
    var front := events[..|events| - 1];
    if i :| 0 <= i < |front| && front[i] == Request(CrashStep) {
      assert events[i] == Request(CrashStep);
    }
    if i :| 0 <= i < |events| && events[i] == Request(CrashStep) {
      assert i < |front| ==> front[i] == Request(CrashStep);
    }
  }

  lemma {:induction false} OutcomesAdvance(cfg: Config, events: seq<Event>, more: seq<Event>, id: nat)
    requires AllAllowed(events) && AllAllowed(more) && id in History(cfg, events).live
    ensures AllAllowed(events + more) && Accounted(History(cfg, events + more))
    ensures Underway(History(cfg, events + more), id, Left(History(cfg, events).live[id].stage) - Outcomes(more, id),
                     Restarts(more))
    decreases |more|
  {
    HistoryIsAccounted(cfg, events + more);
    if more == [] {
      assert events + more == events;
    } else {
      var front, last := more[..|more| - 1], more[|more| - 1];
      OutcomesAdvance(cfg, events, front, id);
      assert events + more == (events + front) + [last];
      HistorySnoc(cfg, events + front, last);
      RestartsSnoc(more);
      UnderwayNext(cfg, History(cfg, events + front), last, id,
                   Left(History(cfg, events).live[id].stage) - Outcomes(front, id), Restarts(front));
    }
  }

  lemma NothingLeft(n: Node, id: nat, left: int, restarted: bool)
    requires Accounted(n) && Underway(n, id, left, restarted) && left <= 0
    ensures id !in n.live && (id in Ended(n.endings) || (id in n.lost && restarted))
  {
    assert id in n.live <==> id in n.live.Keys;
  }

  /**
   After seven of its outcomes, whatever happens in between, a download has ended with its one commit or
   abort, unless a restart came first.
   */
  lemma EveryDownloadEnds(cfg: Config, events: seq<Event>, more: seq<Event>, id: nat)
    requires AllAllowed(events) && AllAllowed(more) && id in History(cfg, events).live
    requires Outcomes(more, id) >= 7
    ensures AllAllowed(events + more)
    ensures var n := History(cfg, events + more);
            id !in n.live && (id in Ended(n.endings) || (id in n.lost && Restarts(more)))
  {
    OutcomesAdvance(cfg, events, more, id);
    var left := Left(History(cfg, events).live[id].stage) - Outcomes(more, id);
    NothingLeft(History(cfg, events + more), id, left, Restarts(more));
  }

  /** A download that is acknowledged leaves its own image as the committed record of its path. */
  lemma AcknowledgementCommitsItsImage(cfg: Config, events: seq<Event>, id: nat, ok: bool)
    requires AllAllowed(events)
    requires id in History(cfg, events).live && History(cfg, events).live[id].stage.Acknowledging?
    ensures var n := History(cfg, events);
            var o := OnProgress(n, id, ok);
            && Plain(n.live[id].path)
            && Committed(o.meta, n.live[id].path).Some?
            && Committed(o.meta, n.live[id].path).value.image == n.live[id].image
            && o.endings == n.endings + [Ending(id, None, false)]
  {
    HistoryIsSound(cfg, events);
    var n := History(cfg, events);
    assert Owns(n, id);
    assert InFlight(cfg, n.meta, n.live[id].path);
    PlainNamesApart(n.live[id].path, n.live[id].path);
  }
}
