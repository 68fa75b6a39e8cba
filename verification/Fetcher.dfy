/**
 The scheduler as the source runs it: `FetchBlock::poll` and `FetchBlocks::poll` of
 src/daemon/tracking/fetch_blocks.rs over the mutable deques. Every poll is proved to be a run of the
 events of `Scheduler`, so that what is proved of all runs holds of it.
 */
module Fetcher {
  import opened Wrappers
  import Mask
  import opened Scheduler
  import SchedulerConservation

  /**
   The environment, asked at successive moments: what a request answers, which write of the queue has
   just reached the disk (a number that is not a write under way stands for none), whether a peer can be
   asked, whether the deadline has passed, whether the cluster is found stalled, and whether the retry
   timer has fired.
   */
  datatype Env = Env(
    outcome: nat -> Outcome,
    lands: nat -> nat,
    connected: nat -> bool,
    deadline: nat -> bool,
    stalled: nat -> bool,
    timer: nat -> bool
  )

  /** What polling one future gives. */
  datatype Step = Again(f: Pending) | Done | Failed

  /** What a poll gives; `Running` when it used up the passes it was allowed. */
  datatype Verdict = Ready | NotReady | Err | Running

  // ---- Runs and loops ----

  /** The events after the last announcement of finished slices, since which slices have kept their places. */
  function SinceRetain(events: seq<Event>): seq<Event>
    decreases |events|
  {
    if events == [] || events[|events| - 1].Retain? then []
    else SinceRetain(events[..|events| - 1]) + [events[|events| - 1]]
  }

  predicate Dispatches(events: seq<Event>) { forall e :: e in events ==> e.Dispatch? }

  lemma {:induction false} SinceDispatches(events: seq<Event>, more: seq<Event>)
    requires Dispatches(more) && events != [] && events[|events| - 1].Retain?
    ensures SinceRetain(events + more) == more
    decreases |more|
  {
    if more == [] {
      assert events + more == events;
    } else {
      var all, front := events + more, more[..|more| - 1];
      var last := more[|more| - 1];
      assert more == front + [last] && last in more;
      assert all[..|all| - 1] == events + front && all[|all| - 1] == last;
      SinceDispatches(events, front);
    }
  }

  lemma OneMoreDispatch(before: seq<Event>, trace: seq<Event>, e: Event)
    requires before <= trace && Dispatches(trace[|before|..]) && e.Dispatch?
    ensures before <= trace + [e] && Dispatches((trace + [e])[|before|..]) && e in (trace + [e])[|before|..]
  {
    assert (trace + [e])[|before|..] == trace[|before|..] + [e];
  }

  lemma MoreDispatches(before: seq<Event>, middle: seq<Event>, trace: seq<Event>)
    requires before <= middle <= trace
    requires Dispatches(middle[|before|..]) && Dispatches(trace[|middle|..])
    ensures before <= trace && Dispatches(trace[|before|..])
    ensures forall e :: e in middle[|before|..] || e in trace[|middle|..] ==> e in trace[|before|..]
  {
    assert trace[|before|..] == middle[|before|..] + trace[|middle|..];
  }

  /** The event is what the environment gave at some moment. */
  ghost predicate Observed(env: Env, e: Event) {
    match e
    case Poll(outcome) => exists t: nat :: env.outcome(t) == outcome
    case Land(k) => exists t: nat :: env.lands(t) == k
    case Dispatch(_, conn) => exists t: nat :: env.connected(t) == conn
    case Retain => true
  }

  ghost predicate AllObserved(env: Env, events: seq<Event>) { forall e :: e in events ==> Observed(env, e) }

  /** Requests for which there was nobody to ask. */
  predicate Fruitless(events: seq<Event>) { forall e :: e in events ==> e.Dispatch? && !e.connected }

  /** Nobody could be asked for any block that is still queued. */
  predicate NobodyToAsk(slices: seq<Slice>, events: seq<Event>) {
    forall k :: 0 <= k < |slices| && slices[k].blocks != [] ==> Dispatch(k, false) in events
  }

  lemma ObservedSnoc(env: Env, events: seq<Event>, e: Event)
    requires AllObserved(env, events) && Observed(env, e)
    ensures AllObserved(env, events + [e])
  {
  }

  lemma FruitlessMore(before: seq<Event>, trace: seq<Event>, e: Event)
    requires before <= trace && Fruitless(trace[|before|..]) && e.Dispatch? && !e.connected
    ensures Fruitless((trace + [e])[|before|..])
  {
    assert (trace + [e])[|before|..] == trace[|before|..] + [e];
  }

  lemma FruitlessBoth(before: seq<Event>, middle: seq<Event>, trace: seq<Event>)
    requires before <= middle <= trace
    requires Fruitless(middle[|before|..]) && Fruitless(trace[|middle|..])
    ensures Fruitless(trace[|before|..])
  {
    assert trace[|before|..] == middle[|before|..] + trace[|middle|..];
  }

  /** How often a future was polled. */
  function Polls(events: seq<Event>): nat
    decreases |events|
  {
    if events == [] then 0
    else Polls(events[..|events| - 1]) + if events[|events| - 1].Poll? then 1 else 0
  }

  lemma PollsSnoc(events: seq<Event>, e: Event)
    ensures Polls(events + [e]) == Polls(events) + if e.Poll? then 1 else 0
  {
    assert (events + [e])[..|events|] == events;
  }

  lemma LandSnoc(hash: Data -> Hash, s: Sched, events: seq<Event>, k: nat)
    requires IsRun(hash, s, events) && Enabled(Run(hash, s, events), Land(k))
    ensures IsRun(hash, s, events + [Land(k)]) && Polls(events + [Land(k)]) == Polls(events)
    ensures Run(hash, s, events + [Land(k)]) == LandWrite(Run(hash, s, events), k)
  {
    RunSnoc(hash, s, events, Land(k));
    PollsSnoc(events, Land(k));
  }

  lemma {:induction false} RunConcat(hash: Data -> Hash, s: Sched, a: seq<Event>, b: seq<Event>)
    requires IsRun(hash, s, a) && IsRun(hash, Run(hash, s, a), b)
    ensures IsRun(hash, s, a + b) && Run(hash, s, a + b) == Run(hash, Run(hash, s, a), b)
    decreases |a|
  {
    if a == [] {
      assert a + b == b;
    } else {
      assert (a + b)[1..] == a[1..] + b;
      RunConcat(hash, Next(hash, s, a[0]), a[1..], b);
    }
  }

  lemma {:induction false} RequeuedAt(slices: seq<Slice>, k: nat, index: nat, b: Block)
    requires k <= |slices| && forall m :: 0 <= m < k ==> slices[m].index != index
    ensures k < |slices| && slices[k].index == index ==>
              Requeued(slices, index, b)
              == slices[k := slices[k].(inProgress := slices[k].inProgress - 1, blocks := slices[k].blocks + [b])]
    ensures k == |slices| ==> Requeued(slices, index, b) == slices
  {
    if k > 0 {
      RequeuedAt(slices[1..], k - 1, index, b);
    }
  }

  lemma Reassociated<T>(a: seq<T>, b: seq<T>, c: seq<T>)
    ensures a + (b + c) == (a + b) + c
  {
  }

  lemma {:induction false} BusyAppend(a: seq<Slice>, b: seq<Slice>)
    ensures BusyOnes(a + b) == BusyOnes(a) + BusyOnes(b)
  {
    if a == [] {
      assert a + b == b;
    } else {
      assert (a + b)[0] == a[0] && (a + b)[1..] == a[1..] + b;
      BusyAppend(a[1..], b);
      Reassociated(if Busy(a[0]) then [a[0]] else [], BusyOnes(a[1..]), BusyOnes(b));
    }
  }

  lemma {:induction false} FinishedAppend(a: seq<Slice>, b: seq<Slice>)
    ensures Finished(a + b) == Finished(a) + Finished(b)
  {
    if a == [] {
      assert a + b == b;
    } else {
      assert (a + b)[0] == a[0] && (a + b)[1..] == a[1..] + b;
      FinishedAppend(a[1..], b);
      Reassociated(if Busy(a[0]) then [] else [a[0].index], Finished(a[1..]), Finished(b));
    }
  }

  lemma RetainOne(sl: Slice)
    ensures BusyOnes([sl]) == if Busy(sl) then [sl] else []
    ensures Finished([sl]) == if Busy(sl) then [] else [sl.index]
  {
  }

  /** What looking at one more slice adds to those that stay or to those announced. */
  lemma RetainOneMore(slices: seq<Slice>, k: nat)
    requires k < |slices|
    ensures BusyOnes(slices[..k + 1])
            == if Busy(slices[k]) then BusyOnes(slices[..k]) + [slices[k]] else BusyOnes(slices[..k])
    ensures Finished(slices[..k + 1])
            == if Busy(slices[k]) then Finished(slices[..k]) else Finished(slices[..k]) + [slices[k].index]
  {
    assert slices[..k + 1] == slices[..k] + [slices[k]];
    BusyAppend(slices[..k], [slices[k]]);
    FinishedAppend(slices[..k], [slices[k]]);
    RetainOne(slices[k]);
  }

  lemma {:induction false} MarkOneMore(mask: Mask.Word, indices: seq<nat>, i: nat)
    requires i < Mask.WIDTH && forall k :: 0 <= k < |indices| ==> indices[k] < Mask.WIDTH
    ensures MarkFetched(mask, indices + [i]) == Mask.SetFetched(MarkFetched(mask, indices), i)
    decreases |indices|
  {
    var all := indices + [i];
    if indices == [] {
      assert all[1..] == [];
    } else {
      assert all[1..] == indices[1..] + [i];
      MarkOneMore(Mask.SetFetched(mask, indices[0]), indices[1..], i);
    }
  }

  /** How far `retain` has got after looking at the first `k` slices of `s`. */
  ghost predicate Retaining(s: Sched, k: nat, kept: seq<Slice>, mask: Mask.Word, reported: seq<nat>)
    requires k <= |s.slices|
  {
    var done := Finished(s.slices[..k]);
    && kept == BusyOnes(s.slices[..k]) && reported == s.reported + done
    && (forall i :: 0 <= i < |done| ==> done[i] < Mask.WIDTH)
    && mask == MarkFetched(s.mask, done)
    && forall i :: 0 <= i < |kept| ==> kept[i].index < MAX_SLICES
  }

  lemma RetainingBusy(s: Sched, k: nat, kept: seq<Slice>, mask: Mask.Word, reported: seq<nat>)
    requires k < |s.slices| && s.slices[k].index < MAX_SLICES && Retaining(s, k, kept, mask, reported)
    requires Busy(s.slices[k])
    ensures Retaining(s, k + 1, kept + [s.slices[k]], mask, reported)
  {
    RetainOneMore(s.slices, k);
  }

  lemma RetainingFinished(s: Sched, k: nat, kept: seq<Slice>, mask: Mask.Word, reported: seq<nat>)
    requires k < |s.slices| && s.slices[k].index < MAX_SLICES && Retaining(s, k, kept, mask, reported)
    requires !Busy(s.slices[k])
    ensures Retaining(s, k + 1, kept, Mask.SetFetched(mask, s.slices[k].index), reported + [s.slices[k].index])
  {
    RetainOneMore(s.slices, k);
    MarkOneMore(s.mask, Finished(s.slices[..k]), s.slices[k].index);
  }

  lemma RetainingAll(s: Sched, kept: seq<Slice>, mask: Mask.Word, reported: seq<nat>)
    requires Retaining(s, |s.slices|, kept, mask, reported)
    ensures Enabled(s, Retain) && RetainBusy(s) == s.(slices := kept, mask := mask, reported := reported)
  {
    assert s.slices[..|s.slices|] == s.slices;
  }

  predicate SameIndices(a: seq<Slice>, b: seq<Slice>) {
    |a| == |b| && forall k :: 0 <= k < |a| ==> a[k].index == b[k].index
  }

  // ---- The object ----

  class FetchBlocks {
    var slices: seq<Slice>
    var futures: seq<Pending>
    var mask: Mask.Word
    var disk: map<string, Data>
    var retryTimeout: bool
    ghost var received: map<nat, multiset<Block>>
    ghost var reported: seq<nat>

    ghost function View(): Sched
      reads this
    {
      Sched(slices, futures, mask, disk, received, reported)
    }

    /** A retry timer is only ever set while there is something to fetch and nothing under way. */
    ghost predicate Valid()
      reads this
    {
      && (forall k :: 0 <= k < |slices| ==> slices[k].index < MAX_SLICES)
      && (retryTimeout ==> futures == [] && slices != [])
    }

    constructor (slices: seq<Slice>, mask: Mask.Word, disk: map<string, Data>,
                 ghost received: map<nat, multiset<Block>>)
      requires forall k :: 0 <= k < |slices| ==> slices[k].index < MAX_SLICES
      ensures Valid() && View() == Sched(slices, [], mask, disk, received, [])
    {
      this.slices, futures, this.mask, this.disk, retryTimeout := slices, [], mask, disk, false;
      this.received, reported := received, [];
    }

    // ---- FetchBlock::poll ----

    method Credit(index: nat)
      modifies `slices
      ensures slices == Credited(old(slices), index) && SameIndices(old(slices), slices)
    {
      for k := 0 to |slices|
        invariant |slices| == |old(slices)|
        invariant forall m :: k <= m < |slices| ==> slices[m] == old(slices)[m]
        invariant forall m :: 0 <= m < k ==>
                    slices[m] == if old(slices)[m].index == index
                                 then old(slices)[m].(inProgress := old(slices)[m].inProgress - 1) else old(slices)[m]
      {
        if slices[k].index == index {
          slices := slices[k := slices[k].(inProgress := slices[k].inProgress - 1)];
        }
      }
      SchedulerConservation.CreditedSlices(old(slices), index);
    }

    method Requeue(index: nat, b: Block)
      modifies `slices
      ensures slices == Requeued(old(slices), index, b) && SameIndices(old(slices), slices)
    {
      for k := 0 to |slices|
        invariant slices == old(slices)
        invariant forall m :: 0 <= m < k ==> slices[m].index != index
      {
        if slices[k].index == index {
          RequeuedAt(slices, k, index, b);
          slices := slices[k := slices[k].(inProgress := slices[k].inProgress - 1, blocks := slices[k].blocks + [b])];
          return;
        }
      }
      RequeuedAt(slices, |slices|, index, b);
    }

    /** Poll a future that has been taken from the head of the queue. */
    method PollOne(hash: Data -> Hash, f: Pending, outcome: Outcome) returns (step: Step)
      modifies `slices, `disk, `received
      ensures SameIndices(old(slices), slices)
      ensures var before := Sched(old(slices), [f] + old(futures), mask, old(disk), old(received), reported);
              View().(futures := futures + if step.Again? then [step.f] else []) == PollFront(hash, before, outcome)
    {
      ghost var before := Sched(slices, [f] + futures, mask, disk, received, reported);
      assert before.futures[1..] == futures;
      match f
      case Fetching(b, slice) => {
        match outcome
        case NotReady => {
          return Again(f);
        }
        case Reply(data, written) => {
          if hash(data) == b.hash {
            Credit(slice);
            received := Received(before, slice, b);
            if written {
              disk := WriteBlock(disk, b, data);
              return Done;
            }
            return Again(Writing(b, data, false));
          }
          Requeue(slice, b);
          return Failed;
        }
        case Failure => {
          Requeue(slice, b);
          return Failed;
        }
      }
      case Writing(_, _, landed) => {
        if landed {
          return Done;
        }
        return Again(f);
      }
    }

    // ---- The parts of FetchBlocks::poll ----

    /** The disk thread finishes the write at `k`. */
    method LandAt(k: nat)
      requires Valid() && Enabled(View(), Land(k))
      modifies `futures, `disk
      ensures Valid() && View() == LandWrite(old(View()), k)
    {
      var w := futures[k];
      disk := WriteBlock(disk, w.block, w.data);
      futures := futures[k := w.(landed := true)];
    }

    /** The disk thread may just have finished a write of the queue. */
    method LandIfAny(hash: Data -> Hash, env: Env, now: nat, ghost s0: Sched, ghost before: seq<Event>)
      returns (ghost trace: seq<Event>)
      requires Valid() && AllObserved(env, before)
      requires IsRun(hash, s0, before) && Run(hash, s0, before) == View()
      modifies `futures, `disk
      ensures Valid() && |futures| == |old(futures)|
      ensures IsRun(hash, s0, trace) && Run(hash, s0, trace) == View()
      ensures Polls(trace) == Polls(before) && AllObserved(env, trace)
    {
      trace := before;
      var k := env.lands(now);
      if k < |futures| && futures[k].Writing? && !futures[k].landed {
        LandSnoc(hash, s0, before, k);
        ObservedSnoc(env, before, Land(k));
        LandAt(k);
        trace := before + [Land(k)];
      }
    }

    /** The future at the head is taken, polled, and put at the end unless it is done or has failed. */
    method PollHead(hash: Data -> Hash, outcome: Outcome)
      requires Valid() && !retryTimeout && futures != []
      modifies `slices, `futures, `disk, `received
      ensures Valid() && |futures| >= |old(futures)| - 1
      ensures View() == PollFront(hash, old(View()), outcome)
    {
      var f := futures[0];
      futures := futures[1..];
      assert [f] + futures == old(futures);
      var step := PollOne(hash, f, outcome);
      if step.Again? {
        futures := futures + [step.f];
      }
    }

    /** The disk thread may finish a write, and then the future at the head is polled. */
    method PollNext(hash: Data -> Hash, env: Env, now: nat, ghost s0: Sched, ghost before: seq<Event>)
      returns (ghost trace: seq<Event>)
      requires Valid() && !retryTimeout && futures != [] && AllObserved(env, before)
      requires IsRun(hash, s0, before) && Run(hash, s0, before) == View()
      modifies `slices, `futures, `disk, `received
      ensures Valid() && |futures| >= |old(futures)| - 1
      ensures IsRun(hash, s0, trace) && Run(hash, s0, trace) == View()
      ensures Polls(trace) == Polls(before) + 1 && AllObserved(env, trace)
    {
      trace := LandIfAny(hash, env, now, s0, before);
      ghost var e := Event.Poll(env.outcome(now));
      RunSnoc(hash, s0, trace, e);
      PollsSnoc(trace, e);
      ObservedSnoc(env, trace, e);
      trace := trace + [e];
      PollHead(hash, env.outcome(now));
    }

    /** Each future that is in the queue now is polled once. */
    method PollAll(hash: Data -> Hash, env: Env, now: nat, ghost s0: Sched, ghost before: seq<Event>)
      returns (later: nat, ghost trace: seq<Event>)
      requires Valid() && !retryTimeout && AllObserved(env, before)
      requires IsRun(hash, s0, before) && Run(hash, s0, before) == View()
      modifies `slices, `futures, `disk, `received
      ensures Valid() && later == now + |old(futures)|
      ensures IsRun(hash, s0, trace) && Run(hash, s0, trace) == View()
      ensures Polls(trace) == Polls(before) + |old(futures)| && AllObserved(env, trace)
    {
      later, trace := now, before;
      var n := |futures|;
      for i := 0 to n
        invariant Valid() && |futures| >= n - i && Polls(trace) == Polls(before) + i
        invariant later == now + i && AllObserved(env, trace)
        invariant IsRun(hash, s0, trace) && Run(hash, s0, trace) == View()
      {
        trace := PollNext(hash, env, later, s0, trace);
        later := later + 1;
      }
    }

    /** Finished slices leave the deque and are announced. */
    method RetainAndReport()
      requires Valid() && !retryTimeout
      modifies `slices, `mask, `reported
      ensures Valid() && Enabled(old(View()), Retain) && View() == RetainBusy(old(View()))
    {
      var kept := [];
      ghost var before := View();
      for k := 0 to |slices|
        invariant slices == before.slices
        invariant Retaining(before, k, kept, mask, reported)
      {
        if Busy(slices[k]) {
          RetainingBusy(before, k, kept, mask, reported);
          kept := kept + [slices[k]];
        } else {
          RetainingFinished(before, k, kept, mask, reported);
          mask := Mask.SetFetched(mask, slices[k].index);
          reported := reported + [slices[k].index];
        }
      }
      RetainingAll(before, kept, mask, reported);
      slices := kept;
    }

    /** The first block of a slice is requested, or goes to the end when there is nobody to ask. */
    method DispatchOne(k: nat, conn: bool)
      requires Valid() && !retryTimeout && k < |slices| && slices[k].blocks != []
      modifies `slices, `futures
      ensures Valid() && View() == DispatchFrom(old(View()), k, conn)
    {
      var b, rest := slices[k].blocks[0], slices[k].blocks[1..];
      if conn {
        futures := futures + [Fetching(b, slices[k].index)];
        slices := slices[k := slices[k].(inProgress := slices[k].inProgress + 1, blocks := rest)];
      } else {
        slices := slices[k := slices[k].(blocks := rest + [b])];
      }
    }

    /** The same, recorded among the events since `before`. */
    method DispatchRecorded(hash: Data -> Hash, env: Env, now: nat, k: nat, ghost s0: Sched, ghost before: seq<Event>,
                            ghost sofar: seq<Event>)
      returns (conn: bool, ghost trace: seq<Event>)
      requires Valid() && !retryTimeout && k < |slices| && slices[k].blocks != [] && |futures| <= CONCURRENCY
      requires IsRun(hash, s0, sofar) && Run(hash, s0, sofar) == View()
      requires before <= sofar && Polls(sofar) == Polls(before) && Dispatches(sofar[|before|..])
      requires AllObserved(env, sofar)
      modifies `slices, `futures
      ensures conn == env.connected(now) && AllObserved(env, trace)
      ensures Valid() && View() == DispatchFrom(old(View()), k, conn)
      ensures IsRun(hash, s0, trace) && Run(hash, s0, trace) == View()
      ensures before <= trace && Polls(trace) == Polls(before) && Dispatches(trace[|before|..])
      ensures Dispatch(k, conn) in trace[|before|..]
      ensures !conn && Fruitless(sofar[|before|..]) ==> Fruitless(trace[|before|..])
    {
      conn := env.connected(now);
      RunSnoc(hash, s0, sofar, Dispatch(k, conn));
      PollsSnoc(sofar, Dispatch(k, conn));
      OneMoreDispatch(before, sofar, Dispatch(k, conn));
      ObservedSnoc(env, sofar, Dispatch(k, conn));
      if !conn && Fruitless(sofar[|before|..]) {
        FruitlessMore(before, sofar, Dispatch(k, conn));
      }
      trace := sofar + [Dispatch(k, conn)];
      DispatchOne(k, conn);
    }

    /** The inner loop: one slice, until it is empty, nobody can be asked, or the queue is full. */
    method DispatchSlice(hash: Data -> Hash, env: Env, k: nat, now: nat, ghost s0: Sched, ghost before: seq<Event>)
      returns (later: nat, added: nat, full: bool, ghost trace: seq<Event>)
      requires Valid() && !retryTimeout && k < |slices| && |futures| <= CONCURRENCY && AllObserved(env, before)
      requires IsRun(hash, s0, before) && Run(hash, s0, before) == View()
      modifies `slices, `futures
      ensures Valid() && |slices| == |old(slices)|
      ensures forall m :: 0 <= m < |slices| && m != k ==> slices[m] == old(slices)[m]
      ensures |futures| == |old(futures)| + added && (full ==> added > 0) && (!full ==> |futures| <= CONCURRENCY)
      ensures IsRun(hash, s0, trace) && Run(hash, s0, trace) == View()
      ensures before <= trace && Polls(trace) == Polls(before) && Dispatches(trace[|before|..])
      ensures AllObserved(env, trace) && (added == 0 ==> Fruitless(trace[|before|..]))
      ensures !full && slices[k].blocks != [] ==> Dispatch(k, false) in trace[|before|..]
    {
      later, added, full, trace := now, 0, false, before;
      while slices[k].blocks != []
        invariant Valid() && |slices| == |old(slices)|
        invariant forall m :: 0 <= m < |slices| && m != k ==> slices[m] == old(slices)[m]
        invariant |futures| == |old(futures)| + added && |futures| <= CONCURRENCY
        invariant IsRun(hash, s0, trace) && Run(hash, s0, trace) == View()
        invariant before <= trace && Polls(trace) == Polls(before) && Dispatches(trace[|before|..])
        invariant AllObserved(env, trace) && (added == 0 ==> Fruitless(trace[|before|..]))
        decreases |slices[k].blocks|
      {
        var conn;
        conn, trace := DispatchRecorded(hash, env, later, k, s0, before, trace);
        later := later + 1;
        if !conn {
          break;
        }
        added := added + 1;
        if |futures| > CONCURRENCY {
          full := true;
          return;
        }
      }
    }

    /**
     Request blocks slice by slice while there is a peer to ask and the queue is short enough. Unless the
     queue is full, the slices that keep blocks are those for which nobody could be asked just now.
     */
    method DispatchAll(hash: Data -> Hash, env: Env, now: nat, ghost s0: Sched, ghost before: seq<Event>)
      returns (later: nat, added: nat, full: bool, ghost trace: seq<Event>)
      requires Valid() && !retryTimeout && |futures| < CONCURRENCY && AllObserved(env, before)
      requires IsRun(hash, s0, before) && Run(hash, s0, before) == View()
      modifies `slices, `futures
      ensures Valid() && |slices| == |old(slices)| && |futures| == |old(futures)| + added
      ensures (full ==> added > 0) && before <= trace && Polls(trace) == Polls(before)
      ensures Dispatches(trace[|before|..]) && AllObserved(env, trace)
      ensures added == 0 ==> Fruitless(trace[|before|..])
      ensures !full ==> NobodyToAsk(slices, trace[|before|..])
      ensures IsRun(hash, s0, trace) && Run(hash, s0, trace) == View()
    {
      later, added, full, trace := now, 0, false, before;
      for k := 0 to |slices|
        invariant Valid() && |slices| == |old(slices)| && before <= trace && Polls(trace) == Polls(before)
        invariant |futures| == |old(futures)| + added && |futures| <= CONCURRENCY && Dispatches(trace[|before|..])
        invariant forall m :: 0 <= m < k && slices[m].blocks != [] ==> Dispatch(m, false) in trace[|before|..]
        invariant AllObserved(env, trace) && (added == 0 ==> Fruitless(trace[|before|..]))
        invariant IsRun(hash, s0, trace) && Run(hash, s0, trace) == View()
      {
        var more;
        ghost var middle := trace;
        later, more, full, trace := DispatchSlice(hash, env, k, later, s0, middle);
        MoreDispatches(before, middle, trace);
        if added + more == 0 {
          FruitlessBoth(before, middle, trace);
        }
        added := added + more;
        if full {
          return;
        }
      }
    }

    // ---- FetchBlocks::poll ----

    /** The first half of a pass: every future is polled once, and finished slices are announced. */
    method PollAndReport(hash: Data -> Hash, env: Env, now: nat, ghost s0: Sched, ghost before: seq<Event>)
      returns (later: nat, ghost trace: seq<Event>)
      requires Valid() && !retryTimeout && AllObserved(env, before)
      requires IsRun(hash, s0, before) && Run(hash, s0, before) == View()
      modifies `slices, `futures, `disk, `received, `mask, `reported
      ensures Valid() && later == now + |old(futures)|
      ensures IsRun(hash, s0, trace) && Run(hash, s0, trace) == View()
      ensures Polls(trace) == Polls(before) + |old(futures)| && AllObserved(env, trace)
      ensures trace != [] && trace[|trace| - 1].Retain?
    {
      later, trace := PollAll(hash, env, now, s0, before);
      RetainAndReport();
      RunSnoc(hash, s0, trace, Retain);
      PollsSnoc(trace, Retain);
      ObservedSnoc(env, trace, Retain);
      trace := trace + [Retain];
    }

    /**
     The second half: requests go out, and when none can and none is under way, the cluster may be stalled, or
     else the retry timer is set. It goes round again when there is a new request to poll or the timer is at once
     through.
     */
    method DispatchOrWait(hash: Data -> Hash, env: Env, now: nat, ghost s0: Sched, ghost before: seq<Event>)
      returns (later: nat, verdict: Option<Verdict>, ghost trace: seq<Event>)
      requires Valid() && !retryTimeout && |futures| < CONCURRENCY && !Complete(View()) && AllObserved(env, before)
      requires before != [] && before[|before| - 1].Retain?
      requires IsRun(hash, s0, before) && Run(hash, s0, before) == View()
      modifies `slices, `futures, `retryTimeout
      ensures Valid() && !Complete(View()) && (verdict == None ==> !retryTimeout)
      ensures IsRun(hash, s0, trace) && Run(hash, s0, trace) == View()
      ensures Polls(trace) == Polls(before) && AllObserved(env, trace) && trace != []
      ensures verdict == None || verdict == Some(Verdict.NotReady) || verdict == Some(Err)
      ensures verdict == Some(Err) ==> futures == [] && env.stalled(later)
      ensures verdict == Some(Verdict.NotReady) ==>
                (retryTimeout <==> futures == []) && (futures == [] ==> !env.stalled(later) && !env.timer(later))
      ensures verdict == None && futures == [] ==> exists t :: !env.stalled(t) && env.timer(t)
      ensures verdict.Some? ==> NobodyToAsk(slices, SinceRetain(trace)) && Fruitless(SinceRetain(trace))
    {
      var added, full;
      later, added, full, trace := DispatchAll(hash, env, now, s0, before);
      assert trace == before + trace[|before|..];
      SinceDispatches(before, trace[|before|..]);
      verdict := None;
      if full || added > 0 {
        return;
      }
      if futures == [] {
        if env.stalled(later) {
          verdict := Some(Err);
          return;
        }
        if env.timer(later) {
          later := later + 1;
          return;
        }
        retryTimeout := true;
      }
      verdict := Some(Verdict.NotReady);
    }

    /**
     One pass of the outer loop; `None` means that it goes round again. The deadline is asked for at the moment
     `now + |futures|`, after every future has been polled.
     */
    method Pass(hash: Data -> Hash, env: Env, now: nat, ghost s0: Sched, ghost before: seq<Event>)
      returns (later: nat, verdict: Option<Verdict>, ghost trace: seq<Event>)
      requires Valid() && !retryTimeout && AllObserved(env, before)
      requires IsRun(hash, s0, before) && Run(hash, s0, before) == View()
      modifies this
      ensures Valid() && verdict != Some(Running) && (verdict == None ==> !retryTimeout)
      ensures IsRun(hash, s0, trace) && Run(hash, s0, trace) == View()
      ensures Polls(trace) == Polls(before) + |old(futures)| && AllObserved(env, trace) && trace != []
      ensures verdict == Some(Ready) <==> Complete(View())
      ensures env.deadline(now + |old(futures)|) ==> verdict == Some(Ready) || verdict == Some(Err)
      ensures verdict == Some(Err) && !env.deadline(now + |old(futures)|) ==>
                futures == [] && env.stalled(later) && NobodyToAsk(slices, SinceRetain(trace))
      ensures verdict == Some(Verdict.NotReady) ==>
                (retryTimeout <==> futures == []) && (futures == [] ==> !env.stalled(later) && !env.timer(later))
      ensures verdict == None && futures == [] ==> exists t :: !env.stalled(t) && env.timer(t)
      ensures verdict == Some(Verdict.NotReady) ==> Fruitless(SinceRetain(trace))
      ensures verdict == Some(Verdict.NotReady) && |futures| < CONCURRENCY ==> NobodyToAsk(slices, SinceRetain(trace))
    {
      later, trace := PollAndReport(hash, env, now, s0, before);
      if futures == [] && slices == [] {
        verdict := Some(Ready);
      } else if env.deadline(later) {
        verdict := Some(Err);
      } else if |futures| >= CONCURRENCY {
        verdict := Some(Verdict.NotReady);
      } else {
        later, verdict, trace := DispatchOrWait(hash, env, later, s0, trace);
      }
    }

    /**
     One poll, cut off after `passes` passes of its outer loop. It is a run of the scheduler whose events are what
     the environment gave.

     It answers `Ready` exactly when it leaves nothing to fetch or to write. It answers `Err` only with something
     left, and only because the deadline had passed or, with nothing under way and nobody to ask, the cluster was
     stalled; once the deadline has passed it ends. It answers `NotReady` only after polling every future there is,
     with none requested since, with a future or the timer to wake it, and with ten requests and writes under way or
     nobody to ask for the blocks still queued.
     */
    method Poll(hash: Data -> Hash, env: Env, passes: nat) returns (verdict: Verdict, ghost trace: seq<Event>)
      requires Valid()
      modifies this
      ensures Valid()
      ensures IsRun(hash, old(View()), trace) && Run(hash, old(View()), trace) == View() && AllObserved(env, trace)
      ensures verdict == Ready ==> Complete(View())
      ensures verdict == Err || verdict == Verdict.NotReady ==> !Complete(View())
      ensures verdict == Err ==>
                || (exists t :: env.deadline(t))
                || (futures == [] && (exists t :: env.stalled(t)) && NobodyToAsk(slices, SinceRetain(trace)))
      ensures passes > 0 && !(old(retryTimeout) && !env.timer(0)) && env.deadline(|old(futures)|) ==>
                verdict == if Complete(View()) then Ready else Err
      ensures verdict == Verdict.NotReady ==> (retryTimeout <==> futures == [])
      ensures verdict == Verdict.NotReady && trace == [] <==> old(retryTimeout) && !env.timer(0)
      ensures verdict == Verdict.NotReady ==> Fruitless(SinceRetain(trace))
      ensures passes > 0 && !(old(retryTimeout) && !env.timer(0)) ==> Polls(trace) >= |old(futures)|
      ensures verdict == Verdict.NotReady && trace != [] && |futures| < CONCURRENCY ==>
                NobodyToAsk(slices, SinceRetain(trace))
    {
      ghost var s0 := View();
      trace := [];
      var now := 0;
      if retryTimeout {
        if !env.timer(now) {
          return Verdict.NotReady, trace;
        }
        retryTimeout := false;
      }
      for pass := 0 to passes
        invariant Valid() && !retryTimeout && (pass == 0 ==> futures == old(futures) && trace == [] && now == 0)
        invariant pass > 0 ==> Polls(trace) >= |old(futures)| && !env.deadline(|old(futures)|)
        invariant IsRun(hash, s0, trace) && Run(hash, s0, trace) == View() && AllObserved(env, trace)
      {
        var answer;
        now, answer, trace := Pass(hash, env, now, s0, trace);
        if answer.Some? {
          return answer.value, trace;
        }
      }
      return Running, trace;
    }
  }
}
