/** No reachable state of the scheduler is a dead end: whatever has happened, the download can still finish. */
module SchedulerProgress {
  import opened Scheduler
  import opened SchedulerConservation
  import opened SchedulerReconstruction

  /** The blocks still queued, over all slices. */
  function Queued(slices: seq<Slice>): nat {
    if slices == [] then 0 else |slices[0].blocks| + Queued(slices[1..])
  }

  lemma {:induction false} QueuedAsBefore(a: seq<Slice>, b: seq<Slice>)
    requires |a| == |b| && forall k :: 0 <= k < |a| ==> a[k].blocks == b[k].blocks
    ensures Queued(a) == Queued(b)
  {
    if a != [] {
      QueuedAsBefore(a[1..], b[1..]);
    }
  }

  lemma {:induction false} QueuedOneLess(slices: seq<Slice>, k: nat, sl: Slice)
    requires k < |slices| && |sl.blocks| + 1 == |slices[k].blocks|
    ensures Queued(slices[k := sl]) + 1 == Queued(slices)
  {
    if k == 0 {
      assert slices[k := sl][1..] == slices[1..];
    } else {
      assert slices[k := sl][1..] == slices[1..][k - 1 := sl];
      QueuedOneLess(slices[1..], k - 1, sl);
    }
  }

  lemma RunFrom(hash: Data -> Hash, s: Sched, e: Event, rest: seq<Event>)
    requires Enabled(s, e) && IsRun(hash, Next(hash, s, e), rest)
    ensures IsRun(hash, s, [e] + rest) && Run(hash, s, [e] + rest) == Run(hash, Next(hash, s, e), rest)
  {
    assert ([e] + rest)[1..] == rest;
  }

  lemma AnswerTakesFront(hash: Data -> Hash, s: Sched, data: Data)
    requires s.futures != [] && s.futures[0].Fetching? && hash(data) == s.futures[0].block.hash
    ensures var t := PollFront(hash, s, Reply(data, true));
            |t.futures| < |s.futures| && Queued(t.slices) == Queued(s.slices)
  {
    var t := PollFront(hash, s, Reply(data, true));
    CreditedSlices(s.slices, s.futures[0].slice);
    QueuedAsBefore(s.slices, t.slices);
  }

  /** The peer has the block and answers with it. */
  lemma Answer(hash: Data -> Hash, j: Job, s: Sched) returns (e: Event)
    requires Sound(hash, j) && Conserved(j, s) && s.futures != [] && s.futures[0].Fetching?
    ensures Enabled(s, e) && |Next(hash, s, e).futures| < |s.futures|
    ensures Queued(Next(hash, s, e).slices) == Queued(s.slices)
  {
    RequestIsPlanned(j, s, 0);
    var b := s.futures[0].block;
    assert b in j.planned[s.futures[0].slice] && Right(hash, j, b);
    var data := Part(j.source[b.path], b.offset, j.blockSize);
    AnswerTakesFront(hash, s, data);
    e := Poll(Reply(data, true));
  }

  lemma QueueSettled(hash: Data -> Hash, j: Job, s: Sched)
    requires Inv(hash, j, s) && s.futures == [] && forall k :: 0 <= k < |s.slices| ==> s.slices[k].blocks == []
    ensures BusyOnes(s.slices) == []
  {
    forall k | 0 <= k < |s.slices| ensures !Busy(s.slices[k]) {
      assert Balanced(j, s, s.slices[k]);
    }
    NoneBusy(s.slices);
  }

  lemma {:induction false} NoneBusy(slices: seq<Slice>)
    requires forall k :: 0 <= k < |slices| ==> !Busy(slices[k])
    ensures BusyOnes(slices) == []
  {
    if slices != [] {
      NoneBusy(slices[1..]);
    }
  }

  /** From every state that satisfies the invariant some run completes the download. */
  lemma {:induction false} CanFinish(hash: Data -> Hash, j: Job, s: Sched) returns (events: seq<Event>)
    requires Sound(hash, j) && Inv(hash, j, s)
    ensures IsRun(hash, s, events) && Complete(Run(hash, s, events))
    decreases Queued(s.slices), |s.futures|
  {
    if s.futures != [] {
      if s.futures[0].Fetching? {
        var e := Answer(hash, j, s);
        NextKeepsInv(hash, j, s, e);
        var rest := CanFinish(hash, j, Next(hash, s, e));
        RunFrom(hash, s, e, rest);
        events := [e] + rest;
      } else if s.futures[0].landed {
        var e := Poll(NotReady);
        NextKeepsInv(hash, j, s, e);
        var rest := CanFinish(hash, j, Next(hash, s, e));
        RunFrom(hash, s, e, rest);
        events := [e] + rest;
      } else {
        var e, f := Land(0), Poll(NotReady);
        NextKeepsInv(hash, j, s, e);
        var t := Next(hash, s, e);
        NextKeepsInv(hash, j, t, f);
        var rest := CanFinish(hash, j, Next(hash, t, f));
        RunFrom(hash, t, f, rest);
        RunFrom(hash, s, e, [f] + rest);
        events := [e] + ([f] + rest);
      }
    } else if k: nat :| k < |s.slices| && s.slices[k].blocks != [] {
      var e := Dispatch(k, true);
      NextKeepsInv(hash, j, s, e);
      QueuedOneLess(s.slices, k, Next(hash, s, e).slices[k]);
      var rest := CanFinish(hash, j, Next(hash, s, e));
      RunFrom(hash, s, e, rest);
      events := [e] + rest;
    } else {
      QueueSettled(hash, j, s);
      FinishedAreSlices(j, s);
      RunFrom(hash, s, Retain, []);
      events := [Retain];
    }
  }

  // ---- Nobody to ask ----

  function Unanswered(k: nat, n: nat): seq<Event> { seq(n, i => Dispatch(k, false)) }

  lemma RotateOnce(blocks: seq<Block>, n: nat)
    requires 0 < n <= |blocks|
    ensures var turned := blocks[n - 1..] + blocks[..n - 1];
            turned != [] && turned[1..] + [turned[0]] == blocks[n..] + blocks[..n]
  {
  }

  /** While nobody can be asked, each dispatch tries the next block of the slice, none twice before all were tried. */
  lemma {:induction false} NobodyToAskRotates(hash: Data -> Hash, s: Sched, k: nat, n: nat)
    requires k < |s.slices| && |s.futures| <= CONCURRENCY && n <= |s.slices[k].blocks|
    ensures IsRun(hash, s, Unanswered(k, n))
    ensures var blocks := s.slices[k].blocks;
            Run(hash, s, Unanswered(k, n))
            == s.(slices := s.slices[k := s.slices[k].(blocks := blocks[n..] + blocks[..n])])
    decreases n
  {
    var blocks := s.slices[k].blocks;
    if n == 0 {
      assert blocks[0..] + blocks[..0] == blocks;
      assert s.slices[k := s.slices[k].(blocks := blocks)] == s.slices;
    } else {
      var before := Unanswered(k, n - 1);
      NobodyToAskRotates(hash, s, k, n - 1);
      assert Unanswered(k, n) == before + [Dispatch(k, false)];
      RunSnoc(hash, s, before, Dispatch(k, false));
      RotateOnce(blocks, n);
      var sl := s.slices[k].(blocks := blocks[n - 1..] + blocks[..n - 1]);
      var last := s.slices[k].(blocks := blocks[n..] + blocks[..n]);
      assert s.slices[k := sl][k := last] == s.slices[k := last];
    }
  }
}
