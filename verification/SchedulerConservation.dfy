/** No event loses or repeats a block, miscounts a slice, or lets the mask run ahead of the data. */
module SchedulerConservation {
  import opened Seqs
  import Mask
  import opened Scheduler

  // ---- The queue of futures ----

  lemma {:induction false} InFlightAppend(a: seq<Pending>, b: seq<Pending>, i: nat)
    ensures InFlight(a + b, i) == InFlight(a, i) + InFlight(b, i)
  {
    if a == [] {
      assert a + b == b;
    } else {
      assert (a + b)[1..] == a[1..] + b;
      InFlightAppend(a[1..], b, i);
    }
  }

  lemma InFlightOne(f: Pending, i: nat)
    ensures InFlight([f], i) == if f.Fetching? && f.slice == i then multiset{f.block} else multiset{}
  {
  }

  lemma InFlightSplit(futures: seq<Pending>, k: nat, i: nat)
    requires k < |futures|
    ensures InFlight(futures, i) == InFlight(futures[..k], i) + InFlight([futures[k]], i) + InFlight(futures[k + 1..], i)
  {
    assert futures == futures[..k] + ([futures[k]] + futures[k + 1..]);
    InFlightAppend(futures[..k], [futures[k]] + futures[k + 1..], i);
    InFlightAppend([futures[k]], futures[k + 1..], i);
  }

  lemma InFlightUpdate(futures: seq<Pending>, k: nat, f: Pending, i: nat)
    requires k < |futures| && futures[k].Writing? && f.Writing?
    ensures InFlight(futures[k := f], i) == InFlight(futures, i)
  {
    var after := futures[k := f];
    InFlightSplit(futures, k, i);
    InFlightSplit(after, k, i);
    assert after[..k] == futures[..k] && after[k + 1..] == futures[k + 1..];
  }

  // ---- The deque of slices ----

  lemma {:induction false} RequeuedSlices(slices: seq<Slice>, index: nat, b: Block)
    requires DistinctIndices(slices)
    ensures |Requeued(slices, index, b)| == |slices|
    ensures forall k :: 0 <= k < |slices| ==>
                          Requeued(slices, index, b)[k]
                          == if slices[k].index == index
                             then slices[k].(inProgress := slices[k].inProgress - 1, blocks := slices[k].blocks + [b])
                             else slices[k]
  {
    if slices != [] && slices[0].index != index {
      RequeuedSlices(slices[1..], index, b);
    }
  }

  lemma {:induction false} CreditedSlices(slices: seq<Slice>, index: nat)
    ensures |Credited(slices, index)| == |slices|
    ensures forall k :: 0 <= k < |slices| ==>
                          Credited(slices, index)[k]
                          == if slices[k].index == index then slices[k].(inProgress := slices[k].inProgress - 1)
                             else slices[k]
  {
    if slices != [] {
      CreditedSlices(slices[1..], index);
    }
  }

  /** Updating slices in place keeps the set of indices. */
  lemma SameIndices(a: seq<Slice>, b: seq<Slice>)
    requires |a| == |b| && forall k :: 0 <= k < |a| ==> a[k].index == b[k].index
    ensures Indices(a) == Indices(b)
    ensures DistinctIndices(a) <==> DistinctIndices(b)
  {
    forall k | 0 <= k < |a| ensures a[k].index in Indices(b) && b[k].index in Indices(a) {
    }
  }

  lemma IndexOf(slices: seq<Slice>, i: nat) returns (k: nat)
    requires i in Indices(slices)
    ensures k < |slices| && slices[k].index == i
  {
    k :| 0 <= k < |slices| && slices[k].index == i;
  }

  /** Splitting the deque into the slices that stay and those that are announced. */
  lemma {:induction false} SplitByBusy(slices: seq<Slice>)
    ensures forall k :: 0 <= k < |BusyOnes(slices)| ==> BusyOnes(slices)[k] in slices && Busy(BusyOnes(slices)[k])
    ensures forall sl :: sl in slices && Busy(sl) ==> sl in BusyOnes(slices)
    ensures forall i :: i in Finished(slices) <==> exists k :: 0 <= k < |slices| && slices[k].index == i && !Busy(slices[k])
  {
    if slices != [] {
      SplitByBusy(slices[1..]);
      assert slices == [slices[0]] + slices[1..];
      var rest := BusyOnes(slices[1..]);
      forall k | 0 <= k < |BusyOnes(slices)| ensures BusyOnes(slices)[k] in slices && Busy(BusyOnes(slices)[k]) {
        if BusyOnes(slices)[k] in rest {
          var k' :| 0 <= k' < |rest| && rest[k'] == BusyOnes(slices)[k];
        }
      }
      forall i ensures i in Finished(slices) <==>
                         exists k :: 0 <= k < |slices| && slices[k].index == i && !Busy(slices[k])
      {
        if i in Finished(slices[1..]) {
          var k :| 0 <= k < |slices[1..]| && slices[1..][k].index == i && !Busy(slices[1..][k]);
          assert slices[k + 1].index == i && !Busy(slices[k + 1]);
        }
        if k :| 0 <= k < |slices| && slices[k].index == i && !Busy(slices[k]) {
          if k > 0 {
            assert slices[1..][k - 1].index == i && !Busy(slices[1..][k - 1]);
          }
        }
      }
    }
  }

  lemma IndicesOfCons(sl: Slice, rest: seq<Slice>)
    ensures Indices([sl] + rest) == {sl.index} + Indices(rest)
    ensures DistinctIndices([sl] + rest) <==> sl.index !in Indices(rest) && DistinctIndices(rest)
  {
    var all := [sl] + rest;
    forall i ensures i in Indices(all) <==> i == sl.index || i in Indices(rest) {
      assert all[0] == sl;
      if i in Indices(rest) {
        var k := IndexOf(rest, i);
        assert all[k + 1].index == i;
      }
      if i in Indices(all) && i != sl.index {
        var k := IndexOf(all, i);
        assert rest[k - 1].index == i;
      }
    }
    forall a, b | 0 <= a < b < |rest| && DistinctIndices(all) ensures rest[a].index != rest[b].index {
      assert all[a + 1] == rest[a] && all[b + 1] == rest[b];
    }
    if sl.index in Indices(rest) {
      var k := IndexOf(rest, sl.index);
      assert all[k + 1].index == all[0].index;
    }
  }

  lemma {:induction false} SplitDistinct(slices: seq<Slice>)
    requires DistinctIndices(slices)
    ensures DistinctIndices(BusyOnes(slices)) && NoRepeats(Finished(slices))
    ensures forall i :: i in Finished(slices) ==> i !in Indices(BusyOnes(slices))
    ensures Indices(slices) == Indices(BusyOnes(slices)) + set i | i in Finished(slices)
  {
    if slices != [] {
      var rest := slices[1..];
      assert slices == [slices[0]] + rest;
      IndicesOfCons(slices[0], rest);
      SplitDistinct(rest);
      IndicesOfCons(slices[0], BusyOnes(rest));
      var done := Finished(slices);
      forall i ensures i in Indices(slices) <==> i in Indices(BusyOnes(slices)) || i in done {
        assert Busy(slices[0]) ==> BusyOnes(slices) == [slices[0]] + BusyOnes(rest) && done == Finished(rest);
        assert !Busy(slices[0]) ==> BusyOnes(slices) == BusyOnes(rest) && done == [slices[0].index] + Finished(rest);
        assert i in Indices(rest) <==> i in Indices(BusyOnes(rest)) + set x | x in Finished(rest);
      }
    }
  }

  lemma {:induction false} MarkedBits(mask: Mask.Word, indices: seq<nat>)
    requires forall k :: 0 <= k < |indices| ==> indices[k] < Mask.WIDTH
    ensures Mask.Bits(MarkFetched(mask, indices)) == Mask.Bits(mask) + set i | i in indices
    decreases |indices|
  {
    if indices != [] {
      MarkedBits(Mask.SetFetched(mask, indices[0]), indices[1..]);
      Mask.BitsOfFetched(mask, indices[0]);
      assert indices == [indices[0]] + indices[1..];
    }
  }

  // ---- Conservation, event by event ----

  /** Moving, landing or dropping writes changes nothing that is counted. */
  lemma SameFlight(j: Job, s: Sched, t: Sched)
    requires Conserved(j, s) && t.slices == s.slices && t.received == s.received
    requires forall i: nat :: InFlight(t.futures, i) == InFlight(s.futures, i)
    requires |t.futures| <= CONCURRENCY + 1
    requires forall k :: 0 <= k < |t.futures| && t.futures[k].Fetching? ==> t.futures[k].slice in j.planned
    ensures Conserved(j, t)
  {
    forall k | 0 <= k < |t.slices| ensures Balanced(j, t, t.slices[k]) {
      assert Balanced(j, s, s.slices[k]);
    }
  }

  lemma FrontInFlight(futures: seq<Pending>, i: nat)
    requires futures != []
    ensures InFlight(futures, i) == InFlight([futures[0]], i) + InFlight(futures[1..], i)
  {
    InFlightOne(futures[0], i);
  }

  /** The slice that a requested block was taken from is always in the deque, with a counter above zero. */
  lemma OwnerPresent(j: Job, s: Sched, k: nat) returns (o: nat)
    requires Conserved(j, s) && k < |s.futures| && s.futures[k].Fetching?
    ensures o < |s.slices| && s.slices[o].index == s.futures[k].slice && s.slices[o].inProgress > 0
  {
    var i := s.futures[k].slice;
    InFlightSplit(s.futures, k, i);
    assert s.futures[k].block in InFlight(s.futures, i);
    o := IndexOf(s.slices, i);
    assert Balanced(j, s, s.slices[o]);
  }

  /** What the queue counts after its head, a request, is taken and at most writes are added. */
  lemma HeadTaken(futures: seq<Pending>, extra: seq<Pending>, i: nat)
    requires futures != [] && futures[0].Fetching?
    requires forall k :: 0 <= k < |extra| ==> extra[k].Writing?
    ensures InFlight(futures, i)
            == InFlight(futures[1..] + extra, i) + if futures[0].slice == i then multiset{futures[0].block} else multiset{}
  {
    InFlightAppend(futures[1..], extra, i);
    WritesAreNotCounted(extra, i);
  }

  lemma {:induction false} WritesAreNotCounted(futures: seq<Pending>, i: nat)
    requires forall k :: 0 <= k < |futures| ==> futures[k].Writing?
    ensures InFlight(futures, i) == multiset{}
  {
    if futures != [] {
      WritesAreNotCounted(futures[1..], i);
    }
  }

  /** The counts of a slice whose requested block arrived, and of the slices it does not concern. */
  lemma CreditBalances(j: Job, s: Sched, t: Sched, extra: seq<Pending>, sl: Slice)
    requires s.futures != [] && s.futures[0].Fetching? && Balanced(j, s, sl)
    requires forall k :: 0 <= k < |extra| ==> extra[k].Writing?
    requires t.futures == s.futures[1..] + extra
    requires t.received == Received(s, s.futures[0].slice, s.futures[0].block)
    ensures Balanced(j, t, if sl.index == s.futures[0].slice then sl.(inProgress := sl.inProgress - 1) else sl)
  {
    HeadTaken(s.futures, extra, sl.index);
  }

  lemma OthersStayGone(j: Job, s: Sched, t: Sched, extra: seq<Pending>, n: nat)
    requires s.futures != [] && s.futures[0].Fetching? && s.futures[0].slice != n && Gone(j, s, n)
    requires forall k :: 0 <= k < |extra| ==> extra[k].Writing?
    requires t.futures == s.futures[1..] + extra && n in t.received && t.received[n] == s.received[n]
    ensures Gone(j, t, n)
  {
    HeadTaken(s.futures, extra, n);
  }

  lemma CreditKeepsBalanced(j: Job, s: Sched, t: Sched, extra: seq<Pending>)
    requires AllBalanced(j, s) && s.futures != [] && s.futures[0].Fetching?
    requires forall k :: 0 <= k < |extra| ==> extra[k].Writing?
    requires t.slices == Credited(s.slices, s.futures[0].slice) && t.futures == s.futures[1..] + extra
    requires t.received == Received(s, s.futures[0].slice, s.futures[0].block)
    ensures AllBalanced(j, t) && Indices(t.slices) == Indices(s.slices)
    ensures DistinctIndices(s.slices) ==> DistinctIndices(t.slices)
  {
    CreditedSlices(s.slices, s.futures[0].slice);
    SameIndices(s.slices, t.slices);
    forall k | 0 <= k < |t.slices| ensures Balanced(j, t, t.slices[k]) {
      CreditBalances(j, s, t, extra, s.slices[k]);
    }
  }

  lemma TakenKeepsGone(j: Job, s: Sched, t: Sched, extra: seq<Pending>)
    requires OthersGone(j, s) && s.futures != [] && s.futures[0].Fetching?
    requires forall k :: 0 <= k < |extra| ==> extra[k].Writing?
    requires s.futures[0].slice in Indices(s.slices) && Indices(t.slices) == Indices(s.slices)
    requires t.futures == s.futures[1..] + extra && t.received.Keys >= s.received.Keys
    requires forall i :: i in s.received && i != s.futures[0].slice ==> t.received[i] == s.received[i]
    ensures OthersGone(j, t)
  {
    forall n | n in j.planned && n !in Indices(t.slices) ensures Gone(j, t, n) {
      OthersStayGone(j, s, t, extra, n);
    }
  }

  lemma TakenKeepsPlanned(j: Job, futures: seq<Pending>, extra: seq<Pending>)
    requires RequestsPlanned(j, futures) && futures != []
    requires forall k :: 0 <= k < |extra| ==> extra[k].Writing?
    ensures RequestsPlanned(j, futures[1..] + extra)
  {
  }

  lemma ReceivedKeys(s: Sched, i: nat, b: Block)
    requires i in s.received
    ensures Received(s, i, b).Keys == s.received.Keys
    ensures forall n :: n in s.received && n != i ==> Received(s, i, b)[n] == s.received[n]
  {
  }

  lemma CreditKeepsConserved(j: Job, s: Sched, t: Sched, extra: seq<Pending>)
    requires Conserved(j, s) && s.futures != [] && s.futures[0].Fetching?
    requires |extra| <= 1 && forall k :: 0 <= k < |extra| ==> extra[k].Writing?
    requires t.slices == Credited(s.slices, s.futures[0].slice) && t.futures == s.futures[1..] + extra
    requires t.received == Received(s, s.futures[0].slice, s.futures[0].block)
    ensures Conserved(j, t)
  {
    var o := OwnerPresent(j, s, 0);
    assert s.slices[o].index in Indices(s.slices);
    ReceivedKeys(s, s.futures[0].slice, s.futures[0].block);
    CreditKeepsBalanced(j, s, t, extra);
    TakenKeepsPlanned(j, s.futures, extra);
    TakenKeepsGone(j, s, t, extra);
  }

  lemma RequeueBalances(j: Job, s: Sched, t: Sched, sl: Slice)
    requires s.futures != [] && s.futures[0].Fetching? && Balanced(j, s, sl)
    requires t.futures == s.futures[1..] && t.received == s.received
    ensures Balanced(j, t, if sl.index == s.futures[0].slice
                           then sl.(inProgress := sl.inProgress - 1, blocks := sl.blocks + [s.futures[0].block]) else sl)
  {
    assert t.futures == s.futures[1..] + [];
    HeadTaken(s.futures, [], sl.index);
  }

  lemma RequeueKeepsBalanced(j: Job, s: Sched, t: Sched)
    requires AllBalanced(j, s) && DistinctIndices(s.slices) && s.futures != [] && s.futures[0].Fetching?
    requires t.slices == Requeued(s.slices, s.futures[0].slice, s.futures[0].block) && t.futures == s.futures[1..]
    requires t.received == s.received
    ensures AllBalanced(j, t) && Indices(t.slices) == Indices(s.slices) && DistinctIndices(t.slices)
  {
    RequeuedSlices(s.slices, s.futures[0].slice, s.futures[0].block);
    SameIndices(s.slices, t.slices);
    forall k | 0 <= k < |t.slices| ensures Balanced(j, t, t.slices[k]) {
      RequeueBalances(j, s, t, s.slices[k]);
    }
  }

  lemma RequeueKeepsConserved(j: Job, s: Sched, t: Sched)
    requires Conserved(j, s) && s.futures != [] && s.futures[0].Fetching?
    requires t.slices == Requeued(s.slices, s.futures[0].slice, s.futures[0].block) && t.futures == s.futures[1..]
    requires t.received == s.received
    ensures Conserved(j, t)
  {
    var o := OwnerPresent(j, s, 0);
    assert s.slices[o].index in Indices(s.slices);
    RequeueKeepsBalanced(j, s, t);
    assert t.futures == s.futures[1..] + [];
    TakenKeepsGone(j, s, t, []);
  }

  lemma RetainKeepsBalanced(j: Job, s: Sched, t: Sched)
    requires AllBalanced(j, s) && t.slices == BusyOnes(s.slices) && t.futures == s.futures && t.received == s.received
    ensures AllBalanced(j, t)
  {
    SplitByBusy(s.slices);
    forall k | 0 <= k < |t.slices| ensures Balanced(j, t, t.slices[k]) {
      var m :| 0 <= m < |s.slices| && s.slices[m] == t.slices[k];
      assert Balanced(j, s, s.slices[m]);
    }
  }

  /** A slice that is neither queued nor in flight has all its blocks. */
  lemma IdleIsGone(j: Job, s: Sched, t: Sched, m: nat)
    requires AllBalanced(j, s) && m < |s.slices| && !Busy(s.slices[m])
    requires t.futures == s.futures && t.received == s.received
    ensures Gone(j, t, s.slices[m].index)
  {
    assert Balanced(j, s, s.slices[m]);
  }

  lemma RetainKeepsGone(j: Job, s: Sched, t: Sched)
    requires AllBalanced(j, s) && OthersGone(j, s) && DistinctIndices(s.slices)
    requires t.slices == BusyOnes(s.slices) && t.futures == s.futures && t.received == s.received
    ensures OthersGone(j, t)
  {
    SplitByBusy(s.slices);
    SplitDistinct(s.slices);
    forall n | n in j.planned && n !in Indices(t.slices) ensures Gone(j, t, n) {
      if n in Indices(s.slices) {
        var m: nat :| m < |s.slices| && s.slices[m].index == n && !Busy(s.slices[m]);
        IdleIsGone(j, s, t, m);
      } else {
        assert Gone(j, s, n);
      }
    }
  }

  lemma RetainKeepsConserved(j: Job, s: Sched, t: Sched)
    requires Conserved(j, s)
    requires t.slices == BusyOnes(s.slices) && t.futures == s.futures && t.received == s.received
    ensures Conserved(j, t)
  {
    SplitDistinct(s.slices);
    RetainKeepsBalanced(j, s, t);
    RetainKeepsGone(j, s, t);
  }

  /** A new request is counted for its own slice only. */
  lemma RequestAdded(futures: seq<Pending>, b: Block, slice: nat, i: nat)
    ensures InFlight(futures + [Fetching(b, slice)], i)
            == InFlight(futures, i) + if slice == i then multiset{b} else multiset{}
  {
    InFlightAppend(futures, [Fetching(b, slice)], i);
    InFlightOne(Fetching(b, slice), i);
  }

  lemma RequestBalances(j: Job, s: Sched, t: Sched, taken: Slice, sl: Slice)
    requires taken.blocks != [] && Balanced(j, s, sl)
    requires t.futures == s.futures + [Fetching(taken.blocks[0], taken.index)] && t.received == s.received
    ensures sl == taken ==> Balanced(j, t, sl.(inProgress := sl.inProgress + 1, blocks := sl.blocks[1..]))
    ensures sl.index != taken.index ==> Balanced(j, t, sl)
  {
    assert taken.blocks == [taken.blocks[0]] + taken.blocks[1..];
    RequestAdded(s.futures, taken.blocks[0], taken.index, sl.index);
  }

  lemma RequestKeepsBalanced(j: Job, s: Sched, t: Sched, k: nat)
    requires AllBalanced(j, s) && DistinctIndices(s.slices)
    requires Enabled(s, Dispatch(k, true)) && t == DispatchFrom(s, k, true)
    ensures AllBalanced(j, t)
  {
    forall m | 0 <= m < |t.slices| ensures Balanced(j, t, t.slices[m]) {
      assert m != k ==> s.slices[m].index != s.slices[k].index;
      RequestBalances(j, s, t, s.slices[k], s.slices[m]);
    }
  }

  lemma RequestKeepsGone(j: Job, s: Sched, t: Sched, b: Block, slice: nat)
    requires OthersGone(j, s) && slice in Indices(s.slices) && Indices(t.slices) == Indices(s.slices)
    requires t.futures == s.futures + [Fetching(b, slice)] && t.received == s.received
    ensures OthersGone(j, t)
  {
    forall n | n in j.planned && n !in Indices(t.slices) ensures Gone(j, t, n) {
      RequestAdded(s.futures, b, slice, n);
    }
  }

  lemma RequestKeepsConserved(j: Job, s: Sched, t: Sched, k: nat)
    requires Conserved(j, s) && Enabled(s, Dispatch(k, true)) && t == DispatchFrom(s, k, true)
    ensures Conserved(j, t)
  {
    var sl := s.slices[k];
    SameIndices(s.slices, t.slices);
    assert sl.index in Indices(s.slices) && Balanced(j, s, sl);
    RequestKeepsBalanced(j, s, t, k);
    RequestKeepsGone(j, s, t, sl.blocks[0], sl.index);
  }

  lemma SetAsideKeepsBalanced(j: Job, s: Sched, t: Sched, k: nat)
    requires AllBalanced(j, s) && k < |s.slices| && s.slices[k].blocks != [] && t == DispatchFrom(s, k, false)
    ensures AllBalanced(j, t)
  {
    var blocks := s.slices[k].blocks;
    assert blocks == [blocks[0]] + blocks[1..];
    forall m | 0 <= m < |t.slices| ensures Balanced(j, t, t.slices[m]) {
      assert Balanced(j, s, s.slices[m]);
    }
  }

  lemma SetAsideKeepsConserved(j: Job, s: Sched, t: Sched, k: nat)
    requires Conserved(j, s) && Enabled(s, Dispatch(k, false)) && t == DispatchFrom(s, k, false)
    ensures Conserved(j, t)
  {
    SetAsideKeepsBalanced(j, s, t, k);
    SameIndices(s.slices, t.slices);
    forall n | n in j.planned && n !in Indices(t.slices) ensures Gone(j, t, n) {
      assert Gone(j, s, n);
    }
  }

  lemma RotateKeepsConserved(j: Job, s: Sched)
    requires Conserved(j, s) && s.futures != []
    ensures Conserved(j, s.(futures := s.futures[1..] + [s.futures[0]]))
  {
    var t := s.(futures := s.futures[1..] + [s.futures[0]]);
    forall i: nat ensures InFlight(t.futures, i) == InFlight(s.futures, i) {
      InFlightAppend(s.futures[1..], [s.futures[0]], i);
      FrontInFlight(s.futures, i);
    }
    SameFlight(j, s, t);
  }

  lemma WrittenKeepsConserved(j: Job, s: Sched)
    requires Conserved(j, s) && s.futures != [] && s.futures[0].Writing?
    ensures Conserved(j, s.(futures := s.futures[1..]))
  {
    var t := s.(futures := s.futures[1..]);
    forall i: nat ensures InFlight(t.futures, i) == InFlight(s.futures, i) {
      FrontInFlight(s.futures, i);
    }
    SameFlight(j, s, t);
  }

  lemma ReplyKeepsConserved(hash: Data -> Hash, j: Job, s: Sched, outcome: Outcome)
    requires Conserved(j, s) && s.futures != [] && s.futures[0].Fetching? && !outcome.NotReady?
    ensures Conserved(j, PollFront(hash, s, outcome))
  {
    var t, b, rest := PollFront(hash, s, outcome), s.futures[0].block, s.futures[1..];
    if outcome.Reply? && hash(outcome.data) == b.hash {
      assert rest + [] == rest;
      CreditKeepsConserved(j, s, t, if outcome.written then [] else [Writing(b, outcome.data, false)]);
    } else {
      RequeueKeepsConserved(j, s, t);
    }
  }

  lemma PollKeepsConserved(hash: Data -> Hash, j: Job, s: Sched, outcome: Outcome)
    requires Conserved(j, s) && s.futures != []
    ensures Conserved(j, PollFront(hash, s, outcome))
  {
    var front := s.futures[0];
    if front.Fetching? && !outcome.NotReady? {
      ReplyKeepsConserved(hash, j, s, outcome);
    } else if front.Writing? && front.landed {
      WrittenKeepsConserved(j, s);
    } else {
      RotateKeepsConserved(j, s);
    }
  }

  lemma LandKeepsConserved(j: Job, s: Sched, k: nat)
    requires Conserved(j, s) && Enabled(s, Land(k))
    ensures Conserved(j, LandWrite(s, k))
  {
    var t := LandWrite(s, k);
    forall i: nat ensures InFlight(t.futures, i) == InFlight(s.futures, i) {
      InFlightUpdate(s.futures, k, t.futures[k], i);
    }
    SameFlight(j, s, t);
  }

  /** Every event keeps each slice's blocks: queued, in flight and received together are those planned. */
  lemma NextKeepsConserved(hash: Data -> Hash, j: Job, s: Sched, e: Event)
    requires Conserved(j, s) && Enabled(s, e)
    ensures Conserved(j, Next(hash, s, e))
  {
    match e
    case Poll(outcome) => PollKeepsConserved(hash, j, s, outcome);
    case Land(k) => LandKeepsConserved(j, s, k);
    case Retain => RetainKeepsConserved(j, s, RetainBusy(s));
    case Dispatch(k, connected) =>
      if connected {
        RequestKeepsConserved(j, s, Next(hash, s, e), k);
      } else {
        SetAsideKeepsConserved(j, s, Next(hash, s, e), k);
      }
  }

  // ---- The mask and the announcements ----

  /** A slice can only be announced while it is in the deque, so its bit is one of the fifteen. */
  lemma FinishedAreSlices(j: Job, s: Sched)
    requires Conserved(j, s) && forall i :: i in j.planned ==> i < MAX_SLICES
    ensures Enabled(s, Retain)
    ensures forall i :: i in Finished(s.slices) ==> i in Indices(s.slices) && i < MAX_SLICES
  {
    SplitByBusy(s.slices);
    forall i | i in Finished(s.slices) ensures i in Indices(s.slices) && i < MAX_SLICES {
      var k :| 0 <= k < |s.slices| && s.slices[k].index == i && !Busy(s.slices[k]);
      assert Balanced(j, s, s.slices[k]);
    }
    forall k | 0 <= k < |Finished(s.slices)| ensures Finished(s.slices)[k] < Mask.WIDTH {
      assert Finished(s.slices)[k] in Finished(s.slices);
    }
  }

  lemma RetainKeepsAnnounced(j: Job, s: Sched)
    requires Conserved(j, s) && Announced(j, s) && forall i :: i in j.planned ==> i < MAX_SLICES
    requires Enabled(s, Retain)
    ensures Announced(j, RetainBusy(s))
  {
    var t, done := RetainBusy(s), Finished(s.slices);
    SplitDistinct(s.slices);
    FinishedAreSlices(j, s);
    MarkedBits(s.mask, done);
    forall i: nat | i < Mask.WIDTH ensures i in Mask.Bits(t.mask) <==> i !in Indices(t.slices) {
      assert i in Indices(s.slices) <==> i in Indices(t.slices) + set x | x in done;
    }
    forall i ensures i in t.reported <==> i in j.planned && i !in Indices(t.slices) {
      assert i in Indices(s.slices) <==> i in Indices(t.slices) + set x | x in done;
      assert i in t.reported <==> i in s.reported || i in done;
      if i in Indices(s.slices) {
        var o := IndexOf(s.slices, i);
        assert Balanced(j, s, s.slices[o]);
      }
    }
    forall a, b | 0 <= a < b < |t.reported| ensures t.reported[a] != t.reported[b] {
      if a < |s.reported| <= b {
        assert t.reported[a] in s.reported && t.reported[b] in done;
      }
    }
  }

  /** Only the announcement of finished slices takes one out of the deque or touches the mask. */
  lemma OthersKeepIndices(hash: Data -> Hash, s: Sched, e: Event)
    requires DistinctIndices(s.slices) && Enabled(s, e) && !e.Retain?
    ensures Indices(Next(hash, s, e).slices) == Indices(s.slices)
    ensures Next(hash, s, e).mask == s.mask && Next(hash, s, e).reported == s.reported
  {
    var t := Next(hash, s, e);
    if e.Poll? && s.futures[0].Fetching? {
      CreditedSlices(s.slices, s.futures[0].slice);
      RequeuedSlices(s.slices, s.futures[0].slice, s.futures[0].block);
    }
    SameIndices(s.slices, t.slices);
  }

  lemma NextKeepsAnnounced(hash: Data -> Hash, j: Job, s: Sched, e: Event)
    requires Conserved(j, s) && Announced(j, s) && forall i :: i in j.planned ==> i < MAX_SLICES
    requires Enabled(s, e)
    ensures Announced(j, Next(hash, s, e))
  {
    if e.Retain? {
      RetainKeepsAnnounced(j, s);
    } else {
      OthersKeepIndices(hash, s, e);
    }
  }
}
