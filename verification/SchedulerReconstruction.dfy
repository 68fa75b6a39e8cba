/** Whatever the order of replies, failures and writes, what ends up on disk is the source. */
module SchedulerReconstruction {
  import opened Scheduler
  import opened SchedulerConservation

  // ---- Writing at an offset ----

  /** A write sets its own bytes, keeps the others, and fills a gap it leaves with zeros. */
  lemma WriteAtBytes(content: Data, offset: nat, data: Data)
    ensures |WriteAt(content, offset, data)| == if |content| < offset + |data| then offset + |data| else |content|
    ensures forall n :: 0 <= n < |WriteAt(content, offset, data)| ==>
                          WriteAt(content, offset, data)[n]
                          == if offset <= n < offset + |data| then data[n - offset]
                             else if n < |content| then content[n] else 0
  {
  }

  predicate HoldsByte(content: Data, source: Data, n: nat)
    requires n < |source|
  {
    n < |content| && content[n] == source[n]
  }

  lemma HoldsBytewise(content: Data, source: Data, offset: nat, blockSize: nat)
    requires offset < |source| && blockSize > 0
    ensures Holds(content, source, offset, blockSize)
            <==> forall n :: offset <= n < offset + blockSize && n < |source| ==> HoldsByte(content, source, n)
  {
    var part := Part(source, offset, blockSize);
    if Holds(content, source, offset, blockSize) {
      forall n | offset <= n < offset + blockSize && n < |source| ensures HoldsByte(content, source, n) {
        assert content[offset..offset + |part|][n - offset] == part[n - offset];
      }
    }
    if forall n :: offset <= n < offset + blockSize && n < |source| ==> HoldsByte(content, source, n) {
      assert HoldsByte(content, source, offset + |part| - 1);
      forall k | 0 <= k < |part| ensures content[offset..offset + |part|][k] == part[k] {
        assert HoldsByte(content, source, offset + k);
      }
    }
  }

  /** Writing one part of a file leaves every part that was in place where it was. */
  lemma WriteKeepsRange(content: Data, source: Data, blockSize: nat, w: nat, b: nat)
    requires w < |source| && b < |source| && blockSize > 0
    requires b == w || Holds(content, source, b, blockSize)
    ensures Holds(WriteAt(content, w, Part(source, w, blockSize)), source, b, blockSize)
  {
    HoldsBytewise(content, source, b, blockSize);
    var after := WriteAt(content, w, Part(source, w, blockSize));
    WriteAtBytes(content, w, Part(source, w, blockSize));
    HoldsBytewise(after, source, b, blockSize);
    forall n | b <= n < b + blockSize && n < |source| ensures HoldsByte(after, source, n) {
      assert b != w ==> HoldsByte(content, source, n);
    }
  }

  /** Writing a right part spoils no other part, of that file or another. */
  lemma WriteKeepsParts(hash: Data -> Hash, j: Job, disk: map<string, Data>, w: Block, b: Block)
    requires Right(hash, j, w) && Right(hash, j, b) && j.blockSize > 0
    requires b == w || OnDisk(j, disk, b)
    ensures OnDisk(j, WriteBlock(disk, w, Part(j.source[w.path], w.offset, j.blockSize)), b)
  {
    if b.path == w.path {
      WriteKeepsRange(Content(disk, w.path), j.source[w.path], j.blockSize, w.offset, b.offset);
    }
  }

  lemma WriteStaysContained(hash: Data -> Hash, j: Job, disk: map<string, Data>, w: Block)
    requires Right(hash, j, w) && Contained(j, disk)
    ensures Contained(j, WriteBlock(disk, w, Part(j.source[w.path], w.offset, j.blockSize)))
  {
    var data := Part(j.source[w.path], w.offset, j.blockSize);
    WriteAtBytes(Content(disk, w.path), w.offset, data);
    var after := WriteBlock(disk, w, data);
    forall p | p in j.source && p !in j.disk ensures |Content(after, p)| <= |j.source[p]| {
      assert p != w.path ==> Content(after, p) == Content(disk, p);
    }
  }

  // ---- Event by event ----

  /** A block being requested is one of the blocks planned for its slice. */
  lemma RequestIsPlanned(j: Job, s: Sched, k: nat)
    requires Conserved(j, s) && k < |s.futures| && s.futures[k].Fetching?
    ensures s.futures[k].slice in j.planned && s.futures[k].block in j.planned[s.futures[k].slice]
  {
    var o := OwnerPresent(j, s, k);
    assert Balanced(j, s, s.slices[o]);
    InFlightSplit(s.futures, k, s.futures[k].slice);
    assert s.futures[k].block in InFlight(s.futures, s.futures[k].slice);
  }

  /** With a hash free of collisions, data that passes the check is the part itself. */
  lemma CheckedIsRight(hash: Data -> Hash, j: Job, b: Block, data: Data)
    requires Collisionless(hash) && Right(hash, j, b) && hash(data) == b.hash
    ensures data == Part(j.source[b.path], b.offset, j.blockSize)
  {
  }

  /** Steps that leave the disk and what was received alone, and keep every write still to land. */
  lemma SameDisk(hash: Data -> Hash, j: Job, s: Sched, t: Sched)
    requires Stored(hash, j, s) && t.disk == s.disk && t.received == s.received
    requires forall f :: f in t.futures && f.Writing? ==> f in s.futures
    requires forall f :: f in s.futures && f.Writing? && !f.landed ==> f in t.futures
    ensures Stored(hash, j, t)
  {
    forall i, b | i in t.received && b in t.received[i] ensures Settled(hash, j, t, b) {
      assert Settled(hash, j, s, b);
    }
  }

  /** A write reaches the disk: what was settled stays so, and the block written becomes so. */
  lemma WriteSettles(hash: Data -> Hash, j: Job, s: Sched, t: Sched, w: Block, b: Block)
    requires Right(hash, j, w) && j.blockSize > 0
    requires t.disk == WriteBlock(s.disk, w, Part(j.source[w.path], w.offset, j.blockSize))
    requires forall f :: f in s.futures && f.Writing? && !f.landed && f.block != w ==> f in t.futures
    requires b == w || Settled(hash, j, s, b)
    ensures Settled(hash, j, t, b)
  {
    if b == w || OnDisk(j, s.disk, b) {
      WriteKeepsParts(hash, j, s.disk, w, b);
    } else {
      var f :| f in s.futures && IsWrite(f, b);
      assert f in t.futures;
    }
  }

  lemma LandKeepsStored(hash: Data -> Hash, j: Job, s: Sched, k: nat)
    requires Stored(hash, j, s) && Enabled(s, Land(k)) && j.blockSize > 0
    ensures Stored(hash, j, LandWrite(s, k))
  {
    var t, w := LandWrite(s, k), s.futures[k];
    assert w in s.futures && GoodWrite(hash, j, w);
    WriteStaysContained(hash, j, s.disk, w.block);
    forall f | f in t.futures && f.Writing? ensures GoodWrite(hash, j, f) {
      if f != t.futures[k] {
        assert f in s.futures;
      }
    }
    forall f | f in s.futures && f.Writing? && !f.landed && f.block != w.block ensures f in t.futures {
      var m :| 0 <= m < |s.futures| && s.futures[m] == f;
      assert t.futures[m] == f;
    }
    forall i, b | i in t.received && b in t.received[i] ensures Settled(hash, j, t, b) {
      WriteSettles(hash, j, s, t, w.block, b);
    }
  }

  lemma ReceivedMembers(s: Sched, slice: nat, w: Block, i: nat, b: Block)
    requires slice in s.received
    requires i in Received(s, slice, w) && b in Received(s, slice, w)[i]
    ensures b == w || (i in s.received && b in s.received[i])
  {
  }

  /** The data of a verified reply is handed to a write that is still to land. */
  lemma ReplyQueuesWrite(hash: Data -> Hash, j: Job, s: Sched, t: Sched, slice: nat, write: Pending)
    requires Stored(hash, j, s) && s.futures != [] && s.futures[0].Fetching? && slice in s.received
    requires write.Writing? && !write.landed && GoodWrite(hash, j, write)
    requires t.futures == s.futures[1..] + [write] && t.disk == s.disk
    requires t.received == Received(s, slice, write.block)
    ensures Stored(hash, j, t)
  {
    assert s.futures == [s.futures[0]] + s.futures[1..];
    assert write in t.futures && IsWrite(write, write.block);
    forall i, b | i in t.received && b in t.received[i] ensures Settled(hash, j, t, b) {
      ReceivedMembers(s, slice, write.block, i, b);
      if b != write.block {
        assert Settled(hash, j, s, b);
      }
    }
  }

  /** The data of a verified reply is on disk at once. */
  lemma ReplyWritten(hash: Data -> Hash, j: Job, s: Sched, t: Sched, slice: nat, w: Block)
    requires Stored(hash, j, s) && s.futures != [] && s.futures[0].Fetching? && slice in s.received
    requires Right(hash, j, w) && j.blockSize > 0
    requires t.futures == s.futures[1..] && t.received == Received(s, slice, w)
    requires t.disk == WriteBlock(s.disk, w, Part(j.source[w.path], w.offset, j.blockSize))
    ensures Stored(hash, j, t)
  {
    assert s.futures == [s.futures[0]] + s.futures[1..];
    WriteStaysContained(hash, j, s.disk, w);
    forall i, b | i in t.received && b in t.received[i] ensures Settled(hash, j, t, b) {
      ReceivedMembers(s, slice, w, i, b);
      WriteSettles(hash, j, s, t, w, b);
    }
  }

  lemma ReplyKeepsStored(hash: Data -> Hash, j: Job, s: Sched, outcome: Outcome)
    requires Sound(hash, j) && Conserved(j, s) && Stored(hash, j, s)
    requires s.futures != [] && s.futures[0].Fetching? && outcome.Reply? && hash(outcome.data) == s.futures[0].block.hash
    ensures Stored(hash, j, PollFront(hash, s, outcome))
  {
    var t := PollFront(hash, s, outcome);
    var w, slice := s.futures[0].block, s.futures[0].slice;
    RequestIsPlanned(j, s, 0);
    CheckedIsRight(hash, j, w, outcome.data);
    if outcome.written {
      ReplyWritten(hash, j, s, t, slice, w);
    } else {
      ReplyQueuesWrite(hash, j, s, t, slice, Writing(w, outcome.data, false));
    }
  }

  lemma PollKeepsStored(hash: Data -> Hash, j: Job, s: Sched, outcome: Outcome)
    requires Sound(hash, j) && Conserved(j, s) && Stored(hash, j, s) && s.futures != []
    ensures Stored(hash, j, PollFront(hash, s, outcome))
  {
    var t := PollFront(hash, s, outcome);
    assert s.futures == [s.futures[0]] + s.futures[1..];
    if s.futures[0].Fetching? && outcome.Reply? && hash(outcome.data) == s.futures[0].block.hash {
      ReplyKeepsStored(hash, j, s, outcome);
    } else {
      SameDisk(hash, j, s, t);
    }
  }

  lemma NextKeepsStored(hash: Data -> Hash, j: Job, s: Sched, e: Event)
    requires Sound(hash, j) && Conserved(j, s) && Stored(hash, j, s) && Enabled(s, e)
    ensures Stored(hash, j, Next(hash, s, e))
  {
    match e
    case Poll(outcome) => PollKeepsStored(hash, j, s, outcome);
    case Land(k) => LandKeepsStored(hash, j, s, k);
    case Retain => SameDisk(hash, j, s, Next(hash, s, e));
    case Dispatch(_, _) => SameDisk(hash, j, s, Next(hash, s, e));
  }

  // ---- Whole runs ----

  lemma NextKeepsInv(hash: Data -> Hash, j: Job, s: Sched, e: Event)
    requires Sound(hash, j) && Inv(hash, j, s) && Enabled(s, e)
    ensures Inv(hash, j, Next(hash, s, e))
  {
    NextKeepsConserved(hash, j, s, e);
    NextKeepsAnnounced(hash, j, s, e);
    NextKeepsStored(hash, j, s, e);
  }

  /** The invariant holds after any run, whatever the environment does. */
  lemma {:induction false} RunKeepsInv(hash: Data -> Hash, j: Job, s: Sched, events: seq<Event>)
    requires Sound(hash, j) && Inv(hash, j, s) && IsRun(hash, s, events)
    ensures Inv(hash, j, Run(hash, s, events))
    decreases |events|
  {
    if events != [] {
      NextKeepsInv(hash, j, s, events[0]);
      RunKeepsInv(hash, j, Next(hash, s, events[0]), events[1..]);
    }
  }
}
