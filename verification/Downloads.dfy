/** A whole download of blocks: from `fill_blocks`, through any run of the scheduler, to `Ready`. */
module Downloads {
  import opened Seqs
  import Mask
  import opened Scheduler
  import opened SchedulerConservation
  import opened SchedulerReconstruction
  import opened FillBlocks

  /** An index entry's hashes are those of the parts of the file, which they cover. */
  predicate Cut(hash: Data -> Hash, content: Data, hashes: seq<Hash>, blockSize: nat) {
    && |content| <= |hashes| * blockSize
    && forall i :: 0 <= i < |hashes| ==>
                     i * blockSize < |content| && hashes[i] == hash(Part(content, i * blockSize, blockSize))
  }

  /**
   A well-formed index of the files in `source`. None of the files to be fetched is on disk yet;
   the hardlinked ones are.
   */
  predicate WellFormed(hash: Data -> Hash, index: Index, hardlinks: set<string>, source: map<string, Data>,
                       disk: map<string, Data>) {
    && index.blockSize > 0
    && forall e :: e in index.entries && e.File? && e.path !in hardlinks ==>
                     e.path in source && e.path !in disk && Cut(hash, source[e.path], e.hashes, index.blockSize)
  }

  function Planned(blocks: seq<Block>): map<nat, multiset<Block>> {
    map i: nat | i < Used(|blocks|) :: multiset(Share(blocks, |blocks|, i))
  }

  function JobOf(index: Index, hardlinks: set<string>, source: map<string, Data>, disk: map<string, Data>): Job {
    Job(Planned(BlocksOf(index.entries, hardlinks, index.blockSize)), source, index.blockSize, disk)
  }

  /** The state in which the scheduler is first polled. */
  function Initial(blocks: seq<Block>, slices: seq<Slice>, mask: Mask.Word, disk: map<string, Data>): Sched {
    Sched(slices, [], mask, disk, map i | i in Planned(blocks) :: multiset{}, [])
  }

  // ---- The blocks of an index ----

  lemma {:induction false} BlocksComeFromFiles(entries: seq<Entry>, hardlinks: set<string>, blockSize: nat, b: Block)
    requires b in BlocksOf(entries, hardlinks, blockSize)
    ensures exists e :: e in entries && b in EntryBlocks(e, hardlinks, blockSize)
    decreases |entries|
  {
    var last := entries[|entries| - 1];
    if b in EntryBlocks(last, hardlinks, blockSize) {
      assert last in entries;
    } else {
      BlocksComeFromFiles(entries[..|entries| - 1], hardlinks, blockSize, b);
    }
  }

  lemma {:induction false} FilesGiveBlocks(entries: seq<Entry>, hardlinks: set<string>, blockSize: nat, e: Entry, b: Block)
    requires e in entries && b in EntryBlocks(e, hardlinks, blockSize)
    ensures b in BlocksOf(entries, hardlinks, blockSize)
    decreases |entries|
  {
    if e != entries[|entries| - 1] {
      assert entries == entries[..|entries| - 1] + [entries[|entries| - 1]];
      FilesGiveBlocks(entries[..|entries| - 1], hardlinks, blockSize, e, b);
    }
  }

  lemma BlocksAreRight(hash: Data -> Hash, index: Index, hardlinks: set<string>, source: map<string, Data>,
                       disk: map<string, Data>, b: Block)
    requires WellFormed(hash, index, hardlinks, source, disk)
    requires b in BlocksOf(index.entries, hardlinks, index.blockSize)
    ensures Right(hash, JobOf(index, hardlinks, source, disk), b)
  {
    BlocksComeFromFiles(index.entries, hardlinks, index.blockSize, b);
    var e :| e in index.entries && b in EntryBlocks(e, hardlinks, index.blockSize);
    var i :| 0 <= i < |e.hashes| && b == FileBlocks(e.path, e.hashes, index.blockSize)[i];
  }

  lemma PlannedAreBlocks(blocks: seq<Block>, i: nat, b: Block)
    requires i in Planned(blocks) && b in Planned(blocks)[i]
    ensures b in blocks
  {
    ShareMembers(blocks, |blocks|, i);
    assert b in Share(blocks, |blocks|, i);
  }

  lemma BlocksArePlanned(blocks: seq<Block>, b: Block) returns (i: nat)
    requires b in blocks
    ensures i in Planned(blocks) && b in Planned(blocks)[i]
  {
    var n: nat :| n < |blocks| && blocks[n] == b;
    i := SliceOf(n);
    ShareMembers(blocks, |blocks|, i);
    assert b in Share(blocks, |blocks|, i);
  }

  // ---- From the first state to the last ----

  lemma JobIsSound(hash: Data -> Hash, index: Index, hardlinks: set<string>, source: map<string, Data>,
                   disk: map<string, Data>)
    requires Collisionless(hash) && WellFormed(hash, index, hardlinks, source, disk)
    ensures Sound(hash, JobOf(index, hardlinks, source, disk))
  {
    var j := JobOf(index, hardlinks, source, disk);
    forall i, b | i in j.planned && b in j.planned[i] ensures Right(hash, j, b) {
      PlannedAreBlocks(BlocksOf(index.entries, hardlinks, index.blockSize), i, b);
      BlocksAreRight(hash, index, hardlinks, source, disk, b);
    }
  }

  /** What `fill_blocks` leaves behind satisfies the invariant. */
  lemma InitialInv(hash: Data -> Hash, index: Index, hardlinks: set<string>, source: map<string, Data>,
                   disk: map<string, Data>, slices: seq<Slice>, mask: Mask.Word)
    requires WellFormed(hash, index, hardlinks, source, disk)
    requires IsFill(BlocksOf(index.entries, hardlinks, index.blockSize), slices, mask)
    ensures Inv(hash, JobOf(index, hardlinks, source, disk),
                Initial(BlocksOf(index.entries, hardlinks, index.blockSize), slices, mask, disk))
  {
    var blocks := BlocksOf(index.entries, hardlinks, index.blockSize);
    var j, s := JobOf(index, hardlinks, source, disk), Initial(blocks, slices, mask, disk);
    forall k | 0 <= k < |slices| ensures Balanced(j, s, slices[k]) {
      assert slices[k].index in Indices(slices);
    }
    assert s.received.Keys == j.planned.Keys;
  }

  /**
   When the scheduler is done, every file that was not hardlinked is the source file and no other file
   has changed, whatever the environment did; every slice was reported once and the mask is full.
   */
  lemma DownloadReconstructs(hash: Data -> Hash, index: Index, hardlinks: set<string>, source: map<string, Data>,
                             disk: map<string, Data>, slices: seq<Slice>, mask: Mask.Word, events: seq<Event>)
    requires Collisionless(hash) && WellFormed(hash, index, hardlinks, source, disk)
    requires IsFill(BlocksOf(index.entries, hardlinks, index.blockSize), slices, mask)
    requires IsRun(hash, Initial(BlocksOf(index.entries, hardlinks, index.blockSize), slices, mask, disk), events)
    requires Complete(Run(hash, Initial(BlocksOf(index.entries, hardlinks, index.blockSize), slices, mask, disk), events))
    ensures var blocks := BlocksOf(index.entries, hardlinks, index.blockSize);
            var last := Run(hash, Initial(blocks, slices, mask, disk), events);
            && (forall e :: e in index.entries && e.File? && e.path !in hardlinks ==>
                  Content(last.disk, e.path) == source[e.path])
            && (forall p :: p in disk ==> p in last.disk && last.disk[p] == disk[p])
            && (forall p :: p in last.disk && p !in disk ==> p in source)
            && last.mask == Mask.Full()
            && last.received == Planned(blocks)
            && NoRepeats(last.reported) && (forall i: nat :: i in last.reported <==> i < Used(|blocks|))
  {
    var blocks := BlocksOf(index.entries, hardlinks, index.blockSize);
    var j, first := JobOf(index, hardlinks, source, disk), Initial(blocks, slices, mask, disk);
    var last := Run(hash, first, events);
    JobIsSound(hash, index, hardlinks, source, disk);
    InitialInv(hash, index, hardlinks, source, disk, slices, mask);
    RunKeepsInv(hash, j, first, events);
    CompleteIsFull(j, last);
    forall e | e in index.entries && e.File? && e.path !in hardlinks
      ensures Content(last.disk, e.path) == source[e.path]
    {
      FileIsWhole(hash, index, hardlinks, source, disk, last, e);
    }
  }

  lemma CompleteIsFull(j: Job, s: Sched)
    requires Conserved(j, s) && Announced(j, s) && Complete(s)
    ensures s.received == j.planned && s.mask == Mask.Full()
    ensures forall i :: i in s.reported <==> i in j.planned
  {
    forall i | i in j.planned ensures s.received[i] == j.planned[i] {
      assert Gone(j, s, i);
    }
    Mask.FullIsEverything(s.mask);
  }

  /** In which block a byte lies. */
  lemma BlockOfByte(n: nat, blockSize: nat, count: nat) returns (i: nat)
    requires blockSize > 0 && n < count * blockSize
    ensures i < count && i * blockSize <= n < i * blockSize + blockSize
  {
    i := n / blockSize;
    MultiplesOrdered(count, i, blockSize);
  }

  lemma MultiplesOrdered(a: nat, b: nat, k: nat)
    ensures a <= b ==> a * k <= b * k
  {
  }

  lemma FileIsWhole(hash: Data -> Hash, index: Index, hardlinks: set<string>, source: map<string, Data>,
                    disk: map<string, Data>, s: Sched, e: Entry)
    requires WellFormed(hash, index, hardlinks, source, disk)
    requires Stored(hash, JobOf(index, hardlinks, source, disk), s) && s.futures == []
    requires s.received == JobOf(index, hardlinks, source, disk).planned
    requires e in index.entries && e.File? && e.path !in hardlinks
    ensures Content(s.disk, e.path) == source[e.path]
  {
    var whole, content := source[e.path], Content(s.disk, e.path);
    forall n: nat | n < |whole| ensures HoldsByte(content, whole, n) {
      var i := BlockOfByte(n, index.blockSize, |e.hashes|);
      BlockIsThere(hash, index, hardlinks, source, disk, s, e, i);
      HoldsBytewise(content, whole, i * index.blockSize, index.blockSize);
    }
    if |whole| > 0 {
      assert HoldsByte(content, whole, |whole| - 1);
    }
    forall n | 0 <= n < |whole| ensures content[n] == whole[n] {
      assert HoldsByte(content, whole, n);
    }
  }

  lemma BlockIsThere(hash: Data -> Hash, index: Index, hardlinks: set<string>, source: map<string, Data>,
                     disk: map<string, Data>, s: Sched, e: Entry, i: nat)
    requires WellFormed(hash, index, hardlinks, source, disk)
    requires Stored(hash, JobOf(index, hardlinks, source, disk), s) && s.futures == []
    requires s.received == JobOf(index, hardlinks, source, disk).planned
    requires e in index.entries && e.File? && e.path !in hardlinks && i < |e.hashes|
    ensures i * index.blockSize < |source[e.path]|
    ensures Holds(Content(s.disk, e.path), source[e.path], i * index.blockSize, index.blockSize)
  {
    var b := Block(e.hashes[i], e.path, i * index.blockSize);
    assert FileBlocks(e.path, e.hashes, index.blockSize)[i] == b;
    FilesGiveBlocks(index.entries, hardlinks, index.blockSize, e, b);
    var slice := BlocksArePlanned(BlocksOf(index.entries, hardlinks, index.blockSize), b);
    assert Settled(hash, JobOf(index, hardlinks, source, disk), s, b);
  }

  // ---- At every moment of a run ----

  lemma MaskStep(hash: Data -> Hash, s: Sched, e: Event)
    requires DistinctIndices(s.slices) && Enabled(s, e)
    ensures Mask.Bits(s.mask) <= Mask.Bits(Next(hash, s, e).mask)
    ensures s.reported <= Next(hash, s, e).reported
  {
    if e.Retain? {
      MarkedBits(s.mask, Finished(s.slices));
    } else {
      OthersKeepIndices(hash, s, e);
    }
  }

  /** Bits are only gained and reports are only added. */
  lemma {:induction false} MaskOnlyGrows(hash: Data -> Hash, j: Job, s: Sched, events: seq<Event>)
    requires Sound(hash, j) && Inv(hash, j, s) && IsRun(hash, s, events)
    ensures Mask.Bits(s.mask) <= Mask.Bits(Run(hash, s, events).mask)
    ensures s.reported <= Run(hash, s, events).reported
    decreases |events|
  {
    if events != [] {
      MaskStep(hash, s, events[0]);
      NextKeepsInv(hash, j, s, events[0]);
      MaskOnlyGrows(hash, j, Next(hash, s, events[0]), events[1..]);
    }
  }

  /** A mask a peer is shown promises blocks that were all received and checked. */
  lemma MaskIsHonest(hash: Data -> Hash, index: Index, hardlinks: set<string>, source: map<string, Data>,
                     disk: map<string, Data>, slices: seq<Slice>, mask: Mask.Word, events: seq<Event>)
    requires Collisionless(hash) && WellFormed(hash, index, hardlinks, source, disk)
    requires IsFill(BlocksOf(index.entries, hardlinks, index.blockSize), slices, mask)
    requires IsRun(hash, Initial(BlocksOf(index.entries, hardlinks, index.blockSize), slices, mask, disk), events)
    ensures var blocks := BlocksOf(index.entries, hardlinks, index.blockSize);
            var s := Run(hash, Initial(blocks, slices, mask, disk), events);
            && Mask.INDEX_BIT in Mask.Bits(s.mask)
            && (forall i: nat :: i < Used(|blocks|) ==>
                  (i in Mask.Bits(s.mask) <==> i in s.reported)
                  && (i in Mask.Bits(s.mask) ==>
                        i in s.received && s.received[i] == multiset(Share(blocks, |blocks|, i))))
            && (forall i: nat :: Used(|blocks|) <= i < Mask.WIDTH ==> i in Mask.Bits(s.mask))
  {
    var blocks := BlocksOf(index.entries, hardlinks, index.blockSize);
    var j, first := JobOf(index, hardlinks, source, disk), Initial(blocks, slices, mask, disk);
    var s := Run(hash, first, events);
    JobIsSound(hash, index, hardlinks, source, disk);
    InitialInv(hash, index, hardlinks, source, disk, slices, mask);
    RunKeepsInv(hash, j, first, events);
    forall i | i in Indices(s.slices) ensures i < Used(|blocks|) {
      var k := IndexOf(s.slices, i);
      assert Balanced(j, s, s.slices[k]);
    }
    forall i: nat | i < Used(|blocks|) && i in Mask.Bits(s.mask) ensures s.received[i] == j.planned[i] {
      assert Gone(j, s, i);
    }
  }
}
