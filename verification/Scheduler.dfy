/**
 The block download scheduler as a state machine (src/daemon/tracking/fetch_blocks.rs, progress.rs,
 and `write_block` of src/daemon/disk/public.rs). The environment decides which request is answered,
 how, when a write reaches the disk, and whether a connection is available.
 */
module Scheduler {
  import opened Seqs
  import Mask

  type Data = seq<bv8>
  type Hash = nat

  datatype Block = Block(hash: Hash, path: string, offset: nat)

  datatype Slice = Slice(index: nat, inProgress: int, blocks: seq<Block>)

  /** A request in flight for a slice, or a write; `landed` once the write has reached the disk. */
  datatype Pending =
    | Fetching(block: Block, slice: nat)
    | Writing(block: Block, data: Data, landed: bool)

  const CONCURRENCY: nat := 10
  const MAX_SLICES: nat := 15

  /**
   `received` collects, slice by slice, the blocks whose data arrived with the right hash, and
   `reported` the slices announced as finished, in order; both only record what happened.
   */
  datatype Sched = Sched(
    slices: seq<Slice>,
    futures: seq<Pending>,
    mask: Mask.Word,
    disk: map<string, Data>,
    received: map<nat, multiset<Block>>,
    reported: seq<nat>
  )

  // ---- Disk ----

  function Zeros(n: nat): Data { seq(n, i => 0) }

  /** Seek and write into a file that is not truncated; a gap before the offset reads as zeros. */
  function WriteAt(content: Data, offset: nat, data: Data): Data {
    var padded := if |content| < offset then content + Zeros(offset - |content|) else content;
    padded[..offset] + data + if offset + |data| < |padded| then padded[offset + |data|..] else []
  }

  function Content(disk: map<string, Data>, path: string): Data {
    if path in disk then disk[path] else []
  }

  function WriteBlock(disk: map<string, Data>, b: Block, data: Data): map<string, Data> {
    disk[b.path := WriteAt(Content(disk, b.path), b.offset, data)]
  }

  // ---- Slices ----

  /** A failed block goes back to the end of its slice; the loop of the source stops at the first match. */
  function Requeued(slices: seq<Slice>, index: nat, b: Block): seq<Slice> {
    if slices == [] then []
    else if slices[0].index == index then
      [slices[0].(inProgress := slices[0].inProgress - 1, blocks := slices[0].blocks + [b])] + slices[1..]
    else [slices[0]] + Requeued(slices[1..], index, b)
  }

  /** A verified block leaves its slice; this loop runs over all the slices. */
  function Credited(slices: seq<Slice>, index: nat): seq<Slice> {
    if slices == [] then []
    else [if slices[0].index == index then slices[0].(inProgress := slices[0].inProgress - 1) else slices[0]]
         + Credited(slices[1..], index)
  }

  predicate Busy(s: Slice) { s.inProgress > 0 || s.blocks != [] }

  function Finished(slices: seq<Slice>): seq<nat> {
    if slices == [] then []
    else (if Busy(slices[0]) then [] else [slices[0].index]) + Finished(slices[1..])
  }

  function BusyOnes(slices: seq<Slice>): seq<Slice> {
    if slices == [] then []
    else (if Busy(slices[0]) then [slices[0]] else []) + BusyOnes(slices[1..])
  }

  /** `report_slice` for each finished slice. */
  function MarkFetched(mask: Mask.Word, indices: seq<nat>): Mask.Word
    requires forall k :: 0 <= k < |indices| ==> indices[k] < Mask.WIDTH
    decreases |indices|
  {
    if indices == [] then mask else MarkFetched(Mask.SetFetched(mask, indices[0]), indices[1..])
  }

  // ---- Events ----

  /** What polling a request finds; `written` when the write it then starts is done at once. */
  datatype Outcome =
    | NotReady
    | Reply(data: Data, written: bool)
    | Failure

  datatype Event =
    | Poll(outcome: Outcome)
    | Land(k: nat)
    | Retain
    | Dispatch(k: nat, connected: bool)

  function Received(s: Sched, slice: nat, b: Block): map<nat, multiset<Block>> {
    s.received[slice := (if slice in s.received then s.received[slice] else multiset{}) + multiset{b}]
  }

  /** Poll the future at the head of the queue. */
  function PollFront(hash: Data -> Hash, s: Sched, outcome: Outcome): Sched
    requires s.futures != []
  {
    var front, rest := s.futures[0], s.futures[1..];
    match front
    case Fetching(b, slice) => (
      match outcome
      case NotReady => s.(futures := rest + [front])
      case Reply(data, written) =>
        if hash(data) == b.hash then
          s.(slices := Credited(s.slices, slice), received := Received(s, slice, b),
             futures := if written then rest else rest + [Writing(b, data, false)],
             disk := if written then WriteBlock(s.disk, b, data) else s.disk)
        else s.(slices := Requeued(s.slices, slice, b), futures := rest)
      case Failure => s.(slices := Requeued(s.slices, slice, b), futures := rest)
    )
    case Writing(_, _, landed) => s.(futures := if landed then rest else rest + [front])
  }

  /** A write reaches the disk, in any order. */
  function LandWrite(s: Sched, k: nat): Sched
    requires k < |s.futures| && s.futures[k].Writing? && !s.futures[k].landed
  {
    var w := s.futures[k];
    s.(futures := s.futures[k := w.(landed := true)], disk := WriteBlock(s.disk, w.block, w.data))
  }

  /** Drop the slices with nothing queued and nothing in flight, and announce them. */
  function RetainBusy(s: Sched): Sched
    requires forall k :: 0 <= k < |Finished(s.slices)| ==> Finished(s.slices)[k] < Mask.WIDTH
  {
    var done := Finished(s.slices);
    s.(slices := BusyOnes(s.slices), mask := MarkFetched(s.mask, done), reported := s.reported + done)
  }

  /** Take the first block of a slice: request it, or put it at the end when nobody can be asked. */
  function DispatchFrom(s: Sched, k: nat, connected: bool): Sched
    requires k < |s.slices| && s.slices[k].blocks != []
  {
    var sl := s.slices[k];
    var b, rest := sl.blocks[0], sl.blocks[1..];
    if connected then
      s.(slices := s.slices[k := sl.(inProgress := sl.inProgress + 1, blocks := rest)],
         futures := s.futures + [Fetching(b, sl.index)])
    else s.(slices := s.slices[k := sl.(blocks := rest + [b])])
  }

  predicate Enabled(s: Sched, e: Event) {
    match e
    case Poll(_) => s.futures != []
    case Land(k) => k < |s.futures| && s.futures[k].Writing? && !s.futures[k].landed
    case Retain => forall k :: 0 <= k < |Finished(s.slices)| ==> Finished(s.slices)[k] < Mask.WIDTH
    case Dispatch(k, connected) =>
      k < |s.slices| && s.slices[k].blocks != [] && |s.futures| <= CONCURRENCY
  }

  function Next(hash: Data -> Hash, s: Sched, e: Event): Sched
    requires Enabled(s, e)
  {
    match e
    case Poll(outcome) => PollFront(hash, s, outcome)
    case Land(k) => LandWrite(s, k)
    case Retain => RetainBusy(s)
    case Dispatch(k, connected) => DispatchFrom(s, k, connected)
  }

  /** A run is a series of events each enabled where it happens. */
  predicate IsRun(hash: Data -> Hash, s: Sched, events: seq<Event>)
    decreases |events|
  {
    events == [] || (Enabled(s, events[0]) && IsRun(hash, Next(hash, s, events[0]), events[1..]))
  }

  function Run(hash: Data -> Hash, s: Sched, events: seq<Event>): Sched
    requires IsRun(hash, s, events)
    decreases |events|
  {
    if events == [] then s else Run(hash, Next(hash, s, events[0]), events[1..])
  }

  lemma {:induction false} RunSnoc(hash: Data -> Hash, s: Sched, events: seq<Event>, e: Event)
    requires IsRun(hash, s, events) && Enabled(Run(hash, s, events), e)
    ensures IsRun(hash, s, events + [e])
    ensures Run(hash, s, events + [e]) == Next(hash, Run(hash, s, events), e)
    decreases |events|
  {
    var all := events + [e];
    if events == [] {
      assert all[1..] == [];
    } else {
      assert all[1..] == events[1..] + [e];
      RunSnoc(hash, Next(hash, s, events[0]), events[1..], e);
    }
  }

  /** The condition on which the download reports `Ready`. */
  predicate Complete(s: Sched) { s.futures == [] && s.slices == [] }

  // ---- The job ----

  /**
   What is to be downloaded: for each slice its blocks, the files as they are at the source, the
   block size, and the disk as it was, with none of the files to fetch on it.
   */
  datatype Job = Job(
    planned: map<nat, multiset<Block>>,
    source: map<string, Data>,
    blockSize: nat,
    disk: map<string, Data>
  )

  /** The part of a file that the block at `offset` holds. */
  function Part(content: Data, offset: nat, blockSize: nat): Data
    requires offset <= |content|
  {
    content[offset..if offset + blockSize < |content| then offset + blockSize else |content|]
  }

  /** The hash of a block is that of its part of the source file. */
  predicate Right(hash: Data -> Hash, j: Job, b: Block) {
    && b.path in j.source && b.path !in j.disk
    && b.offset < |j.source[b.path]|
    && b.hash == hash(Part(j.source[b.path], b.offset, j.blockSize))
  }

  ghost predicate Collisionless(hash: Data -> Hash) {
    forall a, b :: hash(a) == hash(b) ==> a == b
  }

  ghost predicate Sound(hash: Data -> Hash, j: Job) {
    && Collisionless(hash) && j.blockSize > 0
    && (forall i :: i in j.planned ==> i < MAX_SLICES)
    && (forall i, b :: i in j.planned && b in j.planned[i] ==> Right(hash, j, b))
  }

  // ---- The invariant ----

  /** The blocks being requested for one slice. */
  function InFlight(futures: seq<Pending>, index: nat): multiset<Block> {
    if futures == [] then multiset{}
    else (if futures[0].Fetching? && futures[0].slice == index then multiset{futures[0].block} else multiset{})
         + InFlight(futures[1..], index)
  }

  predicate DistinctIndices(slices: seq<Slice>) {
    forall i, j :: 0 <= i < j < |slices| ==> slices[i].index != slices[j].index
  }

  function Indices(slices: seq<Slice>): set<nat> {
    set k | 0 <= k < |slices| :: slices[k].index
  }

  /** Every block of the slice is queued, in flight or received, and the counter is right. */
  predicate Balanced(j: Job, s: Sched, sl: Slice) {
    && sl.index in j.planned && sl.index in s.received
    && multiset(sl.blocks) + InFlight(s.futures, sl.index) + s.received[sl.index] == j.planned[sl.index]
    && sl.inProgress == |InFlight(s.futures, sl.index)|
  }

  /** A slice that left the deque has nothing in flight and all its blocks received. */
  predicate Gone(j: Job, s: Sched, i: nat) {
    i in j.planned && i in s.received && InFlight(s.futures, i) == multiset{} && s.received[i] == j.planned[i]
  }

  predicate AllBalanced(j: Job, s: Sched) {
    forall k :: 0 <= k < |s.slices| ==> Balanced(j, s, s.slices[k])
  }

  predicate OthersGone(j: Job, s: Sched) {
    forall i :: i in j.planned && i !in Indices(s.slices) ==> Gone(j, s, i)
  }

  predicate RequestsPlanned(j: Job, futures: seq<Pending>) {
    forall k :: 0 <= k < |futures| && futures[k].Fetching? ==> futures[k].slice in j.planned
  }

  predicate Conserved(j: Job, s: Sched) {
    && s.received.Keys == j.planned.Keys
    && DistinctIndices(s.slices) && AllBalanced(j, s) && OthersGone(j, s)
    && RequestsPlanned(j, s.futures) && |s.futures| <= CONCURRENCY + 1
  }

  /** A bit is clear exactly while its slice is in the deque; each slice that left it was reported once. */
  ghost predicate Announced(j: Job, s: Sched) {
    && (forall i: nat :: i < Mask.WIDTH ==> (i in Mask.Bits(s.mask) <==> i !in Indices(s.slices)))
    && NoRepeats(s.reported)
    && (forall i :: i in s.reported <==> i in j.planned && i !in Indices(s.slices))
  }

  /** The content has one part of the source in place. */
  predicate Holds(content: Data, source: Data, offset: nat, blockSize: nat)
    requires offset <= |source|
  {
    var part := Part(source, offset, blockSize);
    offset + |part| <= |content| && content[offset..offset + |part|] == part
  }

  predicate OnDisk(j: Job, disk: map<string, Data>, b: Block)
    requires b.path in j.source && b.offset < |j.source[b.path]|
  {
    Holds(Content(disk, b.path), j.source[b.path], b.offset, j.blockSize)
  }

  predicate IsWrite(f: Pending, b: Block) {
    f.Writing? && f.block == b && !f.landed
  }

  /** A write carries the part of the source file that its block names. */
  predicate GoodWrite(hash: Data -> Hash, j: Job, f: Pending)
    requires f.Writing?
  {
    Right(hash, j, f.block) && f.data == Part(j.source[f.block.path], f.block.offset, j.blockSize)
  }

  /** A received block is on disk, or its write is under way. */
  ghost predicate Settled(hash: Data -> Hash, j: Job, s: Sched, b: Block) {
    Right(hash, j, b) && (OnDisk(j, s.disk, b) || exists f :: f in s.futures && IsWrite(f, b))
  }

  /** Nothing is written beyond the end of a file, and no file that was there before is touched. */
  predicate Contained(j: Job, disk: map<string, Data>) {
    && (forall p :: p in j.source && p !in j.disk ==> |Content(disk, p)| <= |j.source[p]|)
    && (forall p :: p in disk && p !in j.disk ==> p in j.source)
    && (forall p :: p in j.disk ==> p in disk && disk[p] == j.disk[p])
  }

  ghost predicate Stored(hash: Data -> Hash, j: Job, s: Sched) {
    && (forall f :: f in s.futures && f.Writing? ==> GoodWrite(hash, j, f))
    && (forall i, b :: i in s.received && b in s.received[i] ==> Settled(hash, j, s, b))
    && Contained(j, s.disk)
  }

  ghost predicate Inv(hash: Data -> Hash, j: Job, s: Sched) {
    Conserved(j, s) && Announced(j, s) && Stored(hash, j, s)
  }
}
