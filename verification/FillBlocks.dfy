/** Cutting an index into slices (`Downloading::fill_blocks`, src/daemon/tracking/progress.rs). */
module FillBlocks {
  import opened Seqs
  import Mask
  import opened Scheduler

  datatype Entry =
    | Dir(path: string)
    | Link(path: string, target: string)
    | File(path: string, hashes: seq<Hash>)

  datatype Index = Index(entries: seq<Entry>, blockSize: nat)

  const CHUNK: nat := 100

  // ---- What the index asks for ----

  function FileBlocks(path: string, hashes: seq<Hash>, blockSize: nat): seq<Block> {
    seq(|hashes|, i requires 0 <= i < |hashes| => Block(hashes[i], path, i * blockSize))
  }

  function EntryBlocks(e: Entry, hardlinks: set<string>, blockSize: nat): seq<Block> {
    match e
    case File(path, hashes) => if path in hardlinks then [] else FileBlocks(path, hashes, blockSize)
    case Dir(_) => []
    case Link(_, _) => []
  }

  function BlocksOf(entries: seq<Entry>, hardlinks: set<string>, blockSize: nat): seq<Block>
    decreases |entries|
  {
    if entries == [] then []
    else BlocksOf(entries[..|entries| - 1], hardlinks, blockSize)
         + EntryBlocks(entries[|entries| - 1], hardlinks, blockSize)
  }

  // ---- Which slice gets which block ----

  /** Hundreds of blocks are dealt to the fifteen slices in turn. */
  function SliceOf(n: nat): (slice: nat)
    ensures slice < MAX_SLICES
  {
    (n / CHUNK) % MAX_SLICES
  }

  /** The share of slice `i` in the first `n` blocks. */
  function Share(blocks: seq<Block>, n: nat, i: nat): seq<Block>
    requires n <= |blocks|
  {
    if n == 0 then []
    else Share(blocks, n - 1, i) + if SliceOf(n - 1) == i then [blocks[n - 1]] else []
  }

  lemma SliceOfChunk(idx: nat, c: nat)
    requires c < CHUNK
    ensures SliceOf(idx * CHUNK + c) == idx % MAX_SLICES
  {
    assert (idx * CHUNK + c) / CHUNK == idx;
  }

  lemma {:induction false} ShareOfChunk(blocks: seq<Block>, idx: nat, c: nat, i: nat)
    requires c <= CHUNK && idx * CHUNK + c <= |blocks|
    ensures Share(blocks, idx * CHUNK + c, i)
            == Share(blocks, idx * CHUNK, i)
               + if idx % MAX_SLICES == i then blocks[idx * CHUNK..idx * CHUNK + c] else []
  {
    if c > 0 {
      var last := idx * CHUNK + (c - 1);
      ShareOfChunk(blocks, idx, c - 1, i);
      SliceOfChunk(idx, c - 1);
      assert Share(blocks, last + 1, i)
             == Share(blocks, last, i) + if idx % MAX_SLICES == i then [blocks[last]] else [];
      assert blocks[idx * CHUNK..last + 1] == blocks[idx * CHUNK..last] + [blocks[last]];
    }
  }

  function Shares(blocks: seq<Block>, n: nat): seq<seq<Block>>
    requires n <= |blocks|
  {
    seq(MAX_SLICES, i requires 0 <= i => Share(blocks, n, i))
  }

  function Together(parts: seq<seq<Block>>): multiset<Block> {
    if parts == [] then multiset{} else multiset(parts[0]) + Together(parts[1..])
  }

  lemma {:induction false} TogetherNothing(parts: seq<seq<Block>>)
    requires forall k :: 0 <= k < |parts| ==> parts[k] == []
    ensures Together(parts) == multiset{}
  {
    if parts != [] {
      TogetherNothing(parts[1..]);
    }
  }

  lemma {:induction false} TogetherOneMore(parts: seq<seq<Block>>, s: nat, b: Block)
    requires s < |parts|
    ensures Together(parts[s := parts[s] + [b]]) == Together(parts) + multiset{b}
  {
    var more := parts[s := parts[s] + [b]];
    if s == 0 {
      assert more[1..] == parts[1..];
    } else {
      assert more[1..] == parts[1..][s - 1 := parts[1..][s - 1] + [b]];
      TogetherOneMore(parts[1..], s - 1, b);
    }
  }

  lemma SharesStep(blocks: seq<Block>, n: nat)
    requires n < |blocks|
    ensures var before := Shares(blocks, n);
            Shares(blocks, n + 1) == before[SliceOf(n) := before[SliceOf(n)] + [blocks[n]]]
  {
    var before, s := Shares(blocks, n), SliceOf(n);
    var after := before[s := before[s] + [blocks[n]]];
    forall k: nat | k < MAX_SLICES ensures Shares(blocks, n + 1)[k] == after[k] {
      assert Share(blocks, n + 1, k) == Share(blocks, n, k) + if s == k then [blocks[n]] else [];
    }
  }

  lemma TogetherStep(blocks: seq<Block>, n: nat, before: seq<seq<Block>>, after: seq<seq<Block>>, s: nat)
    requires n < |blocks| && s < |before| && Together(before) == multiset(blocks[..n])
    requires after == before[s := before[s] + [blocks[n]]]
    ensures Together(after) == multiset(blocks[..n + 1])
  {
    TogetherOneMore(before, s, blocks[n]);
    assert blocks[..n + 1] == blocks[..n] + [blocks[n]];
  }

  lemma NothingShared(blocks: seq<Block>)
    ensures Together(Shares(blocks, 0)) == multiset(blocks[..0])
  {
    TogetherNothing(Shares(blocks, 0));
  }

  lemma OneMoreShared(blocks: seq<Block>, n: nat)
    requires n < |blocks| && Together(Shares(blocks, n)) == multiset(blocks[..n])
    ensures Together(Shares(blocks, n + 1)) == multiset(blocks[..n + 1])
  {
    var before, after := Shares(blocks, n), Shares(blocks, n + 1);
    SharesStep(blocks, n);
    TogetherStep(blocks, n, before, after, SliceOf(n));
  }

  /** The shares of the fifteen slices together are the blocks, each as often as it occurs. */
  lemma SharesAreTheBlocks(blocks: seq<Block>, n: nat)
    requires n <= |blocks|
    ensures Together(Shares(blocks, n)) == multiset(blocks[..n])
  {
    NothingShared(blocks);
    for i := 0 to n
      invariant Together(Shares(blocks, i)) == multiset(blocks[..i])
    {
      OneMoreShared(blocks, i);
    }
  }

  lemma {:induction false} ShareMembers(blocks: seq<Block>, n: nat, i: nat)
    requires n <= |blocks|
    ensures forall b :: b in Share(blocks, n, i) ==> exists m :: 0 <= m < n && blocks[m] == b && SliceOf(m) == i
    ensures forall m :: 0 <= m < n && SliceOf(m) == i ==> blocks[m] in Share(blocks, n, i)
  {
    if n > 0 {
      ShareMembers(blocks, n - 1, i);
      assert SliceOf(n - 1) == i ==> Share(blocks, n, i) == Share(blocks, n - 1, i) + [blocks[n - 1]];
    }
  }

  lemma {:induction false} SharePrefix(blocks: seq<Block>, m: nat, n: nat, i: nat)
    requires m <= n <= |blocks|
    ensures Share(blocks, m, i) <= Share(blocks, n, i)
  {
    if m < n {
      SharePrefix(blocks, m, n - 1, i);
    }
  }

  lemma ChunkOfRound(q: nat, c: nat)
    requires c < 15
    ensures (15 * q + c) % 15 == c && (15 * q + c) * CHUNK == 1500 * q + 100 * c
  {
  }

  /** After `q` rounds and `c` chunks more, a slice has its hundreds. */
  lemma {:induction false} ShareAfterRounds(blocks: seq<Block>, q: nat, c: nat, i: nat)
    requires c <= 15 && i < 15 && 1500 * q + 100 * c <= |blocks|
    ensures |Share(blocks, 1500 * q + 100 * c, i)| == 100 * q + if c > i then 100 else 0
    decreases q, c
  {
    if c > 0 {
      ShareAfterRounds(blocks, q, c - 1, i);
      ChunkOfRound(q, c - 1);
      ShareOfChunk(blocks, 15 * q + (c - 1), 100, i);
    } else if q > 0 {
      ShareAfterRounds(blocks, q - 1, 15, i);
    }
  }

  /**
   Which slice each block goes to, and where in it: of every fifteen hundred blocks, the first hundred go to slice 0,
   the next to slice 1, and so on, each in order behind those the slice has already.
   */
  lemma ShareByPosition(blocks: seq<Block>, q: nat, i: nat, r: nat)
    requires i < 15 && r < 100 && 1500 * q + 100 * i + r < |blocks|
    ensures 100 * q + r < |Share(blocks, |blocks|, i)|
    ensures Share(blocks, |blocks|, i)[100 * q + r] == blocks[1500 * q + 100 * i + r]
  {
    var start := 1500 * q + 100 * i;
    ShareAfterRounds(blocks, q, i, i);
    ChunkOfRound(q, i);
    ShareOfChunk(blocks, 15 * q + i, r + 1, i);
    assert Share(blocks, start + r + 1, i) == Share(blocks, start, i) + blocks[start..start + r + 1];
    SharePrefix(blocks, start + r + 1, |blocks|, i);
  }

  /** How many slices a number of blocks makes. */
  function Used(n: nat): nat {
    if (n + CHUNK - 1) / CHUNK < MAX_SLICES then (n + CHUNK - 1) / CHUNK else MAX_SLICES
  }

  // ---- The result ----

  /**
   What `fill_blocks` leaves behind, in whatever order the shuffle puts it: the slices from 0 up,
   each with its share of the blocks, and a mask with exactly their bits clear.
   */
  ghost predicate IsFill(blocks: seq<Block>, slices: seq<Slice>, mask: Mask.Word) {
    && DistinctIndices(slices)
    && (forall i: nat :: i in Indices(slices) <==> i < Used(|blocks|))
    && (forall k :: 0 <= k < |slices| ==>
          slices[k] == Slice(slices[k].index, 0, Share(blocks, |blocks|, slices[k].index)))
    && (forall i: nat :: i in Mask.Bits(mask) <==> i < Mask.WIDTH && i !in Indices(slices))
  }

  /** The inner loop over the hashes of one file. */
  method CollectFile(path: string, hashes: seq<Hash>, blockSize: nat) returns (blocks: seq<Block>)
    ensures blocks == FileBlocks(path, hashes, blockSize)
  {
    blocks := [];
    for i := 0 to |hashes|
      invariant |blocks| == i && blocks == FileBlocks(path, hashes, blockSize)[..i]
    {
      blocks := blocks + [Block(hashes[i], path, i * blockSize)];
    }
  }

  method CollectBlocks(index: Index, hardlinks: set<string>) returns (blocks: seq<Block>)
    ensures blocks == BlocksOf(index.entries, hardlinks, index.blockSize)
  {
    blocks := [];
    for n := 0 to |index.entries|
      invariant blocks == BlocksOf(index.entries[..n], hardlinks, index.blockSize)
    {
      assert index.entries[..n + 1][..n] == index.entries[..n];
      match index.entries[n] {
        case Dir(_) =>
        case Link(_, _) =>
        case File(path, hashes) =>
          if path !in hardlinks {
            var more := CollectFile(path, hashes, index.blockSize);
            blocks := blocks + more;
          }
      }
    }
    assert index.entries[..|index.entries|] == index.entries;
  }

  /** The slices after `idx` chunks have been dealt. */
  predicate SlicesDealt(blocks: seq<Block>, idx: nat, slices: seq<Slice>) {
    && |slices| == (if idx < MAX_SLICES then idx else MAX_SLICES)
    && forall k: nat :: k < |slices| ==> slices[k] == Slice(k, 0, Share(blocks, Reached(blocks, idx), k))
  }

  ghost predicate Dealt(blocks: seq<Block>, idx: nat, slices: seq<Slice>, mask: Mask.Word) {
    && SlicesDealt(blocks, idx, slices)
    && (forall i: nat :: i in Mask.Bits(mask) <==> |slices| <= i < Mask.WIDTH)
  }

  function Reached(blocks: seq<Block>, idx: nat): (n: nat)
    ensures n <= |blocks|
  {
    if idx * CHUNK < |blocks| then idx * CHUNK else |blocks|
  }

  lemma {:induction false} NoShareYet(blocks: seq<Block>, n: nat, i: nat)
    requires n <= |blocks| && n <= i * CHUNK && i < MAX_SLICES
    ensures Share(blocks, n, i) == []
  {
    if n > 0 {
      NoShareYet(blocks, n - 1, i);
      assert SliceOf(n - 1) != i;
    }
  }

  /** What one chunk adds to the share of slice `k`. */
  lemma ChunkShared(blocks: seq<Block>, idx: nat, chunk: seq<Block>, k: nat)
    requires idx * CHUNK < |blocks| && chunk == blocks[idx * CHUNK..Reached(blocks, idx + 1)]
    ensures Share(blocks, Reached(blocks, idx + 1), k)
            == Share(blocks, Reached(blocks, idx), k) + if idx % MAX_SLICES == k then chunk else []
  {
    ShareOfChunk(blocks, idx, Reached(blocks, idx + 1) - idx * CHUNK, k);
  }

  /** One chunk goes to its slice, which is created when the chunk is its first. */
  lemma SlicesDealtNext(blocks: seq<Block>, idx: nat, slices: seq<Slice>, chunk: seq<Block>, after: seq<Slice>)
    requires idx * CHUNK < |blocks| && SlicesDealt(blocks, idx, slices)
    requires chunk == blocks[idx * CHUNK..Reached(blocks, idx + 1)]
    requires var s := idx % MAX_SLICES;
             var grown := if idx < MAX_SLICES then slices + [Slice(idx, 0, [])] else slices;
             s < |grown| && after == grown[s := grown[s].(blocks := grown[s].blocks + chunk)]
    ensures SlicesDealt(blocks, idx + 1, after)
  {
    if idx < MAX_SLICES {
      NoShareYet(blocks, Reached(blocks, idx), idx);
    }
    forall k: nat | k < |after| ensures after[k] == Slice(k, 0, Share(blocks, Reached(blocks, idx + 1), k)) {
      ChunkShared(blocks, idx, chunk, k);
    }
  }

  lemma DealtNext(blocks: seq<Block>, idx: nat, slices: seq<Slice>, mask: Mask.Word, after: seq<Slice>)
    requires Dealt(blocks, idx, slices, mask) && SlicesDealt(blocks, idx + 1, after)
    ensures Dealt(blocks, idx + 1, after, Mask.SliceUnfetched(mask, idx % MAX_SLICES))
  {
    Mask.BitsOfUnfetched(mask, idx % MAX_SLICES);
  }

  /** The dealing loop. */
  method Deal(blocks: seq<Block>) returns (slices: seq<Slice>, mask: Mask.Word)
    ensures Dealt(blocks, (|blocks| + CHUNK - 1) / CHUNK, slices, mask)
  {
    slices, mask := [], Mask.Full();
    var idx := 0;
    while idx * CHUNK < |blocks|
      invariant 0 <= idx <= (|blocks| + CHUNK - 1) / CHUNK
      invariant Dealt(blocks, idx, slices, mask)
    {
      var end := if (idx + 1) * CHUNK < |blocks| then (idx + 1) * CHUNK else |blocks|;
      var chunk := blocks[idx * CHUNK..end];
      var s := idx % MAX_SLICES;
      ghost var before := slices;
      while |slices| <= s
        invariant slices == before || (idx < MAX_SLICES && slices == before + [Slice(idx, 0, [])])
        decreases s + 1 - |slices|
      {
        slices := slices + [Slice(|slices|, 0, [])];
      }
      slices := slices[s := slices[s].(blocks := slices[s].blocks + chunk)];
      SlicesDealtNext(blocks, idx, before, chunk, slices);
      DealtNext(blocks, idx, before, mask, slices);
      mask := Mask.SliceUnfetched(mask, s);
      idx := idx + 1;
    }
  }

  /** The in-place shuffle of the source, with arbitrary choices for its random numbers. */
  method Shuffle<T>(s: seq<T>) returns (r: seq<T>)
    ensures multiset(r) == multiset(s)
  {
    r := s;
    var i := |s|;
    while i >= 2
      invariant 0 <= i <= |s| == |r|
      invariant multiset(r) == multiset(s)
    {
      i := i - 1;
      var k :| 0 <= k <= i;
      r := r[i := r[k]][k := r[i]];
    }
  }

  lemma ShuffledFill(blocks: seq<Block>, slices: seq<Slice>, mask: Mask.Word, shuffled: seq<Slice>)
    requires Dealt(blocks, (|blocks| + CHUNK - 1) / CHUNK, slices, mask)
    requires multiset(shuffled) == multiset(slices)
    ensures IsFill(blocks, shuffled, mask)
  {
    SameMembers(slices, shuffled);
    forall i, j | 0 <= i < j < |slices| ensures slices[i] != slices[j] {
      assert slices[i].index == i && slices[j].index == j;
    }
    RepeatsInPermutation(slices, shuffled);
    forall k | 0 <= k < |shuffled|
      ensures shuffled[k] in slices && shuffled[k] == Slice(shuffled[k].index, 0, Share(blocks, |blocks|, shuffled[k].index))
      ensures shuffled[k].index < |slices| && slices[shuffled[k].index] == shuffled[k]
    {
      assert shuffled[k] in shuffled;
      var m: nat :| m < |slices| && slices[m] == shuffled[k];
    }
    forall i: nat ensures i in Indices(shuffled) <==> i < |slices| {
      if i in Indices(shuffled) {
        var m :| 0 <= m < |shuffled| && shuffled[m].index == i;
      }
      if i < |slices| {
        assert slices[i] in slices;
        var m :| 0 <= m < |shuffled| && shuffled[m] == slices[i];
        assert shuffled[m].index == i;
      }
    }
  }

  /** Every block of every file that was not hardlinked ends up in exactly one slice. */
  method Fill(index: Index, hardlinks: set<string>) returns (slices: seq<Slice>, mask: Mask.Word)
    ensures IsFill(BlocksOf(index.entries, hardlinks, index.blockSize), slices, mask)
  {
    var blocks := CollectBlocks(index, hardlinks);
    var dealt: seq<Slice>;
    dealt, mask := Deal(blocks);
    slices := Shuffle(dealt);
    ShuffledFill(blocks, dealt, mask, slices);
  }
}
