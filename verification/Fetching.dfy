/** `fill_blocks` and the scheduler put together, as `fetch_blocks` of src/daemon/tracking/fetch_dir.rs does. */
module Fetching {
  import Mask
  import opened Scheduler
  import opened FillBlocks
  import opened Downloads
  import Fetcher

  lemma FillIsBounded(blocks: seq<Block>, slices: seq<Slice>, mask: Mask.Word)
    requires IsFill(blocks, slices, mask)
    ensures forall k :: 0 <= k < |slices| ==> slices[k].index < MAX_SLICES
  {
    forall k | 0 <= k < |slices| ensures slices[k].index < MAX_SLICES {
      assert slices[k].index in Indices(slices);
    }
  }

  /**
   Download the blocks of an index, polling as long as `polls` lasts. When the future is ready the files on disk
   are those of the source and the mask promises everything; it fails only by a deadline or a stalled cluster.
   */
  method Download(hash: Data -> Hash, index: Index, hardlinks: set<string>, disk: map<string, Data>,
                  polls: seq<(Fetcher.Env, nat)>, ghost source: map<string, Data>)
    returns (verdict: Fetcher.Verdict, after: map<string, Data>, mask: Mask.Word)
    requires Collisionless(hash) && WellFormed(hash, index, hardlinks, source, disk)
    ensures verdict == Fetcher.Verdict.Ready ==> mask == Mask.Full()
    ensures verdict == Fetcher.Verdict.Ready ==> forall e :: e in index.entries && e.File? && e.path !in hardlinks ==>
                                    Content(after, e.path) == source[e.path]
    ensures verdict == Fetcher.Verdict.Ready ==> forall p :: p in disk ==> p in after && after[p] == disk[p]
    ensures verdict == Fetcher.Verdict.Err ==>
              exists n :: 0 <= n < |polls| && exists t :: polls[n].0.deadline(t) || polls[n].0.stalled(t)
    ensures verdict != Fetcher.Verdict.NotReady
  {
    ghost var blocks := BlocksOf(index.entries, hardlinks, index.blockSize);
    var slices, firstMask := Fill(index, hardlinks);
    FillIsBounded(blocks, slices, firstMask);
    ghost var first := Initial(blocks, slices, firstMask, disk);
    var fetcher := new Fetcher.FetchBlocks(slices, firstMask, disk, first.received);
    ghost var events := [];
    for n := 0 to |polls|
      invariant fetcher.Valid() && fresh(fetcher)
      invariant IsRun(hash, first, events) && Run(hash, first, events) == fetcher.View()
    {
      ghost var trace;
      verdict, trace := fetcher.Poll(hash, polls[n].0, polls[n].1);
      Fetcher.RunConcat(hash, first, events, trace);
      events := events + trace;
      if verdict == Fetcher.Verdict.Ready {
        DownloadReconstructs(hash, index, hardlinks, source, disk, slices, firstMask, events);
        return verdict, fetcher.disk, fetcher.mask;
      } else if verdict == Fetcher.Verdict.Err {
        return verdict, fetcher.disk, fetcher.mask;
      }
    }
    return Fetcher.Verdict.Running, fetcher.disk, fetcher.mask;
  }
}
