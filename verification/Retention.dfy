/**
 Which images of a directory are kept (src/daemon/cleanup/calc.rs): `sort_out` as the source computes
 it, and a declarative account of it that does not depend on the order of the images.
 */
module Retention {
  import opened Seqs
  import opened Signatures
  import opened Metadata

  datatype Item = Item(name: string, state: State)

  /** `minTime` is the clock minus `keep_recent`. */
  datatype Limits = Limits(keepMin: nat, keepMax: nat, minTime: int)

  datatype Sorted = Sorted(used: seq<Item>, unused: seq<Item>)

  const UNIX_EPOCH: nat := 0

  /** `biggest_timestamp`, which despite its name is the smallest one, or the epoch without any. */
  function Earliest(signatures: seq<Entry>): nat {
    if signatures == [] then UNIX_EPOCH
    else if |signatures| == 1 then signatures[0].timestamp
    else
      var rest := Earliest(signatures[1..]);
      if signatures[0].timestamp <= rest then signatures[0].timestamp else rest
  }

  function Time(x: Item): nat { Earliest(x.state.signatures) }

  function Oldest(): Item -> int { (x: Item) => Time(x) }

  function Newest(): Item -> int { (x: Item) => 0 - Time(x) as int }

  // ---- sort_out ----

  function IsRecent(limits: Limits): Item -> bool { (x: Item) => Time(x) >= limits.minTime }

  function IsOld(limits: Limits): Item -> bool { (x: Item) => Time(x) < limits.minTime }

  function Listed(keep: set<string>): Item -> bool { (x: Item) => x.name in keep }

  function Unlisted(keep: set<string>): Item -> bool { (x: Item) => x.name !in keep }

  /** The recent items that stay, and those beyond the limit. */
  function Truncated(limits: Limits, recent: seq<Item>): (seq<Item>, seq<Item>) {
    if |recent| > limits.keepMax then
      var sorted := SortBy(recent, Newest());
      (sorted[..limits.keepMax], sorted[limits.keepMax..])
    else (recent, [])
  }

  function Recent(limits: Limits, items: seq<Item>): seq<Item> {
    Truncated(limits, Filter(items, IsRecent(limits))).0
  }

  /** The old items, and the recent ones beyond the limit. */
  function Candidates(limits: Limits, items: seq<Item>): seq<Item> {
    Filter(items, IsOld(limits)) + Truncated(limits, Filter(items, IsRecent(limits))).1
  }

  /** Recent and keep-listed items. */
  function Chosen(limits: Limits, items: seq<Item>, keep: set<string>): seq<Item> {
    Recent(limits, items) + Filter(Candidates(limits, items), Listed(keep))
  }

  function Rest(limits: Limits, items: seq<Item>, keep: set<string>): seq<Item> {
    Filter(Candidates(limits, items), Unlisted(keep))
  }

  /** As many of the newest items of the rest as are missing to the minimum. */
  function Refilled(limits: Limits, chosen: seq<Item>, rest: seq<Item>): Sorted {
    if |chosen| < limits.keepMin then
      var byAge := SortBy(rest, Oldest());
      var needs := limits.keepMin - |chosen|;
      var split := if |rest| < needs then 0 else |rest| - needs;
      Sorted(chosen + byAge[split..], byAge[..split])
    else Sorted(chosen, rest)
  }

  function SortOut(limits: Limits, items: seq<Item>, keep: set<string>): Sorted {
    if |items| <= limits.keepMin then Sorted(items, [])
    else Refilled(limits, Chosen(limits, items, keep), Rest(limits, items, keep))
  }

  /** The first loop of `sort_out`. */
  method SplitByTime(limits: Limits, items: seq<Item>) returns (used: seq<Item>, candidates: seq<Item>)
    ensures used == Filter(items, IsRecent(limits)) && candidates == Filter(items, IsOld(limits))
  {
    used, candidates := [], [];
    for i := 0 to |items|
      invariant used == Filter(items[..i], IsRecent(limits))
      invariant candidates == Filter(items[..i], IsOld(limits))
    {
      FilterStep(items, i, IsRecent(limits));
      FilterStep(items, i, IsOld(limits));
      if Time(items[i]) >= limits.minTime {
        used := used + [items[i]];
      } else {
        candidates := candidates + [items[i]];
      }
    }
    assert items[..|items|] == items;
  }

  lemma SplitStep(candidates: seq<Item>, i: nat, keep: set<string>)
    requires i < |candidates|
    ensures Filter(candidates[..i + 1], Listed(keep))
            == Filter(candidates[..i], Listed(keep)) + if candidates[i].name in keep then [candidates[i]] else []
    ensures Filter(candidates[..i + 1], Unlisted(keep))
            == Filter(candidates[..i], Unlisted(keep)) + if candidates[i].name in keep then [] else [candidates[i]]
  {
    FilterStep(candidates, i, Listed(keep));
    FilterStep(candidates, i, Unlisted(keep));
  }

  /** The second loop of `sort_out`: keep-listed candidates join the used items. */
  method SplitByKeepList(before: seq<Item>, candidates: seq<Item>, keep: set<string>)
    returns (used: seq<Item>, unused: seq<Item>)
    ensures used == before + Filter(candidates, Listed(keep)) && unused == Filter(candidates, Unlisted(keep))
  {
    used, unused := before, [];
    for i := 0 to |candidates|
      invariant used == before + Filter(candidates[..i], Listed(keep))
      invariant unused == Filter(candidates[..i], Unlisted(keep))
    {
      SplitStep(candidates, i, keep);
      if candidates[i].name in keep {
        used := used + [candidates[i]];
      } else {
        unused := unused + [candidates[i]];
      }
    }
    assert candidates[..|candidates|] == candidates;
  }

  /** `sort_out`: split, truncate, rescue the keep-listed, and refill up to the minimum. */
  method SortOutItems(limits: Limits, items: seq<Item>, keepList: seq<string>) returns (result: Sorted)
    ensures result == SortOut(limits, items, set name | name in keepList)
  {
    if |items| <= limits.keepMin {
      return Sorted(items, []);
    }
    var used, candidates := SplitByTime(limits, items);
    if |used| > limits.keepMax {
      used := SortBy(used, Newest());
      candidates := candidates + used[limits.keepMax..];
      used := used[..limits.keepMax];
    }
    assert used == Recent(limits, items) && candidates == Candidates(limits, items);
    var unused;
    used, unused := SplitByKeepList(used, candidates, set name | name in keepList);
    result := Refill(limits, used, unused);
  }

  /** The tail of `sort_out`: the newest unused items come back while there are too few. */
  method Refill(limits: Limits, chosen: seq<Item>, rest: seq<Item>) returns (result: Sorted)
    ensures result == Refilled(limits, chosen, rest)
  {
    var used, unused := chosen, rest;
    if |used| < limits.keepMin {
      unused := SortBy(unused, Oldest());
      var needs := limits.keepMin - |used|;
      var split := |unused| - if |unused| < needs then |unused| else needs;
      used, unused := used + unused[split..], unused[..split];
    }
    return Sorted(used, unused);
  }
}
