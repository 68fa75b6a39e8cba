/** What `sort_out` guarantees, for all lists of images, and for distinct ages in any order. */
module RetentionProperties {
  import opened Seqs
  import opened Retention
  import Merit

  // ---- For every list of items ----

  lemma TruncationOrder(limits: Limits, recent: seq<Item>)
    requires |recent| > limits.keepMax
    ensures var (top, over) := Truncated(limits, recent);
            && OrderedBy(top + over, Newest()) && |top| == limits.keepMax && multiset(top + over) == multiset(recent)
  {
    var sorted := SortBy(recent, Newest());
    SortPermutes(recent, Newest());
    assert sorted == sorted[..limits.keepMax] + sorted[limits.keepMax..];
  }

  lemma TruncationParts(limits: Limits, recent: seq<Item>)
    ensures var (top, over) := Truncated(limits, recent);
            && multiset(top) + multiset(over) == multiset(recent)
            && |top| <= limits.keepMax
            && (forall x, y :: x in top && y in over ==> Time(x) >= Time(y))
            && (forall x :: x in recent <==> x in top || x in over)
            && (over != [] ==> |top| == limits.keepMax && OrderedBy(top + over, Newest()))
  {
    var (top, over) := Truncated(limits, recent);
    if |recent| > limits.keepMax {
      TruncationOrder(limits, recent);
      SameMembers(top + over, recent);
      OrderedParts(top, over, Newest());
      forall x, y | x in top && y in over ensures Time(x) >= Time(y) {
        assert Newest()(x) <= Newest()(y);
      }
    }
  }

  /** Every item is recent enough to stay or a candidate; together they are the items. */
  lemma CandidateParts(limits: Limits, items: seq<Item>)
    ensures multiset(Recent(limits, items) + Candidates(limits, items)) == multiset(items)
    ensures |Recent(limits, items)| <= limits.keepMax
    ensures forall x :: x in Recent(limits, items) ==> x in items && Time(x) >= limits.minTime
    ensures forall x, y :: x in Recent(limits, items) && y in Candidates(limits, items) ==> Time(x) >= Time(y)
  {
    var recent, aged := Filter(items, IsRecent(limits)), Filter(items, IsOld(limits));
    TruncationParts(limits, recent);
    FilterSplits(items, IsRecent(limits), IsOld(limits));
    var (top, over) := Truncated(limits, recent);
    assert multiset(top + (aged + over)) == multiset(recent) + multiset(aged);
  }

  lemma ChoiceParts(limits: Limits, items: seq<Item>, keep: set<string>)
    ensures multiset(Chosen(limits, items, keep)) + multiset(Rest(limits, items, keep)) == multiset(items)
    ensures |Chosen(limits, items, keep)| + |Rest(limits, items, keep)| == |items|
    ensures |Chosen(limits, items, keep)| <= limits.keepMax + |Filter(items, Listed(keep))|
    ensures forall x, y :: x in Chosen(limits, items, keep) && x.name !in keep && y in Rest(limits, items, keep) ==>
                             Time(x) >= Time(y)
  {
    CandidateParts(limits, items);
    var top, cands := Recent(limits, items), Candidates(limits, items);
    FilterSplits(cands, Listed(keep), Unlisted(keep));
    SameMembers(top + cands, items);
    FilterPermuted(top + cands, items, Listed(keep));
    FilterAppend(top, cands, Listed(keep));
  }

  lemma Halves(rest: seq<Item>, byAge: seq<Item>, split: nat)
    requires multiset(byAge) == multiset(rest) && split <= |byAge|
    ensures multiset(byAge[..split] + byAge[split..]) == multiset(rest)
  {
    assert byAge == byAge[..split] + byAge[split..];
  }

  /** How many items come back, and which. */
  lemma RefillSplits(limits: Limits, chosen: seq<Item>, rest: seq<Item>) returns (back: seq<Item>, left: seq<Item>)
    requires |chosen| < limits.keepMin
    ensures Refilled(limits, chosen, rest) == Sorted(chosen + back, left)
    ensures multiset(left + back) == multiset(rest) && |left| + |back| == |rest|
    ensures |chosen + back| <= limits.keepMin && (|chosen + back| < limits.keepMin ==> left == [])
  {
    var byAge := SortBy(rest, Oldest());
    SortPermutes(rest, Oldest());
    assert |byAge| == |rest| by { SameMembers(byAge, rest); }
    var needs := limits.keepMin - |chosen|;
    var split := if |rest| < needs then 0 else |rest| - needs;
    back, left := byAge[split..], byAge[..split];
    Halves(rest, byAge, split);
  }

  lemma RefillParts(limits: Limits, chosen: seq<Item>, rest: seq<Item>)
    ensures var r := Refilled(limits, chosen, rest);
            && multiset(r.used) + multiset(r.unused) == multiset(chosen) + multiset(rest)
            && |r.used| + |r.unused| == |chosen| + |rest|
            && |chosen| <= |r.used|
            && (|r.used| > limits.keepMin ==> r == Sorted(chosen, rest))
            && (|r.used| < limits.keepMin ==> r.unused == [])
            && (forall x :: x in chosen ==> x in r.used)
            && (forall x :: x in r.used ==> x in chosen || x in rest)
            && (forall x :: x in r.unused ==> x in rest)
  {
    if |chosen| < limits.keepMin {
      var back, left := RefillSplits(limits, chosen, rest);
      SameMembers(left + back, rest);
      assert multiset(left + back) == multiset(left) + multiset(back);
    }
  }

  /** The refill takes the newest of the rest. */
  lemma RefillTakesNewest(limits: Limits, chosen: seq<Item>, rest: seq<Item>, x: Item, y: Item)
    requires x in Refilled(limits, chosen, rest).used && y in Refilled(limits, chosen, rest).unused
    requires x !in chosen
    ensures Time(x) >= Time(y)
  {
    var byAge := SortBy(rest, Oldest());
    var needs := limits.keepMin - |chosen|;
    var split := if |rest| < needs then 0 else |rest| - needs;
    assert x in byAge[split..] && y in byAge[..split];
    var i :| 0 <= i < |byAge[split..]| && byAge[split..][i] == x;
    var j :| 0 <= j < |byAge[..split]| && byAge[..split][j] == y;
    assert Oldest()(byAge[j]) <= Oldest()(byAge[split + i]);
  }

  /** `used` and `unused` are the items, each with its multiplicity, and nothing else. */
  lemma SortOutPartitions(limits: Limits, items: seq<Item>, keep: set<string>)
    ensures var r := SortOut(limits, items, keep);
            multiset(r.used) + multiset(r.unused) == multiset(items) && |r.used| + |r.unused| == |items|
  {
    ChoiceParts(limits, items, keep);
    RefillParts(limits, Chosen(limits, items, keep), Rest(limits, items, keep));
  }

  lemma UsedAreItems(limits: Limits, items: seq<Item>, keep: set<string>)
    ensures forall x :: x in SortOut(limits, items, keep).used ==> x in items
  {
    SortOutPartitions(limits, items, keep);
    var r := SortOut(limits, items, keep);
    SameMembers(r.used + r.unused, items);
  }

  /** No keep-listed item is ever given up. */
  lemma KeepListedAreUsed(limits: Limits, items: seq<Item>, keep: set<string>, x: Item)
    requires x in items && x.name in keep
    ensures x in SortOut(limits, items, keep).used
  {
    SortOutPartitions(limits, items, keep);
    var r := SortOut(limits, items, keep);
    RefillParts(limits, Chosen(limits, items, keep), Rest(limits, items, keep));
    SameMembers(r.used + r.unused, items);
  }

  /** The bounds on what is kept. */
  lemma UsedBounds(limits: Limits, items: seq<Item>, keep: set<string>)
    ensures var n := |SortOut(limits, items, keep).used|;
            && (n >= limits.keepMin || n == |items|)
            && (n <= limits.keepMin || n <= limits.keepMax + |Filter(items, Listed(keep))|)
  {
    ChoiceParts(limits, items, keep);
    RefillParts(limits, Chosen(limits, items, keep), Rest(limits, items, keep));
  }

  /** What is kept without being keep-listed is at least as new as everything given up. */
  lemma UsedAreNewest(limits: Limits, items: seq<Item>, keep: set<string>, x: Item, y: Item)
    requires x in SortOut(limits, items, keep).used && y in SortOut(limits, items, keep).unused
    requires x.name !in keep
    ensures Time(x) >= Time(y)
  {
    var chosen, rest := Chosen(limits, items, keep), Rest(limits, items, keep);
    ChoiceParts(limits, items, keep);
    RefillParts(limits, chosen, rest);
    if x !in chosen {
      RefillTakesNewest(limits, chosen, rest, x, y);
    }
  }

  // ---- What is given up, whatever the ties ----

  function Members(items: seq<Item>): set<Item> { set x | x in items }

  /** Items judged by their times, and those of them that are keep-listed. */
  function AgesOf(all: set<Item>): Merit.Ages<Item> { map x | x in all :: Time(x) as int }

  function Marked(all: set<Item>, keep: set<string>): set<Item> { set y | y in all && y.name in keep }

  function NotOlder(all: set<Item>, x: Item): set<Item>
    requires x in all
  {
    Merit.AboveOrTied(AgesOf(all), x)
  }

  function AheadOrTied(all: set<Item>, keep: set<string>, x: Item): set<Item>
    requires x in all
  {
    Merit.AheadOrTied(AgesOf(all), Marked(all, keep), x)
  }

  /** A recent item that is given up sees all the places for recent ones taken by items no older. */
  lemma OverLimitIsOutnumbered(limits: Limits, items: seq<Item>, x: Item)
    requires NoRepeats(items) && x in items && x !in Recent(limits, items) && Time(x) >= limits.minTime
    ensures |NotOlder(Members(items), x)| >= limits.keepMax
  {
    var recent := Filter(items, IsRecent(limits));
    var (top, over) := Truncated(limits, recent);
    TruncationParts(limits, recent);
    FilterNoRepeats(items, IsRecent(limits));
    PartsNoRepeats(recent, top, over);
    assert x in over;
    MembersOfNoRepeats(top);
    SubsetIsNoLarger(Members(top), NotOlder(Members(items), x));
  }

  lemma UnusedParts(limits: Limits, items: seq<Item>, keep: set<string>, x: Item)
    requires NoRepeats(items) && x in SortOut(limits, items, keep).unused
    ensures NoRepeats(SortOut(limits, items, keep).used) && x !in SortOut(limits, items, keep).used
    ensures x in items && x.name !in keep && |SortOut(limits, items, keep).used| >= limits.keepMin
    ensures x !in Recent(limits, items)
  {
    var r := SortOut(limits, items, keep);
    SortOutPartitions(limits, items, keep);
    PartsNoRepeats(items, r.used, r.unused);
    UsedBounds(limits, items, keep);
    if x.name in keep {
      KeepListedAreUsed(limits, items, keep, x);
    }
    RefillParts(limits, Chosen(limits, items, keep), Rest(limits, items, keep));
  }

  /** An item that is given up is outnumbered on every count, with ties counted against it. */
  lemma UnusedIsOutnumbered(limits: Limits, items: seq<Item>, keep: set<string>, x: Item)
    requires NoRepeats(items) && x in SortOut(limits, items, keep).unused
    ensures x in items && x in Members(items) && x.name !in keep
    ensures Time(x) >= limits.minTime ==> |NotOlder(Members(items), x)| >= limits.keepMax
    ensures |AheadOrTied(Members(items), keep, x)| >= limits.keepMin
  {
    var used := SortOut(limits, items, keep).used;
    UnusedParts(limits, items, keep, x);
    if Time(x) >= limits.minTime {
      OverLimitIsOutnumbered(limits, items, x);
    }
    UsedAreItems(limits, items, keep);
    forall y | y in used ensures y in AheadOrTied(Members(items), keep, x) {
      if y.name !in keep {
        UsedAreNewest(limits, items, keep, y, x);
      }
    }
    MembersOfNoRepeats(used);
    SubsetIsNoLarger(Members(used), AheadOrTied(Members(items), keep, x));
  }

  /** So an item that is not outnumbered on some count is kept, whatever the ties. */
  lemma NotOutnumberedIsUsed(limits: Limits, items: seq<Item>, keep: set<string>, x: Item)
    requires NoRepeats(items) && x in items
    requires || x.name in keep
             || (Time(x) >= limits.minTime && |NotOlder(Members(items), x)| < limits.keepMax)
             || |AheadOrTied(Members(items), keep, x)| < limits.keepMin
    ensures x in SortOut(limits, items, keep).used
  {
    var r := SortOut(limits, items, keep);
    SortOutPartitions(limits, items, keep);
    PartsNoRepeats(items, r.used, r.unused);
    if x in r.unused {
      UnusedIsOutnumbered(limits, items, keep, x);
    }
  }

  // ---- Rerunning on the result ----

  /** A property that holds of all of `a` and `c` and of nothing in `b` picks out `a + c`. */
  lemma FilterOuter(a: seq<Item>, b: seq<Item>, c: seq<Item>, p: Item -> bool)
    requires forall x :: x in a || x in c ==> p(x)
    requires forall x :: x in b ==> !p(x)
    ensures Filter(a + (b + c), p) == a + c
  {
    FilterAll(a, p);
    FilterNone(b, p);
    FilterAll(c, p);
    FilterAppend(b, c, p);
    assert Filter(b + c, p) == c;
    FilterAppend(a, b + c, p);
  }

  lemma FilterInner(a: seq<Item>, b: seq<Item>, c: seq<Item>, p: Item -> bool)
    requires forall x :: x in a || x in c ==> !p(x)
    requires forall x :: x in b ==> p(x)
    ensures Filter(a + (b + c), p) == b
  {
    FilterNone(a, p);
    FilterAll(b, p);
    FilterNone(c, p);
    FilterAppend(b, c, p);
    assert Filter(b + c, p) == b;
    FilterAppend(a, b + c, p);
  }

  /** Dropping some of the overflow leaves the truncation where it was. */
  lemma TruncateAgain(limits: Limits, recent: seq<Item>, p: Item -> bool)
    ensures var (top, over) := Truncated(limits, recent);
            Truncated(limits, top + Filter(over, p)) == (top, Filter(over, p))
  {
    var (top, over) := Truncated(limits, recent);
    var saved := Filter(over, p);
    TruncationParts(limits, recent);
    if saved != [] {
      assert saved[0] in over;
      OrderedParts(top, over, Newest());
      OrderedFilter(over, p, Newest());
      OrderedParts(top, saved, Newest());
      SortOfOrdered(top + saved, Newest());
      assert (top + saved)[..limits.keepMax] == top && (top + saved)[limits.keepMax..] == saved;
    } else {
      assert top + saved == top;
    }
  }

  /** The chosen items choose themselves again, in the same order. */
  lemma ChosenAgain(limits: Limits, items: seq<Item>, keep: set<string>)
    ensures var chosen := Chosen(limits, items, keep);
            Chosen(limits, chosen, keep) == chosen && Rest(limits, chosen, keep) == []
  {
    var recent, aged := Filter(items, IsRecent(limits)), Filter(items, IsOld(limits));
    var (top, over) := Truncated(limits, recent);
    TruncationParts(limits, recent);
    var savedOld, savedOver := Filter(aged, Listed(keep)), Filter(over, Listed(keep));
    FilterAppend(aged, over, Listed(keep));
    var chosen := Chosen(limits, items, keep);
    assert chosen == top + (savedOld + savedOver);
    FilterOuter(top, savedOld, savedOver, IsRecent(limits));
    FilterInner(top, savedOld, savedOver, IsOld(limits));
    TruncateAgain(limits, recent, Listed(keep));
    assert Candidates(limits, chosen) == savedOld + savedOver;
    FilterAll(savedOld + savedOver, Listed(keep));
    FilterNone(savedOld + savedOver, Unlisted(keep));
  }

  /** Rerun at the same clock, `sort_out` gives its own choice back, in order, with nothing unused. */
  lemma SortOutIsIdempotent(limits: Limits, items: seq<Item>, keep: set<string>)
    ensures var used := SortOut(limits, items, keep).used;
            SortOut(limits, used, keep) == Sorted(used, [])
  {
    var used := SortOut(limits, items, keep).used;
    if |used| > limits.keepMin {
      RefillParts(limits, Chosen(limits, items, keep), Rest(limits, items, keep));
      assert used == Chosen(limits, items, keep);
      ChosenAgain(limits, items, keep);
    }
  }

  // ---- For items of distinct ages, in any order ----

  predicate DistinctAges(items: seq<Item>) {
    forall i, j :: 0 <= i < j < |items| ==> Time(items[i]) != Time(items[j])
  }

  function Newer(all: set<Item>, x: Item): set<Item> { Merit.Above(AgesOf(all), Time(x)) }

  /** What goes before `x` when the list is filled up to the minimum. */
  function Ahead(all: set<Item>, keep: set<string>, x: Item): set<Item> {
    Merit.Ahead(AgesOf(all), Marked(all, keep), x, Time(x))
  }

  /** Why an item is kept, without reference to any order. */
  predicate Deserves(limits: Limits, all: set<Item>, keep: set<string>, x: Item)
    requires x in all
  {
    Merit.Deserves(limits, AgesOf(all), Marked(all, keep), x)
  }

  lemma AgesTellApart(items: seq<Item>, x: Item, y: Item)
    requires DistinctAges(items) && x in items && y in items && Time(x) == Time(y)
    ensures x == y
  {
    var i :| 0 <= i < |items| && items[i] == x;
    var j :| 0 <= j < |items| && items[j] == y;
  }

  lemma DistinctAgesNoRepeats(items: seq<Item>)
    requires DistinctAges(items)
    ensures NoRepeats(items)
  {
  }

  /** A list that is part of `items`, with nothing twice. */
  predicate PartOf(part: seq<Item>, items: seq<Item>) {
    NoRepeats(part) && forall x :: x in part ==> x in items
  }

  /** In a part sorted newest first, the position of an item is the number of its newer items. */
  lemma RankNewestFirst(items: seq<Item>, part: seq<Item>, i: nat)
    requires DistinctAges(items) && PartOf(part, items) && OrderedBy(part, Newest())
    requires i < |part|
    ensures |Newer(Members(part), part[i])| == i
  {
    var front := part[..i];
    assert NoRepeats(front);
    MembersOfNoRepeats(front);
    forall y ensures y in front <==> y in part && Time(y) > Time(part[i]) {
      if y in part {
        var j :| 0 <= j < |part| && part[j] == y;
        assert Newest()(part[if j < i then j else i]) <= Newest()(part[if j < i then i else j]);
        if Time(y) == Time(part[i]) { AgesTellApart(items, y, part[i]); }
        assert j < i ==> front[j] == y;
      }
    }
    assert Newer(Members(part), part[i]) == set y | y in front;
  }

  /** In a part sorted oldest first, the number of newer items is the number of positions after it. */
  lemma RankOldestFirst(items: seq<Item>, part: seq<Item>, i: nat)
    requires DistinctAges(items) && PartOf(part, items) && OrderedBy(part, Oldest())
    requires i < |part|
    ensures |Newer(Members(part), part[i])| == |part| - 1 - i
  {
    var back := part[i + 1..];
    assert NoRepeats(back);
    MembersOfNoRepeats(back);
    forall y ensures y in back <==> y in part && Time(y) > Time(part[i]) {
      if y in part {
        var j :| 0 <= j < |part| && part[j] == y;
        assert Oldest()(part[if j < i then j else i]) <= Oldest()(part[if j < i then i else j]);
        if Time(y) == Time(part[i]) { AgesTellApart(items, y, part[i]); }
        assert j > i ==> back[j - i - 1] == y;
      }
    }
    assert Newer(Members(part), part[i]) == set y | y in back;
  }

  lemma MembersCount(items: seq<Item>)
    requires NoRepeats(items)
    ensures |Members(items)| == |items|
  {
    MembersOfNoRepeats(items);
  }

  /** Truncation keeps the `keepMax` newest. */
  lemma TruncatedByRank(limits: Limits, items: seq<Item>, recent: seq<Item>, x: Item)
    requires DistinctAges(items) && PartOf(recent, items) && x in recent
    ensures x in Truncated(limits, recent).0 <==> |Newer(Members(recent), x)| < limits.keepMax
  {
    if |recent| > limits.keepMax {
      var sorted := SortBy(recent, Newest());
      SortPermutes(recent, Newest());
      RepeatsInPermutation(recent, sorted);
      assert Members(sorted) == Members(recent);
      var i :| 0 <= i < |sorted| && sorted[i] == x;
      RankNewestFirst(items, sorted, i);
      if i < limits.keepMax {
        assert sorted[..limits.keepMax][i] == x;
      }
    } else {
      MembersCount(recent);
      SubsetIsNoLarger(Newer(Members(recent), x), Members(recent) - {x});
    }
  }

  /** The recent items that stay are the `keepMax` newest of all, as far as they are recent. */
  lemma RecentByRank(limits: Limits, items: seq<Item>, x: Item)
    requires DistinctAges(items) && x in items
    ensures x in Recent(limits, items)
            <==> Time(x) >= limits.minTime && |Newer(Members(items), x)| < limits.keepMax
  {
    var recent := Filter(items, IsRecent(limits));
    DistinctAgesNoRepeats(items);
    FilterNoRepeats(items, IsRecent(limits));
    TruncationParts(limits, recent);
    if Time(x) >= limits.minTime {
      assert Newer(Members(items), x) == Newer(Members(recent), x);
      TruncatedByRank(limits, items, recent, x);
    }
  }

  lemma ChosenByMerit(limits: Limits, items: seq<Item>, keep: set<string>, x: Item)
    requires DistinctAges(items) && x in items
    ensures x in Chosen(limits, items, keep) <==> x.name in keep || x in Recent(limits, items)
  {
    DistinctAgesNoRepeats(items);
    CandidateParts(limits, items);
    SameMembers(Recent(limits, items) + Candidates(limits, items), items);
  }

  lemma AheadOfRestIs(limits: Limits, items: seq<Item>, keep: set<string>, x: Item, y: Item)
    requires DistinctAges(items) && x in Rest(limits, items, keep)
    ensures y in Ahead(Members(items), keep, x)
            <==> y in Chosen(limits, items, keep) || y in Newer(Members(Rest(limits, items, keep)), x)
  {
    var chosen, rest := Chosen(limits, items, keep), Rest(limits, items, keep);
    DistinctAgesNoRepeats(items);
    ChoiceParts(limits, items, keep);
    PartsNoRepeats(items, chosen, rest);
    if y in items {
      CandidateParts(limits, items);
      ChosenByMerit(limits, items, keep, y);
      if Time(y) == Time(x) { AgesTellApart(items, y, x); }
    }
  }

  /** What goes before an item of the rest: the chosen, and the newer ones of the rest. */
  lemma AheadOfRest(limits: Limits, items: seq<Item>, keep: set<string>, x: Item)
    requires DistinctAges(items) && x in Rest(limits, items, keep)
    ensures |Ahead(Members(items), keep, x)|
            == |Chosen(limits, items, keep)| + |Newer(Members(Rest(limits, items, keep)), x)|
  {
    var chosen, rest := Chosen(limits, items, keep), Rest(limits, items, keep);
    forall y ensures y in Ahead(Members(items), keep, x) <==> y in chosen || y in Newer(Members(rest), x) {
      AheadOfRestIs(limits, items, keep, x, y);
    }
    assert Ahead(Members(items), keep, x) == Members(chosen) + Newer(Members(rest), x);
    DistinctAgesNoRepeats(items);
    ChoiceParts(limits, items, keep);
    PartsNoRepeats(items, chosen, rest);
    MembersCount(chosen);
    assert Members(chosen) !! Newer(Members(rest), x);
  }

  lemma RefillByRank(limits: Limits, items: seq<Item>, chosen: seq<Item>, rest: seq<Item>, x: Item)
    requires DistinctAges(items) && PartOf(rest, items)
    requires x in rest && x !in chosen
    ensures x in Refilled(limits, chosen, rest).used
            <==> |chosen| + |Newer(Members(rest), x)| < limits.keepMin
  {
    if |chosen| < limits.keepMin {
      var byAge := SortBy(rest, Oldest());
      SortPermutes(rest, Oldest());
      RepeatsInPermutation(rest, byAge);
      assert Members(byAge) == Members(rest);
      var needs := limits.keepMin - |chosen|;
      var split := if |rest| < needs then 0 else |rest| - needs;
      var i :| 0 <= i < |byAge| && byAge[i] == x;
      RankOldestFirst(items, byAge, i);
      assert i >= split ==> byAge[split..][i - split] == x;
    }
  }

  lemma FewAllDeserve(limits: Limits, items: seq<Item>, keep: set<string>, x: Item)
    requires DistinctAges(items) && x in items && |items| <= limits.keepMin
    ensures Deserves(limits, Members(items), keep, x)
  {
    DistinctAgesNoRepeats(items);
    MembersCount(items);
    SubsetIsNoLarger(Ahead(Members(items), keep, x), Members(items) - {x});
  }

  lemma RestByMerit(limits: Limits, items: seq<Item>, keep: set<string>, x: Item)
    requires DistinctAges(items) && x in Rest(limits, items, keep)
    requires PartOf(Rest(limits, items, keep), items) && x !in Chosen(limits, items, keep)
    ensures x in Refilled(limits, Chosen(limits, items, keep), Rest(limits, items, keep)).used
            <==> |Ahead(Members(items), keep, x)| < limits.keepMin
  {
    AheadOfRest(limits, items, keep, x);
    RefillByRank(limits, items, Chosen(limits, items, keep), Rest(limits, items, keep), x);
  }

  lemma ChoiceSplits(limits: Limits, items: seq<Item>, keep: set<string>, x: Item)
    requires DistinctAges(items) && x in items
    ensures x in Chosen(limits, items, keep) || x in Rest(limits, items, keep)
    ensures !(x in Chosen(limits, items, keep) && x in Rest(limits, items, keep))
    ensures PartOf(Rest(limits, items, keep), items)
  {
    DistinctAgesNoRepeats(items);
    ChoiceParts(limits, items, keep);
    PartsNoRepeats(items, Chosen(limits, items, keep), Rest(limits, items, keep));
  }

  lemma UsedByCounts(limits: Limits, items: seq<Item>, keep: set<string>, x: Item)
    requires DistinctAges(items) && x in items && |items| > limits.keepMin
    ensures x in SortOut(limits, items, keep).used
            <==> x.name in keep || x in Recent(limits, items) || |Ahead(Members(items), keep, x)| < limits.keepMin
  {
    ChoiceSplits(limits, items, keep, x);
    ChosenByMerit(limits, items, keep, x);
    RefillParts(limits, Chosen(limits, items, keep), Rest(limits, items, keep));
    if x in Rest(limits, items, keep) {
      RestByMerit(limits, items, keep, x);
    }
  }

  lemma DeservesByCounts(limits: Limits, all: set<Item>, keep: set<string>, x: Item)
    requires x in all
    ensures Deserves(limits, all, keep, x)
            <==> || x.name in keep
                 || (Time(x) >= limits.minTime && |Newer(all, x)| < limits.keepMax)
                 || |Ahead(all, keep, x)| < limits.keepMin
  {
  }

  /** `sort_out` keeps exactly the items that deserve it. */
  lemma SortOutByMerit(limits: Limits, items: seq<Item>, keep: set<string>, x: Item)
    requires DistinctAges(items) && x in items
    ensures x in SortOut(limits, items, keep).used <==> Deserves(limits, Members(items), keep, x)
  {
    if |items| <= limits.keepMin {
      FewAllDeserve(limits, items, keep, x);
    } else {
      UsedByCounts(limits, items, keep, x);
      RecentByRank(limits, items, x);
      DeservesByCounts(limits, Members(items), keep, x);
    }
  }

  // ---- Stability ----

  predicate UniqueNames(all: set<Item>) {
    forall x, y :: x in all && y in all && x.name == y.name ==> x == y
  }

  function Names(all: set<Item>): set<string> { set x | x in all :: x.name }

  lemma {:induction false} NamesCount(all: set<Item>)
    requires UniqueNames(all)
    ensures |Names(all)| == |all|
    decreases |all|
  {
    if all != {} {
      var x :| x in all;
      NamesCount(all - {x});
      assert Names(all) == Names(all - {x}) + {x.name};
    }
  }

  /** Every name of `few` is one of `all`, and there it is at least as new. */
  predicate NoNewerThan(few: set<Item>, all: set<Item>) {
    forall y :: y in few ==> exists z :: z in all && z.name == y.name && Time(z) >= Time(y)
  }

  lemma NewerNames(all: set<Item>, few: set<Item>, x: Item, x': Item)
    requires NoNewerThan(few, all) && Time(x) == Time(x')
    ensures Names(Newer(few, x')) <= Names(Newer(all, x))
  {
    forall y | y in Newer(few, x') ensures y.name in Names(Newer(all, x)) {
      var z :| z in all && z.name == y.name && Time(z) >= Time(y);
      assert z in Newer(all, x);
    }
  }

  lemma AheadNames(all: set<Item>, few: set<Item>, keep: set<string>, x: Item, x': Item)
    requires UniqueNames(few) && NoNewerThan(few, all)
    requires x in all && x' in few && x.name == x'.name && Time(x) == Time(x')
    ensures Names(Ahead(few, keep, x')) <= Names(Ahead(all, keep, x))
  {
    forall y | y in Ahead(few, keep, x') ensures y.name in Names(Ahead(all, keep, x)) {
      var z :| z in all && z.name == y.name && Time(z) >= Time(y);
      assert y.name != x'.name;
      assert z in Ahead(all, keep, x);
    }
  }

  lemma FewerNames(a: set<Item>, b: set<Item>)
    requires UniqueNames(a) && UniqueNames(b) && Names(a) <= Names(b)
    ensures |a| <= |b|
  {
    NamesCount(a);
    NamesCount(b);
    SubsetIsNoLarger(Names(a), Names(b));
  }

  /**
   An item that deserves to be kept still does when other items are gone or have become older, even
   when its own record is another one of the same name and age.
   */
  lemma DeservedWhenOthersAge(limits: Limits, all: set<Item>, few: set<Item>, keep: set<string>, x: Item, x': Item)
    requires UniqueNames(all) && UniqueNames(few) && NoNewerThan(few, all)
    requires x in all && x' in few && x.name == x'.name && Time(x) == Time(x')
    requires Deserves(limits, all, keep, x)
    ensures Deserves(limits, few, keep, x')
  {
    NewerNames(all, few, x, x');
    FewerNames(Newer(few, x'), Newer(all, x));
    AheadNames(all, few, keep, x, x');
    FewerNames(Ahead(few, keep, x'), Ahead(all, keep, x));
    DeservesByCounts(limits, all, keep, x);
    DeservesByCounts(limits, few, keep, x');
  }

  /** An item kept on a list is kept on every part of that list that holds it, in any order. */
  lemma KeptOnEveryPart(limits: Limits, items: seq<Item>, part: seq<Item>, keep: set<string>, x: Item)
    requires DistinctAges(items) && PartOf(part, items) && x in part
    requires x in SortOut(limits, items, keep).used
    ensures x in SortOut(limits, part, keep).used
  {
    forall i, j | 0 <= i < j < |part| ensures Time(part[i]) != Time(part[j]) {
      if Time(part[i]) == Time(part[j]) { AgesTellApart(items, part[i], part[j]); }
    }
    SortOutByMerit(limits, items, keep, x);
    SortOutByMerit(limits, part, keep, x);
    SubsetIsNoLarger(Newer(Members(part), x), Newer(Members(items), x));
    SubsetIsNoLarger(Ahead(Members(part), keep, x), Ahead(Members(items), keep, x));
  }

  /** The choice does not depend on the order the images come in. */
  lemma ChoiceIsOrderFree(limits: Limits, items: seq<Item>, other: seq<Item>, keep: set<string>, x: Item)
    requires DistinctAges(items) && multiset(items) == multiset(other)
    ensures x in SortOut(limits, items, keep).used <==> x in SortOut(limits, other, keep).used
  {
    SameMembers(items, other);
    DistinctAgesNoRepeats(items);
    RepeatsInPermutation(items, other);
    SortOutPartitions(limits, items, keep);
    SortOutPartitions(limits, other, keep);
    SameMembers(SortOut(limits, items, keep).used + SortOut(limits, items, keep).unused, items);
    SameMembers(SortOut(limits, other, keep).used + SortOut(limits, other, keep).unused, other);
    forall i, j | 0 <= i < j < |other| ensures Time(other[i]) != Time(other[j]) {
      if Time(other[i]) == Time(other[j]) { AgesTellApart(items, other[i], other[j]); }
    }
    if x in items {
      SortOutByMerit(limits, items, keep, x);
      SortOutByMerit(limits, other, keep, x);
      assert Members(items) == Members(other);
    }
  }
}
