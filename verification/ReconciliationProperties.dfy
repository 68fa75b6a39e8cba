/** What reconciliation keeps: its choices survive cleanup, and it cannot go on replacing for ever. */
module ReconciliationProperties {
  import opened Wrappers
  import opened Seqs
  import opened Signatures
  import opened Metadata
  import Retention
  import RetentionProperties
  import Merit
  import opened Reconciliation

  // ---- The retention check and the commands ----

  /** Only names that passed the retention check are kept. */
  lemma KeptArePossible(m: Merge, order: seq<string>)
    ensures Kept(m, order) <= Possible(m).Keys
  {
    if m.autoClean {
      var items := Listing(Possible(m), order);
      ListingMembers(Possible(m), order);
      RetentionProperties.UsedAreItems(m.limits, items, m.keep);
    }
  }

  lemma {:induction false} ListingMembers(images: Images, order: seq<string>)
    ensures forall x :: x in Listing(images, order)
                        <==> x.name in order && x.name in images && x.state == images[x.name]
  {
    if order != [] {
      ListingMembers(images, order[1..]);
      assert order == [order[0]] + order[1..];
    }
  }

  /** A remote image is laid over the local one: not recently deleted, signed, and newer by every signature. */
  predicate LaidOver(m: Merge, name: string) {
    && name in m.remote && (name, m.remote[name].image) !in m.deleted && m.remote[name].signatures != []
    && (name in m.local ==>
          && m.local[name].image != m.remote[name].image
          && forall i :: 0 <= i < |m.local[name].signatures| ==>
                           m.local[name].signatures[i].timestamp < m.remote[name].signatures[0].timestamp)
  }

  /** What the retention check weighs under each name. */
  lemma WeighedUnder(m: Merge, name: string)
    ensures name in Possible(m) <==> name in m.local || LaidOver(m, name)
    ensures name in Possible(m) ==> Possible(m)[name] == if LaidOver(m, name) then m.remote[name] else m.local[name]
  {
    if name in m.local && name in m.remote && m.remote[name].signatures != [] && !Newer(m.local, name, m.remote[name])
       && m.local[name].image != m.remote[name].image {
      var e :| e in m.local[name].signatures && e.timestamp >= m.remote[name].signatures[0].timestamp;
      var i :| 0 <= i < |m.local[name].signatures| && m.local[name].signatures[i] == e;
    }
  }

  /**
   The retention check weighs the very image a command asks for exactly when that image was not
   recently deleted: the check against recent deletions comes before the overlay only.
   */
  lemma JudgedUnlessDeleted(m: Merge, order: seq<string>, name: string)
    requires Wanted(m, Kept(m, order), name)
    ensures name in Possible(m)
    ensures Possible(m)[name] == m.remote[name] <==> (name, m.remote[name].image) !in m.deleted
    ensures (name, m.remote[name].image) in m.deleted ==> name in m.local && Possible(m)[name] == m.local[name]
  {
    KeptArePossible(m, order);
  }

  lemma DeletedImageSample()
    ensures var m := Merge(map["a" := State(1, [Entry(1, 0)])], map["a" := State(2, [Entry(5, 0)])],
                           {("a", 2)}, false, Retention.Limits(1, 1, 0), {});
            Deleted(m, "a")
            && Issued(m, Kept(m, ["a"]), ["a"], Room(0)) == [Command("a", 2, Some(1), Entry(5, 0))]
  {
    var m := Merge(map["a" := State(1, [Entry(1, 0)])], map["a" := State(2, [Entry(5, 0)])],
                   {("a", 2)}, false, Retention.Limits(1, 1, 0), {});
    assert "a" in m.local && "a" in Possible(m);
    assert Wanted(m, Kept(m, ["a"]), "a");
    assert Issued(m, Kept(m, ["a"]), ["a"], 3)
           == [CommandFor(m, "a")] + Issued(m, Kept(m, ["a"]), ["a"][1..], 2);
  }

  // ---- Survival of cleanup ----

  /** Remote images that a command can ask for. */
  predicate Signed(m: Merge, names: set<string>) {
    forall n :: n in names ==> n in m.remote && m.remote[n].signatures != []
  }

  /** The local images once the commands for `names` have been carried out. */
  function Carried(m: Merge, names: set<string>): Images
    requires Signed(m, names)
  {
    map n | n in m.local.Keys + names
      :: if n in names then State(m.remote[n].image, [m.remote[n].signatures[0]]) else m.local[n]
  }

  lemma {:induction false} EarliestOfSorted(s: seq<Entry>)
    requires s != [] && Sorted(s)
    ensures Retention.Earliest(s) == s[0].timestamp
  {
    if |s| > 1 {
      EarliestOfSorted(s[1..]);
      assert !Less(s[1], s[0]);
    }
  }

  /** `Earliest` is the smallest timestamp of the list. */
  lemma {:induction false} EarliestIsLeast(s: seq<Entry>)
    requires s != []
    ensures forall e :: e in s ==> Retention.Earliest(s) <= e.timestamp
    ensures exists e :: e in s && Retention.Earliest(s) == e.timestamp
  {
    if |s| > 1 {
      EarliestIsLeast(s[1..]);
      assert s == [s[0]] + s[1..];
      assert s[0] in s;
    } else {
      assert s[0] in s;
    }
  }

  predicate SortedSignatures(images: Images) {
    forall n :: n in images ==> Sorted(images[n].signatures)
  }

  // ---- The retention check by names and ages ----

  function AgesOf(images: Images): Merit.Ages<string> {
    map n | n in images :: Retention.Earliest(images[n].signatures) as int
  }

  lemma ListingNames(images: Images, order: seq<string>)
    requires Enumerates(order, images.Keys)
    ensures RetentionProperties.UniqueNames(RetentionProperties.Members(Listing(images, order)))
    ensures forall n :: n in images ==> Retention.Item(n, images[n]) in Listing(images, order)
  {
    ListingMembers(images, order);
    forall n | n in images ensures n in order {
      assert n in (set name | name in order);
    }
  }

  lemma {:induction false} ListingNoRepeats(images: Images, order: seq<string>)
    requires NoRepeats(order)
    ensures NoRepeats(Listing(images, order))
  {
    if order != [] {
      ListingNoRepeats(images, order[1..]);
      ListingMembers(images, order[1..]);
      forall x | x in Listing(images, order[1..]) ensures x.name != order[0] {
        assert x.name in order[1..];
      }
    }
  }

  lemma DistinctAgesInjective(images: Images, order: seq<string>)
    requires Enumerates(order, images.Keys) && RetentionProperties.DistinctAges(Listing(images, order))
    ensures Merit.Injective(AgesOf(images))
  {
    ListingNames(images, order);
    var items := Listing(images, order);
    forall x, y | x in images && y in images && x != y ensures AgesOf(images)[x] != AgesOf(images)[y] {
      if AgesOf(images)[x] == AgesOf(images)[y] {
        RetentionProperties.AgesTellApart(items, Retention.Item(x, images[x]), Retention.Item(y, images[y]));
      }
    }
  }

  /** Counting items is counting their names. */
  lemma CountByName(images: Images, order: seq<string>, items: set<Retention.Item>, names: set<string>)
    requires Enumerates(order, images.Keys)
    requires items <= RetentionProperties.Members(Listing(images, order))
    requires names <= images.Keys && forall n :: n in images ==> (n in names <==> Retention.Item(n, images[n]) in items)
    ensures |items| == |names|
  {
    ListingNames(images, order);
    ListingMembers(images, order);
    RetentionProperties.NamesCount(items);
    forall n | n in names ensures n in RetentionProperties.Names(items) {
      assert Retention.Item(n, images[n]) in items;
    }
    assert RetentionProperties.Names(items) == names;
  }

  lemma NewerByName(images: Images, order: seq<string>, n: string)
    requires Enumerates(order, images.Keys) && n in images
    ensures |RetentionProperties.Newer(RetentionProperties.Members(Listing(images, order)), Retention.Item(n, images[n]))|
            == |Merit.Above(AgesOf(images), AgesOf(images)[n])|
  {
    var a, all, x := AgesOf(images), RetentionProperties.Members(Listing(images, order)), Retention.Item(n, images[n]);
    ListingNames(images, order);
    CountByName(images, order, RetentionProperties.Newer(all, x), Merit.Above(a, a[n]));
  }

  lemma AheadByName(images: Images, order: seq<string>, keep: set<string>, n: string)
    requires Enumerates(order, images.Keys) && n in images
    ensures |RetentionProperties.Ahead(RetentionProperties.Members(Listing(images, order)), keep,
                                       Retention.Item(n, images[n]))|
            == |Merit.Ahead(AgesOf(images), keep, n, AgesOf(images)[n])|
  {
    var a, all, x := AgesOf(images), RetentionProperties.Members(Listing(images, order)), Retention.Item(n, images[n]);
    ListingNames(images, order);
    CountByName(images, order, RetentionProperties.Ahead(all, keep, x), Merit.Ahead(a, keep, n, a[n]));
  }

  /** Items may be judged by their names. */
  lemma MeritByAge(limits: Retention.Limits, images: Images, order: seq<string>, keep: set<string>, n: string)
    requires Enumerates(order, images.Keys) && n in images
    ensures Retention.Item(n, images[n]) in RetentionProperties.Members(Listing(images, order))
    ensures RetentionProperties.Deserves(limits, RetentionProperties.Members(Listing(images, order)), keep,
                                         Retention.Item(n, images[n]))
            <==> Merit.Deserves(limits, AgesOf(images), keep, n)
  {
    ListingNames(images, order);
    NewerByName(images, order, n);
    AheadByName(images, order, keep, n);
    RetentionProperties.DeservesByCounts(limits, RetentionProperties.Members(Listing(images, order)), keep,
                                         Retention.Item(n, images[n]));
  }

  /** For distinct ages `sort_out` keeps exactly the deserving names. */
  lemma UsedByAge(limits: Retention.Limits, images: Images, order: seq<string>, keep: set<string>, n: string)
    requires Enumerates(order, images.Keys) && n in images
    requires RetentionProperties.DistinctAges(Listing(images, order))
    ensures Retention.Item(n, images[n]) in Retention.SortOut(limits, Listing(images, order), keep).used
            <==> Merit.Deserves(limits, AgesOf(images), keep, n)
  {
    ListingNames(images, order);
    MeritByAge(limits, images, order, keep, n);
    RetentionProperties.SortOutByMerit(limits, Listing(images, order), keep, Retention.Item(n, images[n]));
  }

  lemma NotOlderByName(images: Images, order: seq<string>, n: string)
    requires Enumerates(order, images.Keys) && n in images
    ensures Retention.Item(n, images[n]) in RetentionProperties.Members(Listing(images, order))
    ensures |RetentionProperties.NotOlder(RetentionProperties.Members(Listing(images, order)),
                                          Retention.Item(n, images[n]))|
            == |Merit.AboveOrTied(AgesOf(images), n)|
  {
    var a, all, x := AgesOf(images), RetentionProperties.Members(Listing(images, order)), Retention.Item(n, images[n]);
    ListingNames(images, order);
    CountByName(images, order, RetentionProperties.NotOlder(all, x), Merit.AboveOrTied(a, n));
  }

  lemma AheadOrTiedByName(images: Images, order: seq<string>, keep: set<string>, n: string)
    requires Enumerates(order, images.Keys) && n in images
    ensures Retention.Item(n, images[n]) in RetentionProperties.Members(Listing(images, order))
    ensures |RetentionProperties.AheadOrTied(RetentionProperties.Members(Listing(images, order)), keep,
                                             Retention.Item(n, images[n]))|
            == |Merit.AheadOrTied(AgesOf(images), keep, n)|
  {
    var a, all, x := AgesOf(images), RetentionProperties.Members(Listing(images, order)), Retention.Item(n, images[n]);
    ListingNames(images, order);
    CountByName(images, order, RetentionProperties.AheadOrTied(all, keep, x), Merit.AheadOrTied(a, keep, n));
  }

  /** Whatever the ages, it keeps those that deserve it with ties counted against them. */
  lemma UsedDespiteTies(limits: Retention.Limits, images: Images, order: seq<string>, keep: set<string>, n: string)
    requires Enumerates(order, images.Keys) && n in images
    requires Merit.DeservesDespiteTies(limits, AgesOf(images), keep, n)
    ensures Retention.Item(n, images[n]) in Retention.SortOut(limits, Listing(images, order), keep).used
  {
    var items, x := Listing(images, order), Retention.Item(n, images[n]);
    ListingNames(images, order);
    ListingNoRepeats(images, order);
    NotOlderByName(images, order, n);
    AheadOrTiedByName(images, order, keep, n);
    RetentionProperties.NotOutnumberedIsUsed(limits, items, keep, x);
  }

  // ---- Which images are asked for, on the inputs ----

  /** What is weighed for `name` deserves to be kept. */
  predicate Weighed(m: Merge, name: string) {
    && name in Possible(m)
    && (m.autoClean ==> Merit.Deserves(m.limits, AgesOf(Possible(m)), m.keep, name))
  }

  predicate Fetchable(m: Merge, name: string) {
    name in m.remote && Newer(m.local, name, m.remote[name]) && Weighed(m, name)
  }

  function Fetchables(m: Merge): set<string> {
    set n | n in m.remote && Fetchable(m, n)
  }

  lemma KeptByMerit(m: Merge, order: seq<string>, name: string)
    requires Enumerates(order, Possible(m).Keys) && name in Possible(m)
    requires m.autoClean ==> RetentionProperties.DistinctAges(Listing(Possible(m), order))
    ensures name in Kept(m, order) <==> Weighed(m, name)
  {
    if m.autoClean {
      UsedByAge(m.limits, Possible(m), order, m.keep, name);
      if name in Kept(m, order) {
        KeptItem(m, order, name);
      }
    }
  }

  /** An image is asked for exactly when it is newer and the one weighed in its place deserves to be kept. */
  lemma WantedIsFetchable(m: Merge, order: seq<string>, name: string)
    requires Enumerates(order, Possible(m).Keys)
    requires m.autoClean ==> RetentionProperties.DistinctAges(Listing(Possible(m), order))
    ensures Wanted(m, Kept(m, order), name) <==> Fetchable(m, name)
  {
    KeptArePossible(m, order);
    if name in Possible(m) {
      KeptByMerit(m, order, name);
    }
  }

  /**
   A recently deleted image is never appended, yet it still replaces a local image older than it, exactly
   when that older image is one the retention check keeps.
   */
  lemma DeletedImagesStillReplace(m: Merge, order: seq<string>, name: string)
    requires Enumerates(order, Possible(m).Keys)
    requires m.autoClean ==> RetentionProperties.DistinctAges(Listing(Possible(m), order))
    requires name in m.remote && Deleted(m, name)
    ensures Wanted(m, Kept(m, order), name)
            <==> && name in m.local && Newer(m.local, name, m.remote[name])
                 && (m.autoClean ==> Merit.Deserves(m.limits, AgesOf(Possible(m)), m.keep, name))
    ensures name in m.local ==> AgesOf(Possible(m))[name] == Retention.Earliest(m.local[name].signatures)
  {
    if name in m.local {
      KeptByMerit(m, order, name);
    } else {
      KeptArePossible(m, order);
    }
  }

  lemma KeptItem(m: Merge, order: seq<string>, n: string)
    requires m.autoClean && n in Kept(m, order) && n in Possible(m)
    ensures Retention.Item(n, Possible(m)[n])
            in Retention.SortOut(m.limits, Listing(Possible(m), order), m.keep).used
  {
    var items := Listing(Possible(m), order);
    ListingMembers(Possible(m), order);
    RetentionProperties.UsedAreItems(m.limits, items, m.keep);
    var x :| x in Retention.SortOut(m.limits, items, m.keep).used && x.name == n;
    assert x == Retention.Item(n, Possible(m)[n]);
  }

  // ---- Survival of cleanup ----

  function Jumpers(m: Merge, names: set<string>): set<string>
    requires Signed(m, names)
  {
    set n | n in names && Deleted(m, n)
  }

  lemma RemoteAge(m: Merge, n: string)
    requires SortedSignatures(m.remote) && n in m.remote && Newer(m.local, n, m.remote[n])
    ensures Retention.Earliest(m.remote[n].signatures) == m.remote[n].signatures[0].timestamp
    ensures n in m.local ==> Retention.Earliest(m.local[n].signatures) <= m.remote[n].signatures[0].timestamp
  {
    EarliestOfSorted(m.remote[n].signatures);
    if n in m.local && m.local[n].signatures != [] {
      EarliestIsLeast(m.local[n].signatures);
    }
  }

  /** Only images that were recently deleted can be newer after the commands than what was weighed. */
  lemma CarriedAges(m: Merge, names: set<string>)
    requires SortedSignatures(m.remote) && Signed(m, names) && forall n :: n in names ==> Fetchable(m, n)
    ensures Merit.Carried(AgesOf(Possible(m)), AgesOf(Carried(m, names)), names, Jumpers(m, names))
  {
    var p, c := AgesOf(Possible(m)), AgesOf(Carried(m, names));
    forall y | y in c
      ensures y in p && (y in Jumpers(m, names) ==> c[y] >= p[y])
      ensures (y in names && y !in Jumpers(m, names) ==> c[y] == p[y]) && (y !in names ==> c[y] <= p[y])
    {
      if y in m.remote && Newer(m.local, y, m.remote[y]) {
        RemoteAge(m, y);
      }
      assert y in names ==> Fetchable(m, y);
    }
  }

  /** `d` would be kept even if it were not keep-listed. */
  predicate Spared(m: Merge, d: string)
    requires d in Possible(m)
  {
    Merit.Top(m.limits, AgesOf(Possible(m)), d) || Merit.Refills(m.limits, AgesOf(Possible(m)), m.keep, d)
  }

  /**
   Images that reconciliation fetches are not ones that cleanup would drop again: once any part of
   its commands has been carried out, a cleanup at the same clock keeps every fetched image, recently
   deleted or not. The one exception is a part that takes in a recently deleted image whose local
   predecessor was kept for the sake of the keep list alone.
   */
  lemma FetchedImagesSurviveCleanup(m: Merge, order: seq<string>, names: set<string>, after: seq<string>, n: string)
    requires m.autoClean && SortedSignatures(m.remote)
    requires Enumerates(order, Possible(m).Keys)
    requires RetentionProperties.DistinctAges(Listing(Possible(m), order))
    requires Signed(m, names) && forall n :: n in names ==> Wanted(m, Kept(m, order), n)
    requires forall d :: d in names && d in Possible(m) && Deleted(m, d) && d in m.keep ==> Spared(m, d)
    requires Enumerates(after, Carried(m, names).Keys)
    requires n in names
    ensures n in Carried(m, names)
    ensures Retention.Item(n, Carried(m, names)[n])
            in Retention.SortOut(m.limits, Listing(Carried(m, names), after), m.keep).used
  {
    forall y | y in names ensures Fetchable(m, y) {
      WantedIsFetchable(m, order, y);
    }
    CarriedAges(m, names);
    DistinctAgesInjective(Possible(m), order);
    var p, c := AgesOf(Possible(m)), AgesOf(Carried(m, names));
    assert Merit.Warranted(m.limits, p, m.keep, names, Jumpers(m, names));
    Merit.CarriedSurvive(m.limits, p, c, m.keep, names, Jumpers(m, names), n);
    UsedDespiteTies(m.limits, Carried(m, names), after, m.keep, n);
  }

  /** A directory in which a recently deleted image is to replace a keep-listed one. */
  function CrowdedDirectory(): Merge {
    Merge(map["a" := State(1, [Entry(50, 0)])],
          map["a" := State(2, [Entry(200, 0)]), "c" := State(3, [Entry(150, 0)])],
          {("a", 2)}, true, Retention.Limits(0, 1, 100), {"a"})
  }

  lemma CrowdedWeighs()
    ensures var m := CrowdedDirectory();
            && Possible(m) == map["a" := State(1, [Entry(50, 0)]), "c" := State(3, [Entry(150, 0)])]
            && Fetchable(m, "a") && Fetchable(m, "c")
  {
    var m := CrowdedDirectory();
    var p := map["a" := State(1, [Entry(50, 0)]), "c" := State(3, [Entry(150, 0)])];
    assert Possible(m) == p;
    assert Merit.Above(AgesOf(p), 150) == {};
    assert Merit.Top(m.limits, AgesOf(p), "c");
  }

  lemma CrowdedAfterwards()
    ensures var m := CrowdedDirectory();
            && Signed(m, {"a", "c"})
            && Carried(m, {"a", "c"}) == map["a" := State(2, [Entry(200, 0)]), "c" := State(3, [Entry(150, 0)])]
            && !Merit.Deserves(m.limits, AgesOf(Carried(m, {"a", "c"})), m.keep, "c")
  {
    var m := CrowdedDirectory();
    var c := map["a" := State(2, [Entry(200, 0)]), "c" := State(3, [Entry(150, 0)])];
    assert Carried(m, {"a", "c"}) == c;
    assert "a" in Merit.Above(AgesOf(c), 150);
  }

  /** What keep-listing alone can do: the image fetched beside a recently deleted one is dropped again. */
  lemma KeepListedDeletionCrowdsOut()
    ensures var m, order := CrowdedDirectory(), ["a", "c"];
            && Wanted(m, Kept(m, order), "a") && Wanted(m, Kept(m, order), "c") && !Deleted(m, "c")
            && Signed(m, {"a", "c"})
            && Retention.Item("c", Carried(m, {"a", "c"})["c"])
               !in Retention.SortOut(m.limits, Listing(Carried(m, {"a", "c"}), order), m.keep).used
  {
    var m, order := CrowdedDirectory(), ["a", "c"];
    CrowdedWeighs();
    CrowdedAfterwards();
    var p, c := Possible(m), Carried(m, {"a", "c"});
    TwoImages(p["a"], p["c"]);
    TwoImages(c["a"], c["c"]);
    WantedIsFetchable(m, order, "a");
    WantedIsFetchable(m, order, "c");
    UsedByAge(m.limits, c, order, m.keep, "c");
  }

  lemma TwoImages(a: State, c: State)
    requires |a.signatures| == 1 && |c.signatures| == 1 && a.signatures[0].timestamp != c.signatures[0].timestamp
    ensures var images := map["a" := a, "c" := c];
            && Enumerates(["a", "c"], images.Keys)
            && Listing(images, ["a", "c"]) == [Retention.Item("a", a), Retention.Item("c", c)]
            && RetentionProperties.DistinctAges(Listing(images, ["a", "c"]))
  {
    var images := map["a" := a, "c" := c];
    assert ["a", "c"][1..] == ["c"] && ["c"][1..] == [];
    assert Listing(images, ["c"]) == [Retention.Item("c", c)];
    assert "a" in ["a", "c"] && ["a", "c"][1] == "c";
    assert (set name | name in ["a", "c"]) == images.Keys;
  }

  // ---- Exactly when every part is safe ----

  /** The deleted images to be fetched that leap over age `t`: weighed as no newer, and newer once fetched. */
  function LeaptOver(m: Merge, t: int): set<string> {
    set y | y in Fetchables(m) && Deleted(m, y)
            && AgesOf(Possible(m))[y] <= t < m.remote[y].signatures[0].timestamp
  }

  /** There is room for `n` beside what was weighed above it and what leaps over it. */
  predicate RoomFor(m: Merge, n: string)
    requires n in m.remote && m.remote[n].signatures != []
  {
    var t, p := m.remote[n].signatures[0].timestamp, AgesOf(Possible(m));
    || n in m.keep
    || (t >= m.limits.minTime && |Merit.Above(p, t)| + |LeaptOver(m, t)| < m.limits.keepMax)
    || |Merit.Ahead(p, m.keep, n, t) + LeaptOver(m, t)| < m.limits.keepMin
  }

  /** After the commands for `names` the image of `n` deserves to be kept. */
  predicate SurvivesIn(m: Merge, names: set<string>, n: string)
    requires Signed(m, names) && n in names
  {
    Merit.Deserves(m.limits, AgesOf(Carried(m, names)), m.keep, n)
  }

  lemma CarriedAll(m: Merge)
    requires m.autoClean && SortedSignatures(m.remote)
    ensures Signed(m, Fetchables(m))
    ensures Merit.Complete(m.limits, AgesOf(Possible(m)), AgesOf(Carried(m, Fetchables(m))), m.keep)
  {
    CarriedAges(m, Fetchables(m));
    var p, c := AgesOf(Possible(m)), AgesOf(Carried(m, Fetchables(m)));
    forall y | y in p && Merit.Deserves(m.limits, p, m.keep, y) ensures y in c && c[y] >= p[y] {
      assert Overlaid(m, y) ==> y in Fetchables(m);
    }
  }

  lemma LeaptAre(m: Merge, t: int)
    requires m.autoClean && SortedSignatures(m.remote) && Signed(m, Fetchables(m))
    ensures Merit.Leapt(AgesOf(Possible(m)), AgesOf(Carried(m, Fetchables(m))), t) == LeaptOver(m, t)
  {
    CarriedAges(m, Fetchables(m));
    var p, c := AgesOf(Possible(m)), AgesOf(Carried(m, Fetchables(m)));
    forall y | y in Merit.Leapt(p, c, t) ensures y in LeaptOver(m, t) {
      assert y in Jumpers(m, Fetchables(m));
    }
  }

  lemma PartIsOlder(m: Merge, names: set<string>, n: string)
    requires m.autoClean && SortedSignatures(m.remote) && Signed(m, Fetchables(m))
    requires names <= Fetchables(m) && n in names && SurvivesIn(m, Fetchables(m), n)
    ensures Signed(m, names) && SurvivesIn(m, names, n)
  {
    var c, d := AgesOf(Carried(m, Fetchables(m))), AgesOf(Carried(m, names));
    forall y | y in d ensures y in c && d[y] <= c[y] {
      if y in Fetchables(m) {
        RemoteAge(m, y);
      }
    }
    Merit.FewerAndOlder(m.limits, c, d, m.keep, n);
  }

  /** With all the commands carried out. */
  lemma AllSpareExactly(m: Merge, n: string)
    requires m.autoClean && SortedSignatures(m.remote) && Merit.Injective(AgesOf(Possible(m)))
    requires n in Fetchables(m)
    ensures Signed(m, Fetchables(m)) && (SurvivesIn(m, Fetchables(m), n) <==> RoomFor(m, n))
  {
    var all := Fetchables(m);
    CarriedAll(m);
    CarriedAges(m, all);
    var p, c := AgesOf(Possible(m)), AgesOf(Carried(m, all));
    LeaptAre(m, c[n]);
    if n !in m.keep {
      Merit.SurvivesExactly(m.limits, p, c, m.keep, all, Jumpers(m, all), n);
    }
  }

  /** The commands for `names` were carried out, and cleanup lists the images, of distinct ages, as `after`. */
  predicate CleanedAfter(m: Merge, names: set<string>, after: seq<string>)
    requires Signed(m, names)
  {
    && Enumerates(after, Carried(m, names).Keys)
    && RetentionProperties.DistinctAges(Listing(Carried(m, names), after))
  }

  predicate CleanupKeeps(m: Merge, names: set<string>, after: seq<string>, n: string)
    requires Signed(m, names) && n in names
  {
    Retention.Item(n, Carried(m, names)[n]) in Retention.SortOut(m.limits, Listing(Carried(m, names), after), m.keep).used
  }

  lemma CleanupByMerit(m: Merge, names: set<string>, after: seq<string>, n: string)
    requires Signed(m, names) && n in names && CleanedAfter(m, names, after)
    ensures CleanupKeeps(m, names, after, n) <==> SurvivesIn(m, names, n)
  {
    UsedByAge(m.limits, Carried(m, names), after, m.keep, n);
  }

  /**
   Cleanup keeps a fetched image after every part of the commands it is in exactly when there is room for it
   beside the recently deleted images that leap over it. `whole` is a listing after all the commands.
   */
  lemma EveryPartSparesExactly(m: Merge, n: string, whole: seq<string>)
    requires m.autoClean && SortedSignatures(m.remote) && Merit.Injective(AgesOf(Possible(m)))
    requires n in Fetchables(m) && Signed(m, Fetchables(m)) && CleanedAfter(m, Fetchables(m), whole)
    ensures (forall names, after ::
               names <= Fetchables(m) && n in names && Signed(m, names) && CleanedAfter(m, names, after) ==>
                 CleanupKeeps(m, names, after, n))
            <==> RoomFor(m, n)
  {
    var all := Fetchables(m);
    AllSpareExactly(m, n);
    CleanupByMerit(m, all, whole, n);
    if RoomFor(m, n) {
      forall names, after | names <= all && n in names && Signed(m, names) && CleanedAfter(m, names, after)
        ensures CleanupKeeps(m, names, after, n)
      {
        PartIsOlder(m, names, n);
        CleanupByMerit(m, names, after, n);
      }
    } else {
      assert !CleanupKeeps(m, all, whole, n);
    }
  }

  // ---- Throttle and order ----

  /**
   What is issued are commands for wanted names, each at most once, never more than there is room for, and each
   with the image, the image to be replaced and the signature it is to carry.
   */
  lemma {:induction false} IssuedCommands(m: Merge, kept: set<string>, newestFirst: seq<string>, room: nat)
    requires NoRepeats(newestFirst)
    ensures |Issued(m, kept, newestFirst, room)| <= room
    ensures forall c :: c in Issued(m, kept, newestFirst, room) ==>
                          c.name in newestFirst && Wanted(m, kept, c.name) && AsksFor(m, c.name, c)
    ensures forall i, j :: 0 <= i < j < |Issued(m, kept, newestFirst, room)| ==>
                             Issued(m, kept, newestFirst, room)[i].name != Issued(m, kept, newestFirst, room)[j].name
    decreases |newestFirst|
  {
    if newestFirst != [] && room > 0 {
      assert newestFirst == [newestFirst[0]] + newestFirst[1..];
      if Wanted(m, kept, newestFirst[0]) {
        IssuedCommands(m, kept, newestFirst[1..], room - 1);
        var rest := Issued(m, kept, newestFirst[1..], room - 1);
        forall i | 0 <= i < |rest| ensures rest[i].name != newestFirst[0] {
          assert rest[i] in rest;
        }
      } else {
        IssuedCommands(m, kept, newestFirst[1..], room);
      }
    }
  }

  predicate HasCommand(commands: seq<Command>, n: string) { exists c :: c in commands && c.name == n }

  lemma HasCommandCons(c: Command, commands: seq<Command>, n: string)
    ensures HasCommand([c] + commands, n) <==> c.name == n || HasCommand(commands, n)
  {
    assert c in [c] + commands;
    if HasCommand(commands, n) {
      var d :| d in commands && d.name == n;
      assert d in [c] + commands;
    }
  }

  /** The round is full, so that it need not be repeated, exactly when every wanted name has its command. */
  lemma {:induction false} FullIssuesAll(m: Merge, kept: set<string>, newestFirst: seq<string>, room: nat)
    requires NoRepeats(newestFirst)
    ensures WantedCount(m, kept, newestFirst) <= room
            <==> forall n :: n in newestFirst && Wanted(m, kept, n) ==> HasCommand(Issued(m, kept, newestFirst, room), n)
    decreases |newestFirst|
  {
    if newestFirst != [] {
      var first, rest := newestFirst[0], newestFirst[1..];
      assert newestFirst == [first] + rest && first in newestFirst;
      if !Wanted(m, kept, first) {
        FullIssuesAll(m, kept, rest, room);
      } else if room > 0 {
        FullIssuesAll(m, kept, rest, room - 1);
        forall n ensures HasCommand(Issued(m, kept, newestFirst, room), n)
                         <==> n == first || HasCommand(Issued(m, kept, rest, room - 1), n)
        {
          HasCommandCons(CommandFor(m, first), Issued(m, kept, rest, room - 1), n);
        }
      }
    }
  }

  /** A wanted name that the throttle leaves out comes after all the issued ones. */
  lemma {:induction false} IssuedComeFirst(m: Merge, kept: set<string>, newestFirst: seq<string>, room: nat, i: nat, j: nat)
    requires NoRepeats(newestFirst)
    requires i < |newestFirst| && j < |newestFirst|
    requires Wanted(m, kept, newestFirst[i]) && Wanted(m, kept, newestFirst[j])
    requires HasCommand(Issued(m, kept, newestFirst, room), newestFirst[j])
    requires !HasCommand(Issued(m, kept, newestFirst, room), newestFirst[i])
    ensures j < i
    decreases |newestFirst|
  {
    if Wanted(m, kept, newestFirst[0]) {
      HasCommandCons(CommandFor(m, newestFirst[0]), Issued(m, kept, newestFirst[1..], room - 1), newestFirst[i]);
      HasCommandCons(CommandFor(m, newestFirst[0]), Issued(m, kept, newestFirst[1..], room - 1), newestFirst[j]);
      assert i > 0;
      if j > 0 {
        IssuedComeFirst(m, kept, newestFirst[1..], room - 1, i - 1, j - 1);
      }
    } else {
      IssuedComeFirst(m, kept, newestFirst[1..], room, i - 1, j - 1);
    }
  }

  /** The throttle never prefers an image signed earlier to a wanted one signed later. */
  lemma NewestAreIssued(m: Merge, kept: set<string>, listing: seq<string>, room: nat, issued: string, skipped: string)
    requires Enumerates(listing, m.remote.Keys)
    requires Wanted(m, kept, issued) && Wanted(m, kept, skipped)
    requires HasCommand(Issued(m, kept, SortBy(listing, NewestKey(m.remote)), room), issued)
    requires !HasCommand(Issued(m, kept, SortBy(listing, NewestKey(m.remote)), room), skipped)
    ensures LastSigned(m.remote[issued].signatures) >= LastSigned(m.remote[skipped].signatures)
  {
    var names := SortBy(listing, NewestKey(m.remote));
    SortPermutes(listing, NewestKey(m.remote));
    RepeatsInPermutation(listing, names);
    assert issued in (set name | name in listing) && skipped in (set name | name in listing);
    var j :| 0 <= j < |names| && names[j] == issued;
    var i :| 0 <= i < |names| && names[i] == skipped;
    IssuedComeFirst(m, kept, names, room, i, j);
    assert NewestKey(m.remote)(names[j]) <= NewestKey(m.remote)(names[i]);
  }

  // ---- A cluster that only reconciles ----

  /** The committed images of each node in one directory. */
  type Cluster = map<nat, Images>

  /** A node carries out commands for some names it wants from another node's images. */
  datatype Round = Round(node: nat, merge: Merge, order: seq<string>, names: set<string>)

  /** The remote images a node learns of are some of those of another node. */
  predicate Permitted(c: Cluster, r: Round) {
    && r.node in c && r.merge.local == c[r.node]
    && (exists peer :: peer in c && r.merge.remote.Items <= c[peer].Items)
    && Signed(r.merge, r.names)
    && (forall n :: n in r.names ==> Wanted(r.merge, Kept(r.merge, r.order), n))
  }

  function Perform(c: Cluster, r: Round): Cluster
    requires Permitted(c, r)
  {
    c[r.node := Carried(r.merge, r.names)]
  }

  predicate Above(c: Cluster, node: nat, name: string, t: nat) {
    node in c && (name in c[node] ==> forall e :: e in c[node][name].signatures ==> e.timestamp < t)
  }

  /** The timestamps a node could still move up to, over all nodes and names. */
  function Headroom(c: Cluster, names: set<string>, times: set<nat>): set<(nat, string, nat)> {
    set node, name, t | node in c && name in names && t in times && Above(c, node, name, t) :: (node, name, t)
  }

  /** All names and timestamps of a cluster lie in two finite sets. */
  predicate Within(c: Cluster, names: set<string>, times: set<nat>) {
    forall node :: node in c ==>
      && c[node].Keys <= names
      && forall name :: name in c[node] ==> forall e :: e in c[node][name].signatures ==> e.timestamp in times
  }

  function Gone(r: Round): set<(nat, string, nat)>
    requires Signed(r.merge, r.names)
  {
    set n | n in r.names :: (r.node, n, r.merge.remote[n].signatures[0].timestamp)
  }

  /** A replacement strictly raises the timestamps the node has for the name. */
  lemma ReplacementRaises(c: Cluster, r: Round, n: string)
    requires Permitted(c, r) && n in r.names
    ensures n in Perform(c, r)[r.node]
    ensures var first := r.merge.remote[n].signatures[0];
            && Perform(c, r)[r.node][n].signatures == [first]
            && (n in c[r.node] ==> forall e :: e in c[r.node][n].signatures ==> e.timestamp < first.timestamp)
            && (n in c[r.node] ==> Perform(c, r)[r.node][n].image != c[r.node][n].image)
  {
  }

  lemma RoundStaysWithin(c: Cluster, r: Round, names: set<string>, times: set<nat>)
    requires Within(c, names, times) && Permitted(c, r)
    ensures Within(Perform(c, r), names, times)
    ensures Gone(r) <= Headroom(c, names, times)
  {
    var peer :| peer in c && r.merge.remote.Items <= c[peer].Items;
    forall n | n in r.names
      ensures n in names && r.merge.remote[n].signatures[0].timestamp in times
    {
      assert (n, r.merge.remote[n]) in r.merge.remote.Items;
      assert c[peer][n] == r.merge.remote[n];
      assert r.merge.remote[n].signatures[0] in c[peer][n].signatures;
    }
  }

  lemma {:induction false} GoneCount(r: Round, names: set<string>)
    requires Signed(r.merge, r.names)
    requires names <= r.names
    ensures |set n | n in names :: (r.node, n, r.merge.remote[n].signatures[0].timestamp)| == |names|
    decreases |names|
  {
    if names != {} {
      var n :| n in names;
      GoneCount(r, names - {n});
      var rest := set x | x in names - {n} :: (r.node, x, r.merge.remote[x].signatures[0].timestamp);
      assert (set x | x in names :: (r.node, x, r.merge.remote[x].signatures[0].timestamp))
             == rest + {(r.node, n, r.merge.remote[n].signatures[0].timestamp)};
    }
  }

  /** What is left of the headroom was there before, and was not used by the images fetched. */
  lemma HeadroomAfter(c: Cluster, r: Round, names: set<string>, times: set<nat>)
    requires Permitted(c, r)
    ensures Headroom(Perform(c, r), names, times) <= Headroom(c, names, times) - Gone(r)
  {
    forall h | h in Headroom(Perform(c, r), names, times) ensures h in Headroom(c, names, times) - Gone(r) {
      var (node, name, t) := h;
      if node == r.node && name in r.names {
        var first := r.merge.remote[name].signatures[0];
        assert Perform(c, r)[node][name].signatures == [first];
        assert first in Perform(c, r)[node][name].signatures;
      }
    }
  }

  /** Every image fetched uses up headroom. */
  lemma RoundUsesHeadroom(c: Cluster, r: Round, names: set<string>, times: set<nat>)
    requires Within(c, names, times) && Permitted(c, r)
    ensures |Headroom(Perform(c, r), names, times)| + |r.names| <= |Headroom(c, names, times)|
  {
    var before, after := Headroom(c, names, times), Headroom(Perform(c, r), names, times);
    RoundStaysWithin(c, r, names, times);
    GoneCount(r, r.names);
    HeadroomAfter(c, r, names, times);
    SubsetIsNoLarger(after, before - Gone(r));
    assert |before - Gone(r)| == |before| - |Gone(r)|;
  }

  /** A series of rounds, each possible where it happens, and how many images it fetches. */
  predicate Series(c: Cluster, rounds: seq<Round>)
    decreases |rounds|
  {
    rounds == [] || (Permitted(c, rounds[0]) && Series(Perform(c, rounds[0]), rounds[1..]))
  }

  function Fetched(rounds: seq<Round>): nat {
    if rounds == [] then 0 else |rounds[0].names| + Fetched(rounds[1..])
  }

  /**
   Without new uploads or deletions any set of nodes fetches only finitely often: over every series
   of rounds, in any order and between any nodes, the number of appends and replacements together is
   bounded by the headroom the cluster started with.
   */
  lemma {:induction false} ReconciliationIsFinite(c: Cluster, rounds: seq<Round>, names: set<string>, times: set<nat>)
    requires Within(c, names, times) && Series(c, rounds)
    ensures Fetched(rounds) <= |Headroom(c, names, times)|
    decreases |rounds|
  {
    if rounds != [] {
      RoundStaysWithin(c, rounds[0], names, times);
      RoundUsesHeadroom(c, rounds[0], names, times);
      ReconciliationIsFinite(Perform(c, rounds[0]), rounds[1..], names, times);
    }
  }
}
