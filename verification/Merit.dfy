/**
 Who is kept, as a matter of names and ages alone, and how that changes when some images are replaced:
 the arithmetic behind the question whether cleanup would drop what reconciliation fetches.
 */
module Merit {
  import opened Seqs
  import opened Retention

  /** The time by which each image, or its name, is judged. */
  type Ages<!K> = map<K, int>

  /** The names judged newer than a time. */
  function Above<K>(a: Ages<K>, t: int): set<K> {
    set y | y in a && a[y] > t
  }

  /** The names that go before `n`, were it of age `t`, when the list is filled up to the minimum. */
  function Ahead<K>(a: Ages<K>, keep: set<K>, n: K, t: int): set<K> {
    set y | y in a && y != n && (y in keep || a[y] > t)
  }

  /** Recent, and among the newest. */
  predicate Top<K>(limits: Limits, a: Ages<K>, n: K)
    requires n in a
  {
    a[n] >= limits.minTime && |Above(a, a[n])| < limits.keepMax
  }

  predicate Refills<K>(limits: Limits, a: Ages<K>, keep: set<K>, n: K)
    requires n in a
  {
    |Ahead(a, keep, n, a[n])| < limits.keepMin
  }

  /** Keep-listed, or recent and among the newest, or fewer than the minimum go before it. */
  predicate Deserves<K>(limits: Limits, a: Ages<K>, keep: set<K>, n: K)
    requires n in a
  {
    n in keep || Top(limits, a, n) || Refills(limits, a, keep, n)
  }

  /** The names that might come before `n` if ties were decided against it. */
  function AboveOrTied<K>(a: Ages<K>, n: K): set<K>
    requires n in a
  {
    set y | y in a && y != n && a[y] >= a[n]
  }

  function AheadOrTied<K>(a: Ages<K>, keep: set<K>, n: K): set<K>
    requires n in a
  {
    set y | y in a && y != n && (y in keep || a[y] >= a[n])
  }

  /** Kept however ties are decided. */
  predicate DeservesDespiteTies<K>(limits: Limits, a: Ages<K>, keep: set<K>, n: K)
    requires n in a
  {
    || n in keep
    || (a[n] >= limits.minTime && |AboveOrTied(a, n)| < limits.keepMax)
    || |AheadOrTied(a, keep, n)| < limits.keepMin
  }

  predicate Injective<K>(a: Ages<K>) {
    forall x, y :: x in a && y in a && x != y ==> a[x] != a[y]
  }

  lemma TopIsClosed<K(!new)>(limits: Limits, a: Ages<K>, n: K, y: K)
    requires n in a && y in a && a[y] >= a[n] && Top(limits, a, n)
    ensures Top(limits, a, y)
  {
    SubsetIsNoLarger(Above(a, a[y]), Above(a, a[n]));
  }

  /** Whoever is newer than a kept name that is not keep-listed is kept as well. */
  lemma KeptIsClosed<K(!new)>(limits: Limits, a: Ages<K>, keep: set<K>, n: K, y: K)
    requires n in a && y in a && a[y] >= a[n] && n !in keep && Deserves(limits, a, keep, n) && Injective(a)
    ensures Deserves(limits, a, keep, y)
  {
    if Top(limits, a, n) {
      TopIsClosed(limits, a, n, y);
    } else if y != n {
      SubsetIsNoLarger(Ahead(a, keep, y, a[y]), Ahead(a, keep, n, a[n]));
    }
  }

  /** The oldest of some names. */
  lemma {:induction false} OldestExists<K(!new)>(a: Ages<K>, s: set<K>) returns (e: K)
    requires s != {} && s <= a.Keys
    ensures e in s && forall y :: y in s ==> a[y] >= a[e]
  {
    var x :| x in s;
    e := x;
    if s != {x} {
      assert s == {x} + (s - {x});
      e := OldestExists(a, s - {x});
      if a[x] < a[e] {
        e := x;
      }
    }
  }

  // ---- Some names are given other images ----

  /**
   From `p`, what was weighed, to `c`, after the commands for `names` were carried out: the names in
   `jumpers` may have become newer, the other ones carried out are of the age weighed, and the rest are
   no newer and may be missing.
   */
  predicate Carried<K>(p: Ages<K>, c: Ages<K>, names: set<K>, jumpers: set<K>) {
    && jumpers <= names <= c.Keys <= p.Keys
    && (forall y :: y in jumpers ==> c[y] >= p[y])
    && (forall y :: y in names && y !in jumpers ==> c[y] == p[y])
    && (forall y :: y in c && y !in names ==> c[y] <= p[y])
  }

  /** All of the carried names are kept, and those that became newer would be without the keep list. */
  predicate Warranted<K>(limits: Limits, p: Ages<K>, keep: set<K>, names: set<K>, jumpers: set<K>)
    requires names <= p.Keys
  {
    && (forall y :: y in names ==> Deserves(limits, p, keep, y))
    && (forall y :: y in jumpers && y in names ==> Top(limits, p, y) || Refills(limits, p, keep, y))
  }

  lemma TopsSurvive<K(!new)>(limits: Limits, p: Ages<K>, c: Ages<K>, keep: set<K>, names: set<K>, jumpers: set<K>,
                    n: K)
    requires Injective(p) && Carried(p, c, names, jumpers) && n in names && n !in keep
    requires forall y :: y in names && (y !in keep || y in jumpers) ==> Top(limits, p, y)
    ensures DeservesDespiteTies(limits, c, keep, n)
  {
    var s := AboveOrTied(c, n) + {n};
    forall y | y in s ensures y in p && Top(limits, p, y) {
      if !(y in names && (y !in keep || y in jumpers)) {
        assert p[y] >= c[y] >= c[n] >= p[n];
        TopIsClosed(limits, p, n, y);
      }
    }
    var e := OldestExists(p, s);
    forall y | y in s - {e} ensures y in Above(p, p[e]) {
      assert p[y] != p[e];
    }
    SubsetIsNoLarger(s - {e}, Above(p, p[e]));
    assert |s - {e}| == |s| - 1 == |AboveOrTied(c, n)|;
  }

  /** Those that might come before `n` afterwards, and `n`, are all keep-listed or kept. */
  lemma CompanyIsKept<K(!new)>(limits: Limits, p: Ages<K>, c: Ages<K>, keep: set<K>, names: set<K>, jumpers: set<K>,
                      n: K, y: K)
    requires Injective(p) && Carried(p, c, names, jumpers) && Warranted(limits, p, keep, names, jumpers)
    requires n in names && n !in keep && y in AheadOrTied(c, keep, n) + {n}
    ensures y in p && Deserves(limits, p, keep, y)
  {
    if y !in names && y !in keep {
      assert p[y] >= c[y] >= c[n] >= p[n];
      KeptIsClosed(limits, p, keep, n, y);
    }
  }

  lemma RefillsSurvive<K(!new)>(limits: Limits, p: Ages<K>, c: Ages<K>, keep: set<K>, names: set<K>, jumpers: set<K>,
                       n: K, z: K)
    requires Injective(p) && Carried(p, c, names, jumpers) && Warranted(limits, p, keep, names, jumpers)
    requires n in names && n !in keep
    requires z in names && !Top(limits, p, z) && Refills(limits, p, keep, z)
    ensures DeservesDespiteTies(limits, c, keep, n)
  {
    var s := AheadOrTied(c, keep, n) + {n};
    forall y | y in s ensures y in p && Deserves(limits, p, keep, y) {
      CompanyIsKept(limits, p, c, keep, names, jumpers, n, y);
    }
    var unlisted := set y | y in s && y !in keep;
    assert n in unlisted;
    var e := OldestExists(p, unlisted);
    var f := if Refills(limits, p, keep, e) then e else z;
    assert p[f] <= p[e] by {
      if p[z] > p[e] && f == z {
        TopIsClosed(limits, p, e, z);
      }
    }
    forall y | y in s - {f} ensures y in Ahead(p, keep, f, p[f]) {
      if y !in keep {
        assert y in unlisted && p[y] != p[f];
      }
    }
    SubsetIsNoLarger(s - {f}, Ahead(p, keep, f, p[f]));
    assert |s| == |AheadOrTied(c, keep, n)| + 1;
    assert f in s ==> |s - {f}| == |s| - 1;
    assert f !in s ==> s - {f} == s;
  }

  /** Whatever part of the commands is carried out, the names it concerns are still kept. */
  lemma CarriedSurvive<K(!new)>(limits: Limits, p: Ages<K>, c: Ages<K>, keep: set<K>, names: set<K>, jumpers: set<K>,
                       n: K)
    requires Injective(p) && Carried(p, c, names, jumpers) && Warranted(limits, p, keep, names, jumpers)
    requires n in names
    ensures DeservesDespiteTies(limits, c, keep, n)
  {
    if n !in keep {
      if z :| z in names && (z !in keep || z in jumpers) && !Top(limits, p, z) {
        RefillsSurvive(limits, p, c, keep, names, jumpers, n, z);
      } else {
        TopsSurvive(limits, p, c, keep, names, jumpers, n);
      }
    }
  }

  // ---- Exactly when, for all the commands together ----

  /** The names that were no newer than `t` when weighed and are newer afterwards. */
  function Leapt<K>(p: Ages<K>, c: Ages<K>, t: int): set<K> {
    set y | y in c && y in p && p[y] <= t < c[y]
  }

  /** Every name that is kept is there afterwards, and no older. */
  predicate Complete<K>(limits: Limits, p: Ages<K>, c: Ages<K>, keep: set<K>) {
    forall y :: y in p && Deserves(limits, p, keep, y) ==> y in c && c[y] >= p[y]
  }

  lemma AfterAll<K(!new)>(limits: Limits, p: Ages<K>, c: Ages<K>, keep: set<K>, names: set<K>, jumpers: set<K>, n: K)
    requires Injective(p) && Carried(p, c, names, jumpers) && Complete(limits, p, c, keep)
    requires n in names && n !in keep && Deserves(limits, p, keep, n)
    ensures Above(c, c[n]) == Above(p, c[n]) + Leapt(p, c, c[n])
    ensures Ahead(c, keep, n, c[n]) == Ahead(p, keep, n, c[n]) + Leapt(p, c, c[n])
  {
    var t := c[n];
    assert t >= p[n];
    forall y | y in p && p[y] > t ensures y in c && c[y] > t {
      KeptIsClosed(limits, p, keep, n, y);
    }
    forall y | y in p && y in keep ensures y in c {
      assert Deserves(limits, p, keep, y);
    }
  }

  /**
   Once all the commands are carried out, `n` is kept exactly when there is room for those above it when
   weighed together with those that leapt over it.
   */
  lemma SurvivesExactly<K(!new)>(limits: Limits, p: Ages<K>, c: Ages<K>, keep: set<K>, names: set<K>, jumpers: set<K>,
                        n: K)
    requires Injective(p) && Carried(p, c, names, jumpers) && Complete(limits, p, c, keep)
    requires n in names && n !in keep && Deserves(limits, p, keep, n)
    ensures Deserves(limits, c, keep, n)
            <==> || (c[n] >= limits.minTime && |Above(p, c[n])| + |Leapt(p, c, c[n])| < limits.keepMax)
                 || |Ahead(p, keep, n, c[n]) + Leapt(p, c, c[n])| < limits.keepMin
  {
    AfterAll(limits, p, c, keep, names, jumpers, n);
    assert Above(p, c[n]) !! Leapt(p, c, c[n]);
  }

  /** Fewer images, or older ones, beside `n` can only help it. */
  lemma FewerAndOlder<K(!new)>(limits: Limits, c: Ages<K>, d: Ages<K>, keep: set<K>, n: K)
    requires d.Keys <= c.Keys && (forall y :: y in d ==> d[y] <= c[y])
    requires n in d && d[n] == c[n] && Deserves(limits, c, keep, n)
    ensures Deserves(limits, d, keep, n)
  {
    SubsetIsNoLarger(Above(d, d[n]), Above(c, c[n]));
    SubsetIsNoLarger(Ahead(d, keep, n, d[n]), Ahead(c, keep, n, c[n]));
  }
}
