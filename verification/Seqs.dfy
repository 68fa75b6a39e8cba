/** Facts about sequences, multisets and finite sets that several modules need. */
module Seqs {

  function Filter<T(!new)>(s: seq<T>, p: T -> bool): (r: seq<T>)
    ensures forall x :: x in r <==> x in s && p(x)
    ensures |r| <= |s|
  {
    if s == [] then [] else (if p(s[0]) then [s[0]] else []) + Filter(s[1..], p)
  }

  lemma {:induction false} FilterAppend<T(!new)>(a: seq<T>, b: seq<T>, p: T -> bool)
    ensures Filter(a + b, p) == Filter(a, p) + Filter(b, p)
  {
    if a == [] {
      assert a + b == b;
    } else {
      assert (a + b)[0] == a[0] && (a + b)[1..] == a[1..] + b;
      FilterAppend(a[1..], b, p);
    }
  }

  /** One more element of the prefix that has been filtered. */
  lemma FilterStep<T(!new)>(s: seq<T>, i: nat, p: T -> bool)
    requires i < |s|
    ensures Filter(s[..i + 1], p) == Filter(s[..i], p) + if p(s[i]) then [s[i]] else []
  {
    assert s[..i + 1] == s[..i] + [s[i]];
    FilterAppend(s[..i], [s[i]], p);
  }

  lemma {:induction false} FilterAll<T(!new)>(s: seq<T>, p: T -> bool)
    requires forall x :: x in s ==> p(x)
    ensures Filter(s, p) == s
  {
    if s != [] {
      FilterAll(s[1..], p);
    }
  }

  lemma {:induction false} FilterNone<T(!new)>(s: seq<T>, p: T -> bool)
    requires forall x :: x in s ==> !p(x)
    ensures Filter(s, p) == []
  {
    if s != [] {
      FilterNone(s[1..], p);
    }
  }

  lemma {:induction false} FilterCounts<T(!new)>(s: seq<T>, p: T -> bool, x: T)
    ensures multiset(Filter(s, p))[x] == if p(x) then multiset(s)[x] else 0
  {
    if s != [] {
      assert s == [s[0]] + s[1..];
      FilterCounts(s[1..], p, x);
    }
  }

  lemma FilterPermuted<T(!new)>(a: seq<T>, b: seq<T>, p: T -> bool)
    requires multiset(a) == multiset(b)
    ensures multiset(Filter(a, p)) == multiset(Filter(b, p))
    ensures |Filter(a, p)| == |Filter(b, p)|
  {
    forall x ensures multiset(Filter(a, p))[x] == multiset(Filter(b, p))[x] {
      FilterCounts(a, p, x);
      FilterCounts(b, p, x);
    }
    SameMembers(Filter(a, p), Filter(b, p));
  }

  /** Filtering by a property and by its negation splits a list. */
  lemma {:induction false} FilterSplits<T(!new)>(s: seq<T>, p: T -> bool, q: T -> bool)
    requires forall x :: x in s ==> p(x) == !q(x)
    ensures multiset(Filter(s, p)) + multiset(Filter(s, q)) == multiset(s)
    ensures |Filter(s, p)| + |Filter(s, q)| == |s|
  {
    if s != [] {
      assert s == [s[0]] + s[1..];
      FilterSplits(s[1..], p, q);
    }
  }

  lemma SameMembers<T>(a: seq<T>, b: seq<T>)
    requires multiset(a) == multiset(b)
    ensures forall x :: x in a <==> x in b
    ensures |a| == |b|
  {
    forall x ensures x in a <==> x in b {
      assert x in a <==> x in multiset(a);
      assert x in b <==> x in multiset(b);
    }
    assert |a| == |multiset(a)| && |b| == |multiset(b)|;
  }

  predicate NoRepeats<T(==)>(s: seq<T>) {
    forall i, j :: 0 <= i < j < |s| ==> s[i] != s[j]
  }

  lemma TwiceByPosition<T>(s: seq<T>, i: nat, j: nat)
    requires i < j < |s| && s[i] == s[j]
    ensures multiset(s)[s[i]] >= 2
  {
    assert s == s[..j] + s[j..];
    assert s[i] in multiset(s[..j]) by { assert s[i] == s[..j][i]; }
    assert s[i] in multiset(s[j..]) by { assert s[i] == s[j..][0]; }
  }

  lemma OnceByPosition<T>(s: seq<T>, i: nat)
    requires i < |s|
    requires forall j :: 0 <= j < |s| && j != i ==> s[j] != s[i]
    ensures multiset(s)[s[i]] == 1
  {
    assert s == s[..i] + [s[i]] + s[i + 1..];
    assert s[i] !in s[..i] && s[i] !in s[i + 1..];
  }

  /** No element occurs twice, said by position and by count. */
  lemma CountsByPosition<T>(s: seq<T>)
    ensures NoRepeats(s) <==> forall x :: x in s ==> multiset(s)[x] == 1
  {
    forall i, j | 0 <= i < j < |s| && s[i] == s[j] ensures multiset(s)[s[i]] != 1 {
      TwiceByPosition(s, i, j);
    }
    if NoRepeats(s) {
      forall x | x in s ensures multiset(s)[x] == 1 {
        var i :| 0 <= i < |s| && s[i] == x;
        OnceByPosition(s, i);
      }
    }
  }

  lemma RepeatsInPermutation<T>(a: seq<T>, b: seq<T>)
    requires multiset(a) == multiset(b) && NoRepeats(a)
    ensures NoRepeats(b)
  {
    CountsByPosition(a);
    CountsByPosition(b);
    SameMembers(a, b);
  }

  lemma FilterNoRepeats<T(!new)>(s: seq<T>, p: T -> bool)
    requires NoRepeats(s)
    ensures NoRepeats(Filter(s, p))
  {
    CountsByPosition(s);
    CountsByPosition(Filter(s, p));
    forall x | x in Filter(s, p) ensures multiset(Filter(s, p))[x] == 1 {
      FilterCounts(s, p, x);
    }
  }

  /** The two parts of a list without repeats have none either, and share nothing. */
  lemma PartsNoRepeats<T>(whole: seq<T>, a: seq<T>, b: seq<T>)
    requires NoRepeats(whole) && multiset(a) + multiset(b) == multiset(whole)
    ensures NoRepeats(a) && NoRepeats(b)
    ensures forall x :: !(x in a && x in b)
    ensures forall x :: x in whole <==> x in a || x in b
  {
    assert multiset(a + b) == multiset(whole);
    RepeatsInPermutation(whole, a + b);
    SameMembers(whole, a + b);
    assert forall i :: 0 <= i < |a| ==> (a + b)[i] == a[i];
    assert forall j :: 0 <= j < |b| ==> (a + b)[|a| + j] == b[j];
  }

  /** A list without repeats has as many members as positions. */
  lemma {:induction false} MembersOfNoRepeats<T>(s: seq<T>)
    requires NoRepeats(s)
    ensures |set x | x in s| == |s|
    decreases |s|
  {
    if s != [] {
      var front, last := s[..|s| - 1], s[|s| - 1];
      MembersOfNoRepeats(front);
      assert s == front + [last];
      assert (set x | x in s) == (set x | x in front) + {last};
    }
  }

  lemma {:induction false} SubsetIsNoLarger<T>(a: set<T>, b: set<T>)
    requires a <= b
    ensures |a| <= |b|
    decreases |a|
  {
    if a != {} {
      var x :| x in a;
      SubsetIsNoLarger(a - {x}, b - {x});
    }
  }

  // ---- A stable sort by an integer key ----

  predicate OrderedBy<T>(s: seq<T>, key: T -> int) {
    forall i, j :: 0 <= i < j < |s| ==> key(s[i]) <= key(s[j])
  }

  lemma OrderedParts<T>(a: seq<T>, b: seq<T>, key: T -> int)
    ensures OrderedBy(a + b, key)
            <==> OrderedBy(a, key) && OrderedBy(b, key) && forall x, y :: x in a && y in b ==> key(x) <= key(y)
  {
    if OrderedBy(a + b, key) {
      assert forall i :: 0 <= i < |a| ==> (a + b)[i] == a[i];
      assert forall j :: 0 <= j < |b| ==> (a + b)[|a| + j] == b[j];
    }
  }

  lemma {:induction false} OrderedFilter<T(!new)>(s: seq<T>, p: T -> bool, key: T -> int)
    requires OrderedBy(s, key)
    ensures OrderedBy(Filter(s, p), key)
  {
    if s != [] {
      assert s == [s[0]] + s[1..];
      OrderedParts([s[0]], s[1..], key);
      OrderedFilter(s[1..], p, key);
      OrderedParts([s[0]], Filter(s[1..], p), key);
    }
  }

  /** Put `x`, which came before all of `s`, in front of its equals. */
  function InsertBy<T(!new)>(x: T, s: seq<T>, key: T -> int): (r: seq<T>)
    requires OrderedBy(s, key)
    ensures OrderedBy(r, key)
    ensures |r| == |s| + 1
    ensures forall y :: y in r <==> y in s || y == x
  {
    if s == [] then [x]
    else if key(x) <= key(s[0]) then [x] + s
    else
      var rest := InsertBy(x, s[1..], key);
      assert forall i :: 0 <= i < |rest| ==> rest[i] == x || rest[i] in s[1..];
      [s[0]] + rest
  }

  function SortBy<T(!new)>(s: seq<T>, key: T -> int): (r: seq<T>)
    ensures OrderedBy(r, key)
    ensures |r| == |s|
    ensures forall y :: y in r <==> y in s
  {
    if s == [] then [] else InsertBy(s[0], SortBy(s[1..], key), key)
  }

  lemma {:induction false} InsertAddsOne<T(!new)>(x: T, s: seq<T>, key: T -> int)
    requires OrderedBy(s, key)
    ensures multiset(InsertBy(x, s, key)) == multiset(s) + multiset{x}
  {
    if s != [] && key(x) > key(s[0]) {
      InsertAddsOne(x, s[1..], key);
      assert s == [s[0]] + s[1..];
    }
  }

  lemma {:induction false} SortPermutes<T(!new)>(s: seq<T>, key: T -> int)
    ensures multiset(SortBy(s, key)) == multiset(s)
  {
    if s != [] {
      SortPermutes(s[1..], key);
      InsertAddsOne(s[0], SortBy(s[1..], key), key);
      assert s == [s[0]] + s[1..];
    }
  }

  lemma {:induction false} SortOfOrdered<T(!new)>(s: seq<T>, key: T -> int)
    requires OrderedBy(s, key)
    ensures SortBy(s, key) == s
  {
    if s != [] {
      SortOfOrdered(s[1..], key);
    }
  }

  lemma Exchange<T>(own: seq<T>, first: seq<T>, rest: seq<T>)
    requires own == [] || first == []
    ensures first + (own + rest) == own + (first + rest)
  {
  }

  lemma {:induction false} InsertKeepsClass<T(!new)>(x: T, s: seq<T>, key: T -> int, k: int, p: T -> bool)
    requires OrderedBy(s, key)
    requires forall y :: p(y) <==> key(y) == k
    ensures Filter(InsertBy(x, s, key), p) == (if p(x) then [x] else []) + Filter(s, p)
  {
    var own := if p(x) then [x] else [];
    if s == [] || key(x) <= key(s[0]) {
      assert ([x] + s)[1..] == s;
    } else {
      var first, after := if p(s[0]) then [s[0]] else [], Filter(s[1..], p);
      InsertKeepsClass(x, s[1..], key, k, p);
      assert InsertBy(x, s, key)[1..] == InsertBy(x, s[1..], key);
      assert Filter(InsertBy(x, s, key), p) == first + (own + after);
      Exchange(own, first, after);
    }
  }

  /** The sort is stable: the elements of each key stay in their order. */
  lemma {:induction false} SortIsStable<T(!new)>(s: seq<T>, key: T -> int, k: int, p: T -> bool)
    requires forall y :: p(y) <==> key(y) == k
    ensures Filter(SortBy(s, key), p) == Filter(s, p)
  {
    if s != [] {
      SortIsStable(s[1..], key, k, p);
      InsertKeepsClass(s[0], SortBy(s[1..], key), key, k, p);
    }
  }
}
