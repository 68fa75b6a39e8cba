/**
 Signature lists of an image record (src/database/signatures.rs) and the way upload requests are
 merged into them (src/daemon/metadata/upload.rs).

 A signature is its fixed-length byte string read as one big-endian number, so that the derived
 byte-wise order of the source is the numeric order here.
 */
module Signatures {
  import Seqs

  datatype Entry = Entry(timestamp: nat, signature: nat)

  /** The derived lexicographic order on entries. */
  predicate Less(a: Entry, b: Entry) {
    a.timestamp < b.timestamp || (a.timestamp == b.timestamp && a.signature < b.signature)
  }

  predicate Sorted(s: seq<Entry>) {
    forall i, j :: 0 <= i < j < |s| ==> !Less(s[j], s[i])
  }

  /** The earliest signatures come first, and those of one moment in numeric order. */
  lemma SortedAscends(s: seq<Entry>)
    ensures Sorted(s)
            <==> forall i, j :: 0 <= i < j < |s| ==>
                                  || s[i].timestamp < s[j].timestamp
                                  || (s[i].timestamp == s[j].timestamp && s[i].signature <= s[j].signature)
  {
  }

  predicate StrictlySorted(s: seq<Entry>) {
    forall i, j :: 0 <= i < j < |s| ==> Less(s[i], s[j])
  }

  /** No entry occurs twice. */
  predicate Distinct(s: seq<Entry>) {
    forall e :: e in s ==> multiset(s)[e] == 1
  }

  function Insert(e: Entry, s: seq<Entry>): (r: seq<Entry>)
    requires Sorted(s)
    ensures Sorted(r)
    ensures multiset(r) == multiset(s) + multiset{e}
  {
    if s == [] then [e]
    else if Less(s[0], e) then
      var rest := Insert(e, s[1..]);
      assert s == [s[0]] + s[1..];
      HeadStaysFirst(s, e, rest);
      [s[0]] + rest
    else [e] + s
  }

  lemma HeadStaysFirst(s: seq<Entry>, e: Entry, rest: seq<Entry>)
    requires s != [] && Sorted(s) && Less(s[0], e) && multiset(rest) == multiset(s[1..]) + multiset{e}
    ensures forall i :: 0 <= i < |rest| ==> !Less(rest[i], s[0])
  {
    Seqs.SameMembers(rest, s[1..] + [e]);
    forall i | 0 <= i < |rest| ensures !Less(rest[i], s[0]) {
      assert rest[i] in rest;
    }
  }

  /** The library sort: on a total order its result is determined by the two postconditions. */
  function Sort(s: seq<Entry>): (r: seq<Entry>)
    ensures Sorted(r)
    ensures multiset(r) == multiset(s)
  {
    if s == [] then []
    else
      assert s == [s[0]] + s[1..];
      Insert(s[0], Sort(s[1..]))
  }

  /** The entries of `new` that the list does not hold yet, each once, in order of arrival. */
  function Missing(held: seq<Entry>, incoming: seq<Entry>): (r: seq<Entry>)
    decreases |incoming|
  {
    if incoming == [] then []
    else
      var before := Missing(held, incoming[..|incoming| - 1]);
      var e := incoming[|incoming| - 1];
      if e in held + before then before else before + [e]
  }

  function Merge(held: seq<Entry>, incoming: seq<Entry>): seq<Entry> {
    Sort(held + Missing(held, incoming))
  }

  /** `append_signatures`: look every new entry up, push the unknown ones, sort the whole list. */
  method AppendSignatures(held: seq<Entry>, incoming: seq<Entry>) returns (merged: seq<Entry>)
    ensures merged == Merge(held, incoming)
    ensures Sorted(merged)
    ensures forall e :: e in merged <==> e in held || e in incoming
    ensures Distinct(merged) <==> Distinct(held)
  {
    merged := held;
    for i := 0 to |incoming|
      invariant merged == held + Missing(held, incoming[..i])
    {
      assert incoming[..i + 1][..i] == incoming[..i];
      if incoming[i] !in merged {
        merged := merged + [incoming[i]];
      }
    }
    assert incoming[..|incoming|] == incoming;
    merged := Sort(merged);
    MergeMembers(held, incoming);
  }

  lemma SameDistinct(a: seq<Entry>, b: seq<Entry>)
    requires multiset(a) == multiset(b)
    ensures Distinct(a) <==> Distinct(b)
  {
    Seqs.SameMembers(a, b);
  }

  lemma {:induction false} MissingCounts(held: seq<Entry>, incoming: seq<Entry>)
    ensures forall e :: multiset(Missing(held, incoming))[e] == if e !in held && e in incoming then 1 else 0
    decreases |incoming|
  {
    if incoming != [] {
      var front, last := incoming[..|incoming| - 1], incoming[|incoming| - 1];
      MissingCounts(held, front);
      assert incoming == front + [last];
      assert last in Missing(held, front) <==> last in multiset(Missing(held, front));
    }
  }

  /** Merging loses no entry, adds the unknown ones once, and creates no duplicate. */
  lemma MergeMembers(held: seq<Entry>, incoming: seq<Entry>)
    ensures forall e :: e in Merge(held, incoming) <==> e in held || e in incoming
    ensures Distinct(Merge(held, incoming)) <==> Distinct(held)
  {
    var added := Missing(held, incoming);
    MissingCounts(held, incoming);
    Seqs.SameMembers(Merge(held, incoming), held + added);
    SameDistinct(Merge(held, incoming), held + added);
    forall e ensures e in added <==> e !in held && e in incoming {
      assert e in added <==> multiset(added)[e] > 0;
    }
    forall e ensures multiset(held + added)[e] == if e in held then multiset(held)[e] else multiset(added)[e] {
      assert e in held <==> e in multiset(held);
    }
    if Distinct(held + added) {
      forall e | e in held ensures multiset(held)[e] == 1 {
        assert e in held + added;
      }
    }
  }

  // ---- The list a path ends up with, over any series of accepted requests ----

  /** A sorted list is merged unless it equals the stored one. */
  function MergeUnlessEqual(current: seq<Entry>, sorted: seq<Entry>): seq<Entry> {
    if sorted != current then Merge(current, sorted) else current
  }

  /** One more request for a path whose upload is in flight. */
  function MergeRequest(current: seq<Entry>, request: seq<Entry>): seq<Entry> {
    MergeUnlessEqual(current, Sort(request))
  }

  /** The first request is stored sorted, each later one is merged into it. */
  function AcceptAll(requests: seq<seq<Entry>>): seq<Entry>
    requires requests != []
    decreases |requests|
  {
    if |requests| == 1 then Sort(requests[0])
    else MergeRequest(AcceptAll(requests[..|requests| - 1]), requests[|requests| - 1])
  }

  predicate InSome(requests: seq<seq<Entry>>, e: Entry) {
    exists i :: 0 <= i < |requests| && e in requests[i]
  }

  lemma MergeRequestMembers(current: seq<Entry>, request: seq<Entry>)
    requires Sorted(current)
    ensures Sorted(MergeRequest(current, request))
    ensures forall e :: e in MergeRequest(current, request) <==> e in current || e in request
    ensures Distinct(MergeRequest(current, request)) <==> Distinct(current)
  {
    Seqs.SameMembers(Sort(request), request);
    MergeMembers(current, Sort(request));
  }

  /** Exactly the accepted entries survive, and later requests never bring in a duplicate. */
  lemma {:induction false} AcceptAllMembers(requests: seq<seq<Entry>>)
    requires requests != []
    ensures Sorted(AcceptAll(requests))
    ensures forall e :: e in AcceptAll(requests) <==> InSome(requests, e)
    ensures Distinct(AcceptAll(requests)) <==> Distinct(requests[0])
    decreases |requests|
  {
    if |requests| == 1 {
      Seqs.SameMembers(Sort(requests[0]), requests[0]);
      SameDistinct(Sort(requests[0]), requests[0]);
    } else {
      var front, last := requests[..|requests| - 1], requests[|requests| - 1];
      AcceptAllMembers(front);
      MergeRequestMembers(AcceptAll(front), last);
      forall e ensures InSome(requests, e) <==> InSome(front, e) || e in last {
        InSomeSplit(requests, e);
      }
    }
  }

  lemma InSomeSplit(requests: seq<seq<Entry>>, e: Entry)
    requires requests != []
    ensures InSome(requests, e) <==> InSome(requests[..|requests| - 1], e) || e in requests[|requests| - 1]
  {
    var front := requests[..|requests| - 1];
    if InSome(front, e) {
      var i :| 0 <= i < |front| && e in front[i];
      assert e in requests[i];
    }
    if InSome(requests, e) && e !in requests[|requests| - 1] {
      var i :| 0 <= i < |requests| && e in requests[i];
      assert e in front[i];
    }
  }

  lemma HeadIsMember(s: seq<Entry>)
    ensures s == [] || s[0] in s
  {
  }

  /** A strictly sorted list is determined by its elements. */
  lemma {:induction false} StrictlySortedUnique(a: seq<Entry>, b: seq<Entry>)
    requires StrictlySorted(a) && StrictlySorted(b)
    requires forall e :: e in a <==> e in b
    ensures a == b
    decreases |a|
  {
    HeadIsMember(b);
    if a != [] {
      assert a[0] in b;
      assert b[0] in a;
      assert a[0] == b[0];
      forall e ensures e in a[1..] <==> e in b[1..] {
        if e in a[1..] { assert e in a && e != a[0]; }
        if e in b[1..] { assert e in b && e != b[0]; }
      }
      StrictlySortedUnique(a[1..], b[1..]);
      assert a == [a[0]] + a[1..] && b == [b[0]] + b[1..];
    }
  }

  lemma SortedDistinctIsStrict(s: seq<Entry>)
    ensures StrictlySorted(s) <==> Sorted(s) && Distinct(s)
  {
    Seqs.CountsByPosition(s);
  }

  /**
   The stored list is free of duplicates exactly when the request that opened the upload was; the
   later requests may repeat entries as they like.
   */
  lemma StrictExactlyWhenFirstDistinct(requests: seq<seq<Entry>>)
    requires requests != []
    ensures StrictlySorted(AcceptAll(requests)) <==> Distinct(requests[0])
  {
    AcceptAllMembers(requests);
    SortedDistinctIsStrict(AcceptAll(requests));
  }

  /** Any two orders, or regroupings, of the same accepted entries end in the identical list. */
  lemma AcceptanceIsOrderFree(requests: seq<seq<Entry>>, others: seq<seq<Entry>>)
    requires requests != [] && others != []
    requires Distinct(requests[0]) && Distinct(others[0])
    requires forall e :: InSome(requests, e) <==> InSome(others, e)
    ensures AcceptAll(requests) == AcceptAll(others)
  {
    AcceptAllMembers(requests);
    AcceptAllMembers(others);
    StrictExactlyWhenFirstDistinct(requests);
    StrictExactlyWhenFirstDistinct(others);
    StrictlySortedUnique(AcceptAll(requests), AcceptAll(others));
  }
}
