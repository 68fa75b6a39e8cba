/** Where reconciliation comes to rest, and what the nodes of a cluster agree on then. */
module Agreement {
  import opened Signatures
  import opened Metadata
  import Retention
  import opened Reconciliation
  import opened ReconciliationProperties

  // ---- A cluster at rest ----

  /** Nobody has anything to fetch from anybody; there is no cleanup and nothing was recently deleted. */
  ghost predicate AtRest(c: Cluster) {
    forall r: Round :: Permitted(c, r) && !r.merge.autoClean && r.merge.deleted == {} ==> r.names == {}
  }

  /** `a` would take nothing for `n` from `b`: it has that image, or one signed no earlier than that one first was. */
  predicate Settled(c: Cluster, a: nat, b: nat, n: string)
    requires a in c && b in c
  {
    n in c[b] && c[b][n].signatures != [] ==>
      && n in c[a]
      && (c[a][n].image == c[b][n].image || LastSigned(c[a][n].signatures) >= c[b][n].signatures[0].timestamp)
  }

  lemma {:induction false} LastSignedIsLatest(s: seq<Entry>, t: nat)
    ensures LastSigned(s) < t <==> forall e :: e in s ==> e.timestamp < t
  {
    if s != [] {
      LastSignedIsLatest(s[1..], t);
      assert s == [s[0]] + s[1..] && s[0] in s;
    }
  }

  lemma SettledIsNotNewer(c: Cluster, a: nat, b: nat, n: string)
    requires a in c && b in c
    ensures Settled(c, a, b, n) <==> !(n in c[b] && Newer(c[a], n, c[b][n]))
  {
    if n in c[b] && c[b][n].signatures != [] && n in c[a] {
      LastSignedIsLatest(c[a][n].signatures, c[b][n].signatures[0].timestamp);
    }
  }

  /** The round in which `a` fetches `n` from `b`. */
  function FetchOne(c: Cluster, a: nat, b: nat, n: string): Round
    requires a in c && b in c
  {
    Round(a, Merge(c[a], c[b], {}, false, Retention.Limits(0, 0, 0), {}), [], {n})
  }

  lemma UnsettledFetches(c: Cluster, a: nat, b: nat, n: string)
    requires a in c && b in c && !Settled(c, a, b, n)
    ensures Permitted(c, FetchOne(c, a, b, n))
  {
    SettledIsNotNewer(c, a, b, n);
    var r := FetchOne(c, a, b, n);
    assert r.merge.remote.Items <= c[b].Items;
    assert n in Possible(r.merge);
  }

  lemma FetchIsUnsettled(c: Cluster, r: Round, n: string) returns (peer: nat)
    requires Permitted(c, r) && n in r.names
    ensures r.node in c && peer in c && !Settled(c, r.node, peer, n)
  {
    peer :| peer in c && r.merge.remote.Items <= c[peer].Items;
    assert (n, r.merge.remote[n]) in r.merge.remote.Items;
    assert c[peer][n] == r.merge.remote[n];
    SettledIsNotNewer(c, r.node, peer, n);
  }

  /** A cluster is at rest exactly when every two nodes are settled on every name. */
  lemma AtRestExactly(c: Cluster)
    ensures AtRest(c) <==> forall a, b, n :: a in c && b in c ==> Settled(c, a, b, n)
  {
    if AtRest(c) {
      forall a, b, n | a in c && b in c ensures Settled(c, a, b, n) {
        if !Settled(c, a, b, n) {
          UnsettledFetches(c, a, b, n);
        }
      }
    }
    if forall a, b, n :: a in c && b in c ==> Settled(c, a, b, n) {
      forall r: Round | Permitted(c, r) && !r.merge.autoClean && r.merge.deleted == {} ensures r.names == {} {
        if n :| n in r.names {
          var peer := FetchIsUnsettled(c, r, n);
        }
      }
    }
  }

  /** Each image was first signed no later than the other one was last signed. */
  predicate Overlap(x: State, y: State)
    requires x.signatures != [] && y.signatures != []
  {
    x.signatures[0].timestamp <= LastSigned(y.signatures) && y.signatures[0].timestamp <= LastSigned(x.signatures)
  }

  /**
   What a cluster agrees on at rest: every signed image's name is everywhere, and two nodes holding signed
   images of it stay apart exactly when the images differ and their signatures overlap in time.
   */
  lemma AgreementAtRest(c: Cluster, a: nat, b: nat, n: string)
    requires a in c && b in c && n in c[b] && c[b][n].signatures != []
    ensures AtRest(c) ==> n in c[a]
    ensures n in c[a] && c[a][n].signatures != [] ==>
              (Settled(c, a, b, n) && Settled(c, b, a, n)
               <==> c[a][n].image == c[b][n].image || Overlap(c[a][n], c[b][n]))
    ensures AtRest(c) && c[a][n].signatures != [] && !Overlap(c[a][n], c[b][n]) ==> c[a][n].image == c[b][n].image
  {
    AtRestExactly(c);
    if AtRest(c) {
      assert Settled(c, a, b, n) && Settled(c, b, a, n);
    }
  }

  /** Images signed once, at different times, cannot stay apart: at rest all nodes hold the same. */
  lemma SignedOnceAgree(c: Cluster, a: nat, b: nat, n: string)
    requires AtRest(c) && a in c && b in c && n in c[b] && |c[b][n].signatures| == 1
    requires n in c[a] ==> |c[a][n].signatures| == 1
    requires n in c[a] && c[a][n].image != c[b][n].image ==>
               c[a][n].signatures[0].timestamp != c[b][n].signatures[0].timestamp
    ensures n in c[a] && c[a][n].image == c[b][n].image
  {
    AgreementAtRest(c, a, b, n);
    SignedOnce(c[b][n].signatures);
    SignedOnce(c[a][n].signatures);
  }

  lemma SignedOnce(s: seq<Entry>)
    requires |s| == 1
    ensures LastSigned(s) == s[0].timestamp
  {
    assert s[1..] == [];
  }

  /** Two nodes that stay apart for good. */
  lemma ApartForGood()
    ensures var x, y := State(1, [Entry(1, 0), Entry(10, 0)]), State(2, [Entry(5, 0)]);
            AtRest(map[0 := map["d" := x], 1 := map["d" := y]])
  {
    var x, y := State(1, [Entry(1, 0), Entry(10, 0)]), State(2, [Entry(5, 0)]);
    var c: Cluster := map[0 := map["d" := x], 1 := map["d" := y]];
    assert x.signatures[1..] == [Entry(10, 0)] && x.signatures[1..][1..] == [] && y.signatures[1..] == [];
    assert LastSigned(x.signatures[1..]) == 10;
    AtRestExactly(c);
    forall a, b, n | a in c && b in c ensures Settled(c, a, b, n) {
    }
  }
}
