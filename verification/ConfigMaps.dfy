/**
 Which machine is configured for which directories, and the inverse index kept beside it
 (src/daemon/peers/two_way_map.rs).
 */
module ConfigMaps {
  import opened Wrappers

  type Machine = nat
  type VPath = string
  type Hash = nat

  datatype HostInfo = HostInfo(hash: Hash, configs: set<VPath>)

  /** The hash of a set of directories has no collisions. */
  ghost predicate Injective(hash: set<VPath> -> Hash) {
    forall a, b :: hash(a) == hash(b) ==> a == b
  }

  // ---- The inverse of a configuration ----

  /** Exactly the machines configured for each directory, and no entry for a directory without any. */
  ghost predicate IsInverse(backward: map<VPath, set<Machine>>, configs: map<Machine, set<VPath>>) {
    && (forall d, m :: d in backward && m in backward[d] ==> m in configs && d in configs[m])
    && (forall m, d :: m in configs && d in configs[m] ==> d in backward && m in backward[d])
    && (forall d :: d in backward ==> backward[d] != {})
  }

  lemma InversesAgree(a: map<VPath, set<Machine>>, b: map<VPath, set<Machine>>, configs: map<Machine, set<VPath>>,
                      d: VPath)
    requires IsInverse(a, configs) && IsInverse(b, configs) && d in a
    ensures d in b && a[d] <= b[d]
  {
    forall m | m in a[d] ensures d in b && m in b[d] {
      assert m in configs && d in configs[m];
    }
    var m :| m in a[d];
  }

  /** There is only one inverse, so an index maintained step by step is the one built from scratch. */
  lemma InverseIsUnique(a: map<VPath, set<Machine>>, b: map<VPath, set<Machine>>, configs: map<Machine, set<VPath>>)
    requires IsInverse(a, configs) && IsInverse(b, configs)
    ensures a == b
  {
    forall d | d in a ensures d in b && a[d] <= b[d] {
      InversesAgree(a, b, configs, d);
    }
    forall d | d in b ensures d in a && b[d] <= a[d] {
      InversesAgree(b, a, configs, d);
    }
    assert a.Keys == b.Keys;
    forall d | d in a ensures a[d] == b[d] {
    }
  }

  /** An index that is right for every other machine, and lists `machine` exactly under `there`. */
  ghost predicate Between(backward: map<VPath, set<Machine>>, configs: map<Machine, set<VPath>>, machine: Machine,
                          there: set<VPath>) {
    && (forall d, m :: d in backward && m in backward[d] && m != machine ==> m in configs && d in configs[m])
    && (forall m, d :: m in configs && d in configs[m] && m != machine ==> d in backward && m in backward[d])
    && (forall d :: d in backward && machine in backward[d] ==> d in there)
    && (forall d :: d in there ==> d in backward && machine in backward[d])
    && (forall d :: d in backward ==> backward[d] != {})
  }

  lemma InverseBetween(backward: map<VPath, set<Machine>>, configs: map<Machine, set<VPath>>, machine: Machine)
    requires IsInverse(backward, configs)
    ensures Between(backward, configs, machine, if machine in configs then configs[machine] else {})
  {
  }

  lemma BetweenInverse(backward: map<VPath, set<Machine>>, configs: map<Machine, set<VPath>>, machine: Machine,
                       there: set<VPath>)
    requires Between(backward, configs, machine, there)
    ensures IsInverse(backward, configs[machine := there])
  {
    var after := configs[machine := there];
    forall m, d | m in after && d in after[m] ensures d in backward && m in backward[d] {
      if m != machine {
        assert m in configs && d in configs[m];
      }
    }
  }

  /** The entry of one directory with a machine added or taken out, and without the entry when it is empty. */
  function Added(backward: map<VPath, set<Machine>>, d: VPath, m: Machine): map<VPath, set<Machine>> {
    backward[d := (if d in backward then backward[d] else {}) + {m}]
  }

  function Removed(backward: map<VPath, set<Machine>>, d: VPath, m: Machine): map<VPath, set<Machine>>
    requires d in backward
  {
    if backward[d] - {m} == {} then backward - {d} else backward[d := backward[d] - {m}]
  }

  lemma AddedBetween(backward: map<VPath, set<Machine>>, configs: map<Machine, set<VPath>>, machine: Machine,
                     there: set<VPath>, d: VPath)
    requires Between(backward, configs, machine, there)
    ensures Between(Added(backward, d, machine), configs, machine, there + {d})
  {
    var after := Added(backward, d, machine);
    forall x, m | x in after && m in after[x] && m != machine ensures m in configs && x in configs[m] {
      assert x in backward && m in backward[x];
    }
  }

  lemma RemovedBetween(backward: map<VPath, set<Machine>>, configs: map<Machine, set<VPath>>, machine: Machine,
                       there: set<VPath>, d: VPath)
    requires Between(backward, configs, machine, there) && d in there
    ensures d in backward && Between(Removed(backward, d, machine), configs, machine, there - {d})
  {
    var after := Removed(backward, d, machine);
    forall x, m | x in after && m in after[x] && m != machine ensures m in configs && x in configs[m] {
      assert x in backward && m in backward[x];
    }
    forall m, x | m in configs && x in configs[m] && m != machine ensures x in after && m in after[x] {
      assert x in backward && m in backward[x];
      if x == d {
        assert m in backward[d] - {machine};
      }
    }
  }

  // ---- The object ----

  class ConfigMap {
    var forward: map<Machine, HostInfo>
    var backward: map<VPath, set<Machine>>

    /** The configuration of every machine. */
    ghost function Configs(): map<Machine, set<VPath>>
      reads this
    {
      map m | m in forward :: forward[m].configs
    }

    ghost predicate Valid(hash: set<VPath> -> Hash)
      reads this
    {
      && (forall m :: m in forward ==> forward[m].hash == hash(forward[m].configs))
      && IsInverse(backward, Configs())
    }

    constructor ()
      ensures Configs() == map[] && forall hash :: Valid(hash)
    {
      forward, backward := map[], map[];
    }

    /** Every directory of `items` gets the machine. */
    method AddAll(machine: Machine, items: set<VPath>, ghost configs: map<Machine, set<VPath>>, ghost there: set<VPath>)
      requires Between(backward, configs, machine, there)
      modifies `backward
      ensures Between(backward, configs, machine, there + items)
    {
      var todo := items;
      assert there + (items - todo) == there;
      while todo != {}
        invariant todo <= items && Between(backward, configs, machine, there + (items - todo))
      {
        var item :| item in todo;
        AddedBetween(backward, configs, machine, there + (items - todo), item);
        backward := backward[item := (if item in backward then backward[item] else {}) + {machine}];
        assert there + (items - todo) + {item} == there + (items - (todo - {item}));
        todo := todo - {item};
      }
      assert there + (items - todo) == there + items;
    }

    /**
     The configuration of one machine is replaced. The branch the source marks unreachable is: a directory
     the machine was configured for always has an entry.
     */
    method Set(hash: set<VPath> -> Hash, machine: Machine, configs: set<VPath>)
      requires Injective(hash) && Valid(hash)
      modifies this
      ensures Valid(hash) && Configs() == old(Configs())[machine := configs]
    {
      ghost var before := Configs();
      InverseBetween(backward, before, machine);
      if machine !in forward {
        AddAll(machine, configs, before, {});
        assert {} + configs == configs;
        BetweenInverse(backward, before, machine, configs);
        forward := forward[machine := HostInfo(hash(configs), configs)];
        assert Configs() == before[machine := configs];
      } else if forward[machine].hash == hash(configs) {
        assert hash(forward[machine].configs) == hash(configs);
        assert forward[machine].configs == configs && before[machine] == configs;
        assert before == before[machine := configs];
      } else {
        var stale := forward[machine].configs;
        var todo, there := stale, stale;
        while todo != {}
          invariant forward == old(forward) && todo <= stale && there == todo + stale * configs
          invariant Between(backward, before, machine, there)
        {
          var vpath :| vpath in todo;
          if vpath !in configs {
            RemovedBetween(backward, before, machine, there, vpath);
            if vpath !in backward {
              assert false;
            } else {
              var machines := backward[vpath] - {machine};
              backward := if machines == {} then backward - {vpath} else backward[vpath := machines];
            }
            there := there - {vpath};
          }
          todo := todo - {vpath};
        }
        AddAll(machine, configs, before, there);
        assert there + configs == configs;
        BetweenInverse(backward, before, machine, configs);
        forward := forward[machine := HostInfo(hash(configs), configs)];
        assert Configs() == before[machine := configs];
      }
    }

    method Get(host: Machine) returns (r: Option<HostInfo>)
      ensures r.Some? <==> host in Configs()
      ensures r.Some? ==> r.value == forward[host] && r.value.configs == Configs()[host]
    {
      if host in forward {
        return Some(forward[host]);
      }
      return None;
    }

    /** The machines configured for a directory; `None` exactly when there are none. */
    method ByDir(ghost hash: set<VPath> -> Hash, dir: VPath) returns (r: Option<set<Machine>>)
      requires Valid(hash)
      ensures r.Some? <==> exists m :: m in Configs() && dir in Configs()[m]
      ensures r.Some? ==> r.value == set m | m in Configs() && dir in Configs()[m]
    {
      if dir in backward {
        ghost var m :| m in backward[dir];
        assert m in Configs() && dir in Configs()[m];
        return Some(backward[dir]);
      }
      return None;
    }
  }

  // ---- Any sequence of calls ----

  /** The last configuration set for each machine. */
  function Latest(calls: seq<(Machine, set<VPath>)>): map<Machine, set<VPath>>
    decreases |calls|
  {
    if calls == [] then map[]
    else Latest(calls[..|calls| - 1])[calls[|calls| - 1].0 := calls[|calls| - 1].1]
  }

  /** It is that of the last call that names the machine. */
  lemma {:induction false} LatestIsLast(calls: seq<(Machine, set<VPath>)>, k: nat)
    requires k < |calls| && forall i :: k < i < |calls| ==> calls[i].0 != calls[k].0
    ensures calls[k].0 in Latest(calls) && Latest(calls)[calls[k].0] == calls[k].1
    decreases |calls|
  {
    if k < |calls| - 1 {
      LatestIsLast(calls[..|calls| - 1], k);
    }
  }

  lemma {:induction false} LatestWasSet(calls: seq<(Machine, set<VPath>)>, m: Machine)
    requires m in Latest(calls)
    ensures exists k :: 0 <= k < |calls| && calls[k].0 == m
    decreases |calls|
  {
    if calls[|calls| - 1].0 != m {
      LatestWasSet(calls[..|calls| - 1], m);
      var k :| 0 <= k < |calls| - 1 && calls[..|calls| - 1][k].0 == m;
      assert calls[k].0 == m;
    }
  }

  /** After any calls the index answers for the last configuration of every machine. */
  method Replay(hash: set<VPath> -> Hash, calls: seq<(Machine, set<VPath>)>, dir: VPath)
    returns (r: Option<set<Machine>>)
    requires Injective(hash)
    ensures r.Some? <==> exists m :: m in Latest(calls) && dir in Latest(calls)[m]
    ensures r.Some? ==> r.value == set m | m in Latest(calls) && dir in Latest(calls)[m]
  {
    var configMap := new ConfigMap();
    for n := 0 to |calls|
      invariant fresh(configMap) && configMap.Valid(hash) && configMap.Configs() == Latest(calls[..n])
    {
      assert calls[..n + 1][..n] == calls[..n];
      configMap.Set(hash, calls[n].0, calls[n].1);
    }
    assert calls[..|calls|] == calls;
    r := configMap.ByDir(hash, dir);
    assert configMap.Configs() == Latest(calls);
  }
}
