/** What deregistration does to the pools, how it undoes registration, and what keeps the ports of
    a pool uniform when machines come and go. */
module Deregistration {
  import opened Calls
  import opened LoadBalancers
  import Registration

  /******* One pool *******/

  lemma {:induction false} RemoveIdMembers(members: seq<Member>, id: nat)
    ensures forall m :: m in RemoveId(members, id) <==> m in members && m.id != id
  {
    if members != [] {
      RemoveIdMembers(members[1..], id);
      assert forall m :: m in members <==> m == members[0] || m in members[1..];
    }
  }

  lemma {:induction false} WithoutMembers(members: seq<Member>, ip: string)
    ensures forall m :: m in Without(members, ip) <==> m in members && m.target != Address(ip)
    ensures !Has(members, ip) ==> Without(members, ip) == members
  {
    if members != [] {
      WithoutMembers(members[1..], ip);
      assert forall m :: m in members <==> m == members[0] || m in members[1..];
      if !Has(members, ip) {
        assert members[0].target != Address(ip);
        assert !Has(members[1..], ip) by {
          forall i | 0 <= i < |members[1..]| ensures members[1..][i].target != Address(ip) {
            assert members[1..][i] == members[i + 1];
          }
        }
        assert members == [members[0]] + members[1..];
      }
    }
  }

  // Removing an id that names only members with address `ip` keeps all other members.
  lemma {:induction false} RemoveIdKeepsOthers(members: seq<Member>, id: nat, ip: string)
    requires forall m :: m in members && m.id == id ==> m.target == Address(ip)
    ensures Without(RemoveId(members, id), ip) == Without(members, ip)
  {
    if members != [] {
      RemoveIdKeepsOthers(members[1..], id, ip);
      assert members[0] in members;
      if members[0].id != id {
        assert RemoveId(members, id)[1..] == RemoveId(members[1..], id);
      }
    }
  }

  // The listing and the pool agree on which member an id names.
  ghost predicate Agree(listed: seq<Member>, members: seq<Member>) {
    forall m, m' :: m in listed && m' in members && m.id == m'.id ==> m == m'
  }

  lemma {:induction false} DeleteMembersEffect(v: Vpc, key: PoolKey, listed: seq<Member>, ip: string)
    requires key in v.pools && Agree(listed, v.pools[key])
    ensures var (v', o) := DeleteMembers(v, key, listed, ip);
            && Shrank(v, v', {key}, ip)
            && (o == Done ==> forall m :: m in listed && m.target == Address(ip) ==> m !in v'.pools[key])
    decreases |listed|
  {
    if listed != [] {
      assert listed[0] in listed;
      assert forall m :: m in listed <==> m == listed[0] || m in listed[1..];
      if listed[0].target != Address(ip) {
        DeleteMembersEffect(v, key, listed[1..], ip);
      } else {
        var after := RemoveId(v.pools[key], listed[0].id);
        RemoveIdMembers(v.pools[key], listed[0].id);
        RemoveIdKeepsOthers(v.pools[key], listed[0].id, ip);
        var v1 := Consume(v).(pools := v.pools[key := after]);
        assert Shrank(v, v1, {key}, ip);
        if Answer(v.script).fault == Served {
          DeleteMembersEffect(v1, key, listed[1..], ip);
        }
      }
    }
  }

  ghost predicate NoneHave(v: Vpc, keys: set<PoolKey>, ip: string) {
    forall k :: k in keys ==> k in v.pools && !Has(v.pools[k], ip)
  }

  lemma ShrankStaysValid(v: Vpc, v': Vpc, keys: set<PoolKey>, ip: string)
    requires Shrank(v, v', keys, ip) && Valid(v)
    ensures Valid(v')
  {
  }

  lemma DeregisterPoolEffect(v: Vpc, key: PoolKey, ip: string)
    requires Valid(v)
    ensures var (v', o) := DeregisterPool(v, key, ip);
            Shrank(v, v', {key}, ip) && Valid(v') && (o == Done ==> NoneHave(v', {key}, ip))
  {
    var (v', o) := DeregisterPool(v, key, ip);
    if key in v.pools {
      assert PoolValid(v.pools[key], v.nextId);
      DeleteMembersEffect(Consume(v), key, v.pools[key], ip);
    }
    ShrankStaysValid(v, v', {key}, ip);
    if o == Done {
      forall i | 0 <= i < |v'.pools[key]| ensures v'.pools[key][i].target != Address(ip) {
        assert v'.pools[key][i] in v'.pools[key];
      }
    }
  }

  /******* One attempt *******/

  lemma ShrankTwice(v: Vpc, v1: Vpc, v2: Vpc, a: set<PoolKey>, b: set<PoolKey>, ip: string)
    requires Shrank(v, v1, a, ip) && Shrank(v1, v2, b, ip)
    ensures Shrank(v, v2, a + b, ip)
    ensures NoneHave(v1, a, ip) && NoneHave(v2, b, ip) ==> NoneHave(v2, a + b, ip)
  {
  }

  lemma {:induction false} DeregisterPoolsEffect(v: Vpc, lb: string, pools: seq<PoolRef>, ip: string)
    requires Valid(v)
    ensures var (v', o) := DeregisterPools(v, lb, pools, ip);
            && Shrank(v, v', KeysOf(lb, pools), ip) && Valid(v')
            && (o == Done ==> NoneHave(v', KeysOf(lb, pools), ip))
    decreases |pools|
  {
    if pools != [] {
      var key, rest := PoolKey(lb, pools[0].id), KeysOf(lb, pools[1..]);
      assert KeysOf(lb, pools) == {key} + rest;
      DeregisterPoolEffect(v, key, ip);
      var (v1, o) := DeregisterPool(v, key, ip);
      if o == Done {
        DeregisterPoolsEffect(v1, lb, pools[1..], ip);
        ShrankTwice(v, v1, DeregisterPools(v1, lb, pools[1..], ip).0, {key}, rest, ip);
      }
    }
  }

  /** Exactness and frame of one attempt. Whatever the outcome, only members with address `ip` are
      gone and only from pools of the listed load balancers; a success leaves none behind, the
      bootstrap pools included. */
  lemma {:induction false} DeregisterExact(v: Vpc, plan: seq<LbOptions>, ip: string)
    requires Valid(v)
    ensures var (v', o) := DeregisterAll(v, plan, ip);
            && Shrank(v, v', AllKeys(plan), ip) && Valid(v')
            && (o == Done ==> NoneHave(v', AllKeys(plan), ip))
    decreases |plan|
  {
    if plan != [] {
      var mine, rest := KeysOf(plan[0].id, plan[0].pools), AllKeys(plan[1..]);
      assert AllKeys(plan) == mine + rest;
      DeregisterPoolsEffect(v, plan[0].id, plan[0].pools, ip);
      var (v1, o) := DeregisterLb(v, plan[0], ip);
      if o == Done {
        DeregisterExact(v1, plan[1..], ip);
        ShrankTwice(v, v1, DeregisterAll(v1, plan[1..], ip).0, mine, rest, ip);
      }
    }
  }

  lemma ShrankToDeregistered(v: Vpc, v': Vpc, keys: set<PoolKey>, ip: string)
    requires Shrank(v, v', keys, ip) && NoneHave(v', keys, ip)
    ensures v'.pools == Deregistered(v.pools, keys, ip)
  {
    forall k | k in keys ensures v'.pools[k] == Without(v.pools[k], ip) {
      WithoutMembers(v'.pools[k], ip);
    }
  }

  /******* When an attempt succeeds, and where it stops *******/

  // The members of a listing that have to be deleted.
  ghost function Matches(members: seq<Member>, ip: string): nat {
    if members == [] then 0 else (if members[0].target == Address(ip) then 1 else 0) + Matches(members[1..], ip)
  }

  lemma {:induction false} DeletesExactly(v: Vpc, key: PoolKey, listed: seq<Member>, ip: string)
    requires key in v.pools
    ensures DeleteMembers(v, key, listed, ip).1 == Done <==> ServedCalls(v.script, Matches(listed, ip))
    ensures DeleteMembers(v, key, listed, ip).1 == Done ==>
              DeleteMembers(v, key, listed, ip).0.script == v.script[Matches(listed, ip)..]
    ensures DeleteMembers(v, key, listed, ip).1 != Requeue
    decreases |listed|
  {
    if listed != [] {
      if listed[0].target != Address(ip) {
        DeletesExactly(v, key, listed[1..], ip);
      } else if v.script != [] {
        var v1 := Consume(v).(pools := v.pools[key := RemoveId(v.pools[key], listed[0].id)]);
        DeletesExactly(v1, key, listed[1..], ip);
        var n := Matches(listed[1..], ip);
        assert ServedCalls(v.script, n + 1) <==> v.script[0].fault == Served && ServedCalls(v.script[1..], n) by {
          if v.script[0].fault == Served && ServedCalls(v.script[1..], n) {
            assert forall i :: 0 < i < n + 1 ==> v.script[i] == v.script[1..][i - 1];
          }
          if ServedCalls(v.script, n + 1) {
            assert forall i :: 0 <= i < n ==> v.script[1..][i] == v.script[i + 1];
          }
        }
      }
    }
  }

  /** Deregistration from one pool succeeds exactly when the pool is there and its listing and one deletion
      for each listed member with the IP are served; it makes no other calls. */
  lemma DeregisterPoolExactly(v: Vpc, key: PoolKey, ip: string)
    ensures var (v', o) := DeregisterPool(v, key, ip);
            && o != Requeue
            && (o == Done <==> key in v.pools && ServedCalls(v.script, 1 + Matches(v.pools[key], ip)))
            && (o == Done ==> v'.script == v.script[1 + Matches(v.pools[key], ip)..])
  {
    if key in v.pools && v.script != [] {
      DeletesExactly(Consume(v), key, v.pools[key], ip);
      var n := Matches(v.pools[key], ip);
      if v.script[0].fault == Served && ServedCalls(v.script[1..], n) {
        assert forall i :: 0 < i < n + 1 ==> v.script[i] == v.script[1..][i - 1];
      }
      if ServedCalls(v.script, n + 1) {
        assert forall i :: 0 <= i < n ==> v.script[1..][i] == v.script[i + 1];
      }
    }
  }

  /** An attempt succeeds only if every load balancer was listed as active and with pools. */
  lemma {:induction false} OnlyActiveBalancersCleaned(v: Vpc, plan: seq<LbOptions>, ip: string)
    ensures DeregisterAll(v, plan, ip).1 == Done ==> forall lb :: lb in plan ==> lb.state == "active" && lb.pools != []
    decreases |plan|
  {
    if plan != [] {
      OnlyActiveBalancersCleaned(DeregisterLb(v, plan[0], ip).0, plan[1..], ip);
      assert forall lb :: lb in plan <==> lb == plan[0] || lb in plan[1..];
    }
  }

  /** One that does not succeed stops where it failed: the load balancers before that one were done, and
      nothing was done after it. One that is not listed as active, or has no pools, is left alone. */
  lemma {:induction false} DeregistrationStops(v: Vpc, plan: seq<LbOptions>, ip: string) returns (i: nat)
    requires DeregisterAll(v, plan, ip).1 != Done
    ensures i < |plan| && DeregisterAll(v, plan[..i], ip).1 == Done
    ensures var v1 := DeregisterAll(v, plan[..i], ip).0;
            && DeregisterAll(v, plan, ip) == DeregisterLb(v1, plan[i], ip)
            && (plan[i].state != "active" || plan[i].pools == [] ==> DeregisterAll(v, plan, ip) == (v1, Failed))
    decreases |plan|
  {
    var (v1, o) := DeregisterLb(v, plan[0], ip);
    if o != Done {
      i := 0;
    } else {
      var j := DeregistrationStops(v1, plan[1..], ip);
      i := j + 1;
      assert plan[..i][0] == plan[0] && plan[..i][1..] == plan[1..][..j];
    }
  }

  /** The same within a load balancer. No pool is skipped. */
  lemma {:induction false} PoolsStop(v: Vpc, lb: string, pools: seq<PoolRef>, ip: string) returns (i: nat)
    requires DeregisterPools(v, lb, pools, ip).1 != Done
    ensures i < |pools| && DeregisterPools(v, lb, pools[..i], ip).1 == Done
    ensures DeregisterPools(v, lb, pools, ip)
            == DeregisterPool(DeregisterPools(v, lb, pools[..i], ip).0, PoolKey(lb, pools[i].id), ip)
    decreases |pools|
  {
    var (v1, o) := DeregisterPool(v, PoolKey(lb, pools[0].id), ip);
    if o != Done {
      i := 0;
    } else {
      var j := PoolsStop(v1, lb, pools[1..], ip);
      i := j + 1;
      assert pools[..i][0] == pools[0] && pools[..i][1..] == pools[1..][..j];
    }
  }

  /******* Schedules of attempts *******/

  function Attempts(v: Vpc, tries: seq<Registration.Attempt>, ip: string): (Vpc, Outcome) {
    if tries == [] then (v, Failed)
    else
      var n := |tries| - 1;
      var v1 := Attempts(v, tries[..n], ip).0;
      DeregisterAll(v1.(script := tries[n].script), tries[n].plan, ip)
  }

  lemma ShrankMore(v: Vpc, v': Vpc, keys: set<PoolKey>, more: set<PoolKey>, ip: string)
    requires Shrank(v, v', keys, ip) && keys <= more
    ensures Shrank(v, v', more, ip)
  {
  }

  /** A retry after any number of failed attempts, each in its own order, each stopped anywhere and each
      seeing whatever part of the pools, ends where one uninterrupted attempt would have ended, once an
      attempt that sees them all succeeds. */
  lemma {:induction false} DeregistrationRetries(v: Vpc, tries: seq<Registration.Attempt>, ip: string,
                                                 keys: set<PoolKey>)
    requires Valid(v)
    requires forall a :: a in tries ==> AllKeys(a.plan) <= keys
    ensures var (v', o) := Attempts(v, tries, ip);
            && Shrank(v, v', keys, ip) && Valid(v')
            && (o == Done && tries != [] && AllKeys(tries[|tries| - 1].plan) == keys ==>
                  v'.pools == Deregistered(v.pools, keys, ip))
  {
    if tries != [] {
      var n := |tries| - 1;
      assert tries[n] in tries;
      DeregistrationRetries(v, tries[..n], ip, keys);
      var v1 := Attempts(v, tries[..n], ip).0.(script := tries[n].script);
      DeregisterExact(v1, tries[n].plan, ip);
      var (v2, o) := DeregisterAll(v1, tries[n].plan, ip);
      ShrankMore(v1, v2, AllKeys(tries[n].plan), keys, ip);
      ShrankTwice(v, v1, v2, keys, keys, ip);
      assert keys + keys == keys;
      if o == Done && AllKeys(tries[n].plan) == keys {
        ShrankToDeregistered(v, v2, keys, ip);
      }
    }
  }

  /******* Round trip *******/

  lemma GainedThenWithout(before: seq<Member>, after: seq<Member>, ip: string)
    requires Gained(before, after, ip)
    ensures Without(after, ip) == Without(before, ip)
  {
    assert after == before + [after[|before|]];
    WithoutAppend(before, after[|before|], ip);
  }

  lemma {:induction false} WithoutAppend(members: seq<Member>, m: Member, ip: string)
    requires m.target == Address(ip)
    ensures Without(members + [m], ip) == Without(members, ip)
  {
    if members != [] {
      WithoutAppend(members[1..], m, ip);
      assert (members + [m])[1..] == members[1..] + [m];
    }
  }

  /** A successful registration followed by a successful deregistration from the same load
      balancers leaves the original members minus those with the IP, ids included; pools that did
      not hold the IP are restored exactly. */
  lemma RoundTrip(v: Vpc, plan: seq<LbOptions>, back: seq<LbOptions>, ip: string, script: seq<Reply>)
    requires Valid(v) && AllKeys(back) == AllKeys(plan)
    requires RegisterAll(v, plan, ip).1 == Done
    requires DeregisterAll(RegisterAll(v, plan, ip).0.(script := script), back, ip).1 == Done
    ensures var v2 := DeregisterAll(RegisterAll(v, plan, ip).0.(script := script), back, ip).0;
            && v2.pools == Deregistered(v.pools, AllKeys(plan), ip)
            && ((forall k :: k in v.pools ==> !Has(v.pools[k], ip)) ==> v2.pools == v.pools)
  {
    var keys := AllKeys(plan);
    Registration.RegisterExact(v, plan, ip, Targets(plan));
    var v1 := RegisterAll(v, plan, ip).0.(script := script);
    DeregisterExact(v1, back, ip);
    assert Targets(plan) <= keys;
    ShrankToDeregistered(v1, DeregisterAll(v1, back, ip).0, keys, ip);
    GrewThenWithout(v, v1, keys, ip);
  }

  lemma GrewThenWithout(v: Vpc, v1: Vpc, keys: set<PoolKey>, ip: string)
    requires Grew(v, v1, keys, ip)
    ensures Deregistered(v1.pools, keys, ip) == Deregistered(v.pools, keys, ip)
    ensures (forall k :: k in v.pools ==> !Has(v.pools[k], ip)) ==> Deregistered(v.pools, keys, ip) == v.pools
  {
    forall k | k in v.pools
      ensures Without(v1.pools[k], ip) == Without(v.pools[k], ip)
      ensures !Has(v.pools[k], ip) ==> Without(v.pools[k], ip) == v.pools[k]
    {
      if v1.pools[k] != v.pools[k] {
        GainedThenWithout(v.pools[k], v1.pools[k], ip);
      }
      WithoutMembers(v.pools[k], ip);
    }
  }

  /******* A healthy service lets an attempt through *******/

  ghost predicate ServedCalls(script: seq<Reply>, calls: nat) {
    |script| >= calls && forall i :: 0 <= i < calls ==> script[i].fault == Served
  }

  /** The calls an attempt needs at most: for each pool one listing, and one deletion per member. */
  ghost function PoolCalls(pools: map<PoolKey, seq<Member>>, lb: string, refs: seq<PoolRef>): nat {
    if refs == [] then 0
    else
      var key := PoolKey(lb, refs[0].id);
      1 + (if key in pools then |pools[key]| else 0) + PoolCalls(pools, lb, refs[1..])
  }

  ghost function PlanCalls(pools: map<PoolKey, seq<Member>>, plan: seq<LbOptions>): nat {
    if plan == [] then 0 else PoolCalls(pools, plan[0].id, plan[0].pools) + PlanCalls(pools, plan[1..])
  }

  ghost predicate NoLarger(v: Vpc, pools: map<PoolKey, seq<Member>>) {
    v.pools.Keys == pools.Keys && forall k :: k in pools ==> |v.pools[k]| <= |pools[k]|
  }

  lemma {:induction false} RemoveIdShrinks(members: seq<Member>, id: nat)
    ensures |RemoveId(members, id)| <= |members|
  {
    if members != [] {
      RemoveIdShrinks(members[1..], id);
    }
  }

  lemma {:induction false} HealthyDeletes(v: Vpc, key: PoolKey, listed: seq<Member>, ip: string, calls: nat,
                                          pools: map<PoolKey, seq<Member>>)
    requires key in v.pools && NoLarger(v, pools) && ServedCalls(v.script, |listed| + calls)
    ensures var (v', o) := DeleteMembers(v, key, listed, ip);
            o == Done && NoLarger(v', pools) && ServedCalls(v'.script, calls)
    decreases |listed|
  {
    if listed != [] {
      if listed[0].target != Address(ip) {
        HealthyDeletes(v, key, listed[1..], ip, calls, pools);
      } else {
        RemoveIdShrinks(v.pools[key], listed[0].id);
        var v1 := Consume(v).(pools := v.pools[key := RemoveId(v.pools[key], listed[0].id)]);
        HealthyDeletes(v1, key, listed[1..], ip, calls, pools);
      }
    }
  }

  lemma {:induction false} HealthyPools(v: Vpc, lb: string, refs: seq<PoolRef>, ip: string, calls: nat,
                                        pools: map<PoolKey, seq<Member>>)
    requires KeysOf(lb, refs) <= v.pools.Keys && NoLarger(v, pools)
    requires ServedCalls(v.script, PoolCalls(pools, lb, refs) + calls)
    ensures var (v', o) := DeregisterPools(v, lb, refs, ip);
            o == Done && NoLarger(v', pools) && ServedCalls(v'.script, calls)
    decreases |refs|
  {
    if refs != [] {
      var key := PoolKey(lb, refs[0].id);
      assert key in KeysOf(lb, refs) && KeysOf(lb, refs[1..]) <= KeysOf(lb, refs);
      var more := PoolCalls(pools, lb, refs[1..]) + calls;
      assert ServedCalls(Consume(v).script, |v.pools[key]| + more);
      HealthyDeletes(Consume(v), key, v.pools[key], ip, more, pools);
      HealthyPools(DeregisterPool(v, key, ip).0, lb, refs[1..], ip, calls, pools);
    }
  }

  lemma {:induction false} HealthyPlan(v: Vpc, plan: seq<LbOptions>, ip: string, pools: map<PoolKey, seq<Member>>)
    requires Registration.Reachable(v, plan) && NoLarger(v, pools) && ServedCalls(v.script, PlanCalls(pools, plan))
    ensures DeregisterAll(v, plan, ip).1 == Done
    decreases |plan|
  {
    if plan != [] {
      var lb := plan[0];
      assert lb in plan && KeysOf(lb.id, lb.pools) <= AllKeys(plan) && AllKeys(plan[1..]) <= AllKeys(plan);
      HealthyPools(v, lb.id, lb.pools, ip, PlanCalls(pools, plan[1..]), pools);
      HealthyPlan(DeregisterLb(v, lb, ip).0, plan[1..], ip, pools);
    }
  }

  /** An attempt all of whose calls are served succeeds; one listing per pool and one deletion per member
      are calls enough. */
  lemma HealthyDeregistrationSucceeds(v: Vpc, plan: seq<LbOptions>, ip: string)
    requires Registration.Reachable(v, plan) && ServedCalls(v.script, PlanCalls(v.pools, plan))
    ensures DeregisterAll(v, plan, ip).1 == Done
  {
    HealthyPlan(v, plan, ip, v.pools);
  }

  /******* Ports over the runs of any number of machines *******/

  datatype Op =
    | Register(ip: string, plan: seq<LbOptions>, script: seq<Reply>)
    | Deregister(ip: string, plan: seq<LbOptions>, script: seq<Reply>)

  function Apply(v: Vpc, op: Op): Vpc {
    match op
    case Register(ip, plan, script) => RegisterAll(v.(script := script), plan, ip).0
    case Deregister(ip, plan, script) => DeregisterAll(v.(script := script), plan, ip).0
  }

  function Run(v: Vpc, ops: seq<Op>): Vpc {
    if ops == [] then v else Apply(Run(v, ops[..|ops| - 1]), ops[|ops| - 1])
  }

  ghost predicate OnPort(members: seq<Member>, port: int) {
    forall m :: m in members && m.target.Address? ==> m.port == port
  }

  lemma {:induction false} TargetPortIs(members: seq<Member>, port: int)
    requires OnPort(members, port)
    ensures TargetPort(members) == if HasAddress(members) then port else 0
  {
    if members != [] {
      var n := |members| - 1;
      assert members[n] in members;
      if !members[n].target.Address? {
        assert forall m :: m in members[..n] ==> m in members;
        TargetPortIs(members[..n], port);
        if HasAddress(members) {
          var i :| 0 <= i < |members| && members[i].target.Address?;
          assert members[..n][i].target.Address?;
        } else {
          assert forall i :: 0 <= i < n ==> members[..n][i] == members[i];
        }
      }
    }
  }

  /** Exactly when a new member keeps the pool on its port: the pool has an address member to copy
      the port from, or the port is the default 0. */
  lemma PortKeptExactly(before: seq<Member>, after: seq<Member>, ip: string, port: int)
    requires OnPort(before, port) && Gained(before, after, ip)
    ensures OnPort(after, port) <==> HasAddress(before) || port == 0
  {
    TargetPortIs(before, port);
    var n := |before|;
    assert after == before + [after[n]];
    assert after[n] in after;
  }

  /** The failing case: the first member of an empty pool is put on port 0. */
  lemma EmptyPoolGetsPortZero(v: Vpc, key: PoolKey, ip: string)
    requires key in v.pools && v.pools[key] == [] && Registration.Healthy(v.script, 3)
    ensures RegisterPool(v, key, ip).0.pools == v.pools[key := [Member(v.nextId, Address(ip), 0)]]
  {
    assert Rest(v.script)[0] == v.script[1] && Rest(Rest(v.script))[0] == v.script[2];
    assert v.pools[key] + [Member(v.nextId, Address(ip), 0)] == [Member(v.nextId, Address(ip), 0)];
  }

  lemma ApplyKeepsPort(v: Vpc, op: Op, k: PoolKey, port: int)
    requires Valid(v) && k in v.pools && OnPort(v.pools[k], port) && HasAddress(v.pools[k])
    ensures Valid(Apply(v, op)) && k in Apply(v, op).pools && OnPort(Apply(v, op).pools[k], port)
  {
    var v1 := v.(script := op.script);
    match op
    case Register(ip, plan, _) =>
      Registration.RegisterExact(v1, plan, ip, Targets(plan));
      if Apply(v, op).pools[k] != v.pools[k] {
        PortKeptExactly(v.pools[k], Apply(v, op).pools[k], ip, port);
      }
    case Deregister(ip, plan, _) =>
      DeregisterExact(v1, plan, ip);
  }

  /** Port uniformity: while a pool keeps at least one address member, no run of registrations and
      deregistrations, by any machines and with any failures, puts a member on another port. */
  lemma {:induction false} PortsStayUniform(v: Vpc, ops: seq<Op>, k: PoolKey, port: int)
    requires Valid(v) && k in v.pools && OnPort(v.pools[k], port)
    requires forall n :: 0 <= n < |ops| ==>
               k in Run(v, ops[..n]).pools ==> HasAddress(Run(v, ops[..n]).pools[k])
    ensures Valid(Run(v, ops)) && k in Run(v, ops).pools && OnPort(Run(v, ops).pools[k], port)
  {
    if ops != [] {
      var n := |ops| - 1;
      forall i | 0 <= i < n ensures ops[..n][..i] == ops[..i] {}
      PortsStayUniform(v, ops[..n], k, port);
      assert HasAddress(Run(v, ops[..n]).pools[k]);
      ApplyKeepsPort(Run(v, ops[..n]), ops[n], k, port);
    }
  }
}
