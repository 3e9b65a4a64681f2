/** What registration does to the pools: exactly which members appear, on every outcome, for every
    iteration order and over every schedule of interrupted attempts. */
module Registration {
  import opened Calls
  import opened LoadBalancers

  /******* One attempt *******/

  /** One new member is one pool fewer without the IP. */
  ghost predicate Paid(v: Vpc, v': Vpc, scope: set<PoolKey>, ip: string) {
    v'.nextId - v.nextId == |Missing(v, scope, ip)| - |Missing(v', scope, ip)|
  }

  lemma AppendedMember(members: seq<Member>, id: nat, ip: string)
    ensures var after := members + [Member(id, Address(ip), TargetPort(members))];
            Gained(members, after, ip) && Has(after, ip)
  {
  }

  lemma CreateGrows(v: Vpc, key: PoolKey, ip: string)
    requires key in v.pools && !Has(v.pools[key], ip)
    ensures var v' := CreateMember(v, key, ip, TargetPort(v.pools[key]));
            Grew(v, v', {key}, ip) && Has(v'.pools[key], ip)
  {
  }

  lemma CreateIsPaid(v: Vpc, key: PoolKey, ip: string, scope: set<PoolKey>)
    requires key in v.pools && key in scope && !Has(v.pools[key], ip)
    ensures Paid(v, CreateMember(v, key, ip, TargetPort(v.pools[key])), scope, ip)
  {
    var v' := CreateMember(v, key, ip, TargetPort(v.pools[key]));
    CreateGrows(v, key, ip);
    assert Missing(v, scope, ip) == Missing(v', scope, ip) + {key};
  }

  lemma CreateStaysValid(v: Vpc, key: PoolKey, ip: string, port: int)
    requires Valid(v) && key in v.pools
    ensures Valid(CreateMember(v, key, ip, port))
  {
  }

  /** All that is claimed of a change made by registration. */
  ghost predicate Effect(v: Vpc, v': Vpc, keys: set<PoolKey>, scope: set<PoolKey>, ip: string) {
    && Grew(v, v', keys, ip)
    && Paid(v, v', scope, ip)
    && v'.nextId >= v.nextId
    && (Valid(v) ==> Valid(v'))
  }

  ghost predicate AllHave(v: Vpc, keys: set<PoolKey>, ip: string) {
    forall k :: k in keys ==> k in v.pools && Has(v.pools[k], ip)
  }

  lemma NoEffect(v: Vpc, v': Vpc, keys: set<PoolKey>, scope: set<PoolKey>, ip: string)
    requires v'.pools == v.pools && v'.nextId == v.nextId
    ensures Effect(v, v', keys, scope, ip)
  {
  }

  lemma CreateEffect(v: Vpc, script: seq<Reply>, key: PoolKey, ip: string, scope: set<PoolKey>)
    requires key in v.pools && key in scope && !Has(v.pools[key], ip)
    ensures Effect(v, CreateMember(v.(script := script), key, ip, TargetPort(v.pools[key])), {key}, scope, ip)
  {
    var v1 := v.(script := script);
    CreateGrows(v1, key, ip);
    CreateIsPaid(v1, key, ip, scope);
    assert Missing(v1, scope, ip) == Missing(v, scope, ip);
    if Valid(v) {
      CreateStaysValid(v1, key, ip, TargetPort(v.pools[key]));
    }
  }

  // A call either leaves pools alone or creates the one missing member.
  lemma RegisterPoolCases(v: Vpc, key: PoolKey, ip: string)
    ensures var (v', o) := RegisterPool(v, key, ip);
            if v'.pools == v.pools then
              v'.nextId == v.nextId && (o == Done ==> key in v.pools && Has(v.pools[key], ip))
            else
              && key in v.pools && !Has(v.pools[key], ip)
              && v' == CreateMember(v.(script := v'.script), key, ip, TargetPort(v.pools[key]))
  {
  }

  lemma RegisterPoolEffect(v: Vpc, key: PoolKey, ip: string, scope: set<PoolKey>)
    requires key in scope
    ensures var (v', o) := RegisterPool(v, key, ip);
            Effect(v, v', {key}, scope, ip) && (o == Done ==> AllHave(v', {key}, ip))
  {
    RegisterPoolCases(v, key, ip);
    var (v', _) := RegisterPool(v, key, ip);
    if v'.pools == v.pools {
      NoEffect(v, v', {key}, scope, ip);
    } else {
      CreateEffect(v, v'.script, key, ip, scope);
      AppendedMember(v.pools[key], v.nextId, ip);
    }
  }

  lemma EffectTwice(v: Vpc, v1: Vpc, v2: Vpc, a: set<PoolKey>, b: set<PoolKey>, scope: set<PoolKey>, ip: string)
    requires Effect(v, v1, a, scope, ip) && Effect(v1, v2, b, scope, ip)
    ensures Effect(v, v2, a + b, scope, ip)
    ensures AllHave(v1, a, ip) && AllHave(v2, b, ip) ==> AllHave(v2, a + b, ip)
  {
  }

  lemma {:induction false} RegisterPoolsEffect(v: Vpc, lb: string, pools: seq<PoolRef>, ip: string, scope: set<PoolKey>)
    requires WorkKeysOf(lb, pools) <= scope
    ensures var (v', o) := RegisterPools(v, lb, pools, ip);
            && Effect(v, v', WorkKeysOf(lb, pools), scope, ip)
            && (o == Done ==> AllHave(v', WorkKeysOf(lb, pools), ip))
    decreases |pools|
  {
    if pools == [] {
      NoEffect(v, v, {}, scope, ip);
    } else if pools[0].name == BOOTSTRAP {
      RegisterPoolsEffect(v, lb, pools[1..], ip, scope);
      assert WorkKeysOf(lb, pools[1..]) == WorkKeysOf(lb, pools);
    } else {
      var key, rest := PoolKey(lb, pools[0].id), WorkKeysOf(lb, pools[1..]);
      assert WorkKeysOf(lb, pools) == {key} + rest;
      RegisterPoolEffect(v, key, ip, scope);
      var (v1, o) := RegisterPool(v, key, ip);
      if o == Done {
        RegisterPoolsEffect(v1, lb, pools[1..], ip, scope);
        EffectTwice(v, v1, RegisterPools(v1, lb, pools[1..], ip).0, {key}, rest, scope, ip);
      }
    }
  }

  /** Exactness and frame of one attempt. Whatever the outcome, only target pools that lacked the
      IP changed, each by exactly one member on the pool's port, and each created member accounts
      for one pool fewer without the IP. A successful attempt leaves no target without it. */
  lemma {:induction false} RegisterExact(v: Vpc, plan: seq<LbOptions>, ip: string, scope: set<PoolKey>)
    requires Targets(plan) <= scope
    ensures var (v', o) := RegisterAll(v, plan, ip);
            Effect(v, v', Targets(plan), scope, ip) && (o == Done ==> AllHave(v', Targets(plan), ip))
    decreases |plan|
  {
    if plan == [] {
      NoEffect(v, v, {}, scope, ip);
    } else {
      var mine, rest := WorkKeysOf(plan[0].id, plan[0].pools), Targets(plan[1..]);
      assert Targets(plan) == mine + rest;
      RegisterPoolsEffect(v, plan[0].id, plan[0].pools, ip, scope);
      NoEffect(v, v, mine, scope, ip);
      var (v1, o) := RegisterLb(v, plan[0], ip);
      if o == Done {
        RegisterExact(v1, plan[1..], ip, scope);
        EffectTwice(v, v1, RegisterAll(v1, plan[1..], ip).0, mine, rest, scope, ip);
      }
    }
  }

  /******* When a member is created *******/

  /** The port of a new member is that of the last member with an address target. */
  lemma {:induction false} TargetPortIsLast(members: seq<Member>, i: nat)
    requires i < |members| && members[i].target.Address?
    requires forall j :: i < j < |members| ==> !members[j].target.Address?
    ensures TargetPort(members) == members[i].port
  {
    if i < |members| - 1 {
      TargetPortIsLast(members[..|members| - 1], i);
    }
  }

  /** A pool changes exactly when it lacks the IP and its listing, an active status of the load
      balancer and the creation all came through, in this order; the caller learns of it unless the
      answer to the creation was lost. A status other than active asks for a requeue. A pool that has the
      IP already takes one call, and no call is made after one that decides the outcome. */
  lemma RegisterPoolExactly(v: Vpc, key: PoolKey, ip: string)
    ensures var (v', o) := RegisterPool(v, key, ip);
            var list, get, create := Answer(v.script), Answer(Rest(v.script)), Answer(Rest(Rest(v.script)));
            && (v'.pools != v.pools <==>
                  && key in v.pools && !Has(v.pools[key], ip)
                  && list.fault == Served && get == Reply(Served, "active") && create.fault != Refused)
            && (o == Requeue <==>
                  && key in v.pools && !Has(v.pools[key], ip)
                  && list.fault == Served && get.fault == Served && get.text != "active")
            && (o == Done <==>
                  && key in v.pools && list.fault == Served
                  && (Has(v.pools[key], ip) || (get == Reply(Served, "active") && create.fault == Served)))
            && v'.script ==
               (if list.fault != Served || key !in v.pools || Has(v.pools[key], ip) then Rest(v.script)
                else if get != Reply(Served, "active") then Rest(Rest(v.script))
                else Rest(Rest(Rest(v.script))))
  {
  }

  ghost predicate NeverActive(script: seq<Reply>) {
    forall r :: r in script ==> r != Reply(Served, ACTIVE)
  }

  lemma RestIsQuiet(script: seq<Reply>)
    requires NeverActive(script)
    ensures NeverActive(Rest(script)) && Answer(script) != Reply(Served, ACTIVE)
  {
    if script != [] {
      assert script[0] in script;
      assert forall r :: r in script[1..] ==> r in script;
    }
  }

  lemma QuietPool(v: Vpc, key: PoolKey, ip: string)
    requires NeverActive(v.script)
    ensures var v' := RegisterPool(v, key, ip).0; v'.pools == v.pools && NeverActive(v'.script)
  {
    RestIsQuiet(v.script);
    RestIsQuiet(Rest(v.script));
    RestIsQuiet(Rest(Rest(v.script)));
    RegisterPoolExactly(v, key, ip);
  }

  lemma {:induction false} QuietPools(v: Vpc, lb: string, pools: seq<PoolRef>, ip: string)
    requires NeverActive(v.script)
    ensures var v' := RegisterPools(v, lb, pools, ip).0; v'.pools == v.pools && NeverActive(v'.script)
    decreases |pools|
  {
    if pools != [] {
      var key := PoolKey(lb, pools[0].id);
      QuietPool(v, key, ip);
      if pools[0].name == BOOTSTRAP {
        QuietPools(v, lb, pools[1..], ip);
      } else if RegisterPool(v, key, ip).1 == Done {
        QuietPools(RegisterPool(v, key, ip).0, lb, pools[1..], ip);
      }
    }
  }

  /** No pool changes during an attempt in which no load balancer ever reports to be active, and an
      attempt succeeds only if every listing it was given was active and had pools. */
  lemma {:induction false} OnlyActiveBalancersChange(v: Vpc, plan: seq<LbOptions>, ip: string)
    ensures NeverActive(v.script) ==> RegisterAll(v, plan, ip).0.pools == v.pools
    ensures RegisterAll(v, plan, ip).1 == Done ==> forall lb :: lb in plan ==> lb.state == "active" && lb.pools != []
    decreases |plan|
  {
    if plan != [] {
      var (v1, o) := RegisterLb(v, plan[0], ip);
      if NeverActive(v.script) {
        QuietPools(v, plan[0].id, plan[0].pools, ip);
      }
      OnlyActiveBalancersChange(v1, plan[1..], ip);
      assert forall lb :: lb in plan <==> lb == plan[0] || lb in plan[1..];
    }
  }

  /** An attempt that does not succeed stops where it failed: the load balancers before that one were done,
      and nothing was done after it. One that is not listed as active, or has no pools, is left alone. */
  lemma {:induction false} RegistrationStops(v: Vpc, plan: seq<LbOptions>, ip: string) returns (i: nat)
    requires RegisterAll(v, plan, ip).1 != Done
    ensures i < |plan| && RegisterAll(v, plan[..i], ip).1 == Done
    ensures var v1 := RegisterAll(v, plan[..i], ip).0;
            && RegisterAll(v, plan, ip) == RegisterLb(v1, plan[i], ip)
            && (plan[i].state != "active" || plan[i].pools == [] ==> RegisterAll(v, plan, ip) == (v1, Failed))
    decreases |plan|
  {
    var (v1, o) := RegisterLb(v, plan[0], ip);
    if o != Done {
      i := 0;
    } else {
      var j := RegistrationStops(v1, plan[1..], ip);
      i := j + 1;
      assert plan[..i][0] == plan[0] && plan[..i][1..] == plan[1..][..j];
    }
  }

  /** The same within a load balancer: the pools before the one on which it failed were done, and those after
      it were not touched. */
  lemma {:induction false} PoolsStop(v: Vpc, lb: string, pools: seq<PoolRef>, ip: string) returns (i: nat)
    requires RegisterPools(v, lb, pools, ip).1 != Done
    ensures i < |pools| && pools[i].name != "bootstrap-node" && RegisterPools(v, lb, pools[..i], ip).1 == Done
    ensures RegisterPools(v, lb, pools, ip)
            == RegisterPool(RegisterPools(v, lb, pools[..i], ip).0, PoolKey(lb, pools[i].id), ip)
    decreases |pools|
  {
    var skip := pools[0].name == BOOTSTRAP;
    var (v1, o) := if skip then (v, Done) else RegisterPool(v, PoolKey(lb, pools[0].id), ip);
    if o != Done {
      i := 0;
    } else {
      var j := PoolsStop(v1, lb, pools[1..], ip);
      i := j + 1;
      assert pools[..i][0] == pools[0] && pools[..i][1..] == pools[1..][..j];
    }
  }

  /******* Success means the intended contents *******/

  lemma {:induction false} EraseFacts(members: seq<Member>, ip: string)
    ensures Has(Erase(members), ip) == Has(members, ip)
    ensures TargetPort(Erase(members)) == TargetPort(members)
  {
    if members != [] {
      var n := |members| - 1;
      EraseFacts(members[..n], ip);
      assert Erase(members)[..n] == Erase(members[..n]);
      forall i | 0 <= i < |members| ensures Erase(members)[i].target == members[i].target {}
    }
  }

  lemma GainedErased(before: seq<Member>, after: seq<Member>, ip: string)
    requires Gained(before, after, ip)
    ensures Erase(after) == Erase(before) + [Member(0, Address(ip), TargetPort(Erase(before)))]
  {
    EraseFacts(before, ip);
    assert after == before + [after[|before|]];
  }

  // One pool, when the IP is in it at last if it belongs there.
  lemma PoolRegistered(before: seq<Member>, after: seq<Member>, ip: string, wanted: bool)
    requires after == before || (wanted && !Has(before, ip) && Gained(before, after, ip))
    requires wanted ==> Has(after, ip)
    ensures var c := Erase(before);
            Erase(after) == if wanted && !Has(c, ip) then c + [Member(0, Address(ip), TargetPort(c))] else c
  {
    EraseFacts(before, ip);
    if after != before {
      GainedErased(before, after, ip);
    }
  }

  lemma GrewToRegistered(v: Vpc, v': Vpc, keys: set<PoolKey>, ip: string)
    requires Grew(v, v', keys, ip) && AllHave(v', keys, ip)
    ensures Contents(v') == Registered(Contents(v), keys, ip)
  {
    var want := Registered(Contents(v), keys, ip);
    forall k | k in v.pools ensures Contents(v')[k] == want[k] {
      PoolRegistered(v.pools[k], v'.pools[k], ip, k in keys);
    }
    assert Contents(v').Keys == want.Keys;
  }

  /** Every successful attempt, in any iteration order, yields the intended contents. */
  lemma RegisterMeetsIntent(v: Vpc, plan: seq<LbOptions>, ip: string)
    ensures var (v', o) := RegisterAll(v, plan, ip);
            o == Done ==> Contents(v') == Registered(Contents(v), Targets(plan), ip)
  {
    RegisterExact(v, plan, ip, Targets(plan));
    var (v', o) := RegisterAll(v, plan, ip);
    if o == Done {
      GrewToRegistered(v, v', Targets(plan), ip);
    }
  }

  /******* Schedules of attempts *******/

  /** One reconcile: the order in which the map was walked, and the answers it met. */
  datatype Attempt = Attempt(plan: seq<LbOptions>, script: seq<Reply>)

  function Attempts(v: Vpc, tries: seq<Attempt>, ip: string): (Vpc, Outcome) {
    if tries == [] then (v, Failed)
    else
      var n := |tries| - 1;
      var v1 := Attempts(v, tries[..n], ip).0;
      RegisterAll(v1.(script := tries[n].script), tries[n].plan, ip)
  }

  // No attempt goes beyond these pools; the last one sees them all.
  ghost predicate TargetsWithin(tries: seq<Attempt>, keys: set<PoolKey>) {
    forall a :: a in tries ==> Targets(a.plan) <= keys
  }

  ghost predicate LastSees(tries: seq<Attempt>, keys: set<PoolKey>) {
    tries != [] && Targets(tries[|tries| - 1].plan) == keys
  }

  lemma EffectWithin(v: Vpc, v': Vpc, some: set<PoolKey>, keys: set<PoolKey>, ip: string)
    requires Effect(v, v', some, keys, ip) && some <= keys
    ensures Effect(v, v', keys, keys, ip)
  {
  }

  lemma AttemptEffect(v: Vpc, a: Attempt, ip: string, keys: set<PoolKey>)
    requires Targets(a.plan) <= keys
    ensures var (v', o) := RegisterAll(v.(script := a.script), a.plan, ip);
            Effect(v, v', keys, keys, ip) && (o == Done ==> AllHave(v', Targets(a.plan), ip))
  {
    var v1 := v.(script := a.script);
    RegisterExact(v1, a.plan, ip, keys);
    EffectWithin(v1, RegisterAll(v1, a.plan, ip).0, Targets(a.plan), keys, ip);
    assert Missing(v1, keys, ip) == Missing(v, keys, ip);
  }

  lemma {:induction false} AttemptsEffect(v: Vpc, tries: seq<Attempt>, ip: string, keys: set<PoolKey>)
    requires TargetsWithin(tries, keys)
    ensures var (v', o) := Attempts(v, tries, ip);
            Effect(v, v', keys, keys, ip) && (o == Done && LastSees(tries, keys) ==> AllHave(v', keys, ip))
  {
    if tries == [] {
      NoEffect(v, v, keys, keys, ip);
    } else {
      var n := |tries| - 1;
      assert tries[n] in tries;
      AttemptsEffect(v, tries[..n], ip, keys);
      var v1 := Attempts(v, tries[..n], ip).0;
      AttemptEffect(v1, tries[n], ip, keys);
      EffectTwice(v, v1, Attempts(v, tries, ip).0, keys, keys, keys, ip);
      assert keys + keys == keys;
    }
  }

  /** Confluence: two schedules that both end in a success that saw all pools agree on all pool contents,
      whatever orders they used, whatever part of the pools their earlier attempts saw and wherever those
      stopped; and both agree with the intended contents, hence with one uninterrupted run. */
  lemma RegistrationConfluent(v: Vpc, s: seq<Attempt>, t: seq<Attempt>, ip: string, keys: set<PoolKey>)
    requires TargetsWithin(s, keys) && TargetsWithin(t, keys) && LastSees(s, keys) && LastSees(t, keys)
    requires Attempts(v, s, ip).1 == Done && Attempts(v, t, ip).1 == Done
    ensures Contents(Attempts(v, s, ip).0) == Contents(Attempts(v, t, ip).0)
    ensures Contents(Attempts(v, s, ip).0) == Registered(Contents(v), keys, ip)
  {
    AttemptsEffect(v, s, ip, keys);
    AttemptsEffect(v, t, ip, keys);
    GrewToRegistered(v, Attempts(v, s, ip).0, keys, ip);
    GrewToRegistered(v, Attempts(v, t, ip).0, keys, ip);
  }

  /** Convergence: attempts that each create at least one member cannot fail more often than there
      were pools without the IP at the start. */
  lemma RegistrationConverges(v: Vpc, tries: seq<Attempt>, ip: string, keys: set<PoolKey>)
    requires TargetsWithin(tries, keys)
    requires forall i :: 0 <= i < |tries| ==>
               Attempts(v, tries[..i], ip).0.nextId < Attempts(v, tries[..i + 1], ip).0.nextId
    ensures |tries| <= |Missing(v, keys, ip)|
  {
    Progress(v, tries, ip, |tries|);
    assert tries[..|tries|] == tries;
    AttemptsEffect(v, tries, ip, keys);
  }

  lemma {:induction false} Progress(v: Vpc, tries: seq<Attempt>, ip: string, n: nat)
    requires n <= |tries|
    requires forall i :: 0 <= i < |tries| ==>
               Attempts(v, tries[..i], ip).0.nextId < Attempts(v, tries[..i + 1], ip).0.nextId
    ensures Attempts(v, tries[..n], ip).0.nextId >= v.nextId + n
  {
    if n > 0 {
      Progress(v, tries, ip, n - 1);
      assert Attempts(v, tries[..n - 1], ip).0.nextId < Attempts(v, tries[..n - 1 + 1], ip).0.nextId;
    }
  }

  /******* A healthy service lets an attempt through *******/

  ghost predicate Healthy(script: seq<Reply>, calls: nat) {
    |script| >= calls && forall i :: 0 <= i < calls ==> script[i] == Reply(Served, ACTIVE)
  }

  ghost function PoolCount(plan: seq<LbOptions>): nat {
    if plan == [] then 0 else |plan[0].pools| + PoolCount(plan[1..])
  }

  ghost predicate Reachable(v: Vpc, plan: seq<LbOptions>) {
    && AllKeys(plan) <= v.pools.Keys
    && forall lb :: lb in plan ==> lb.state == ACTIVE && lb.pools != []
  }

  lemma HealthyPool(v: Vpc, key: PoolKey, ip: string, calls: nat)
    requires Healthy(v.script, calls + 3) && key in v.pools
    ensures var (v', o) := RegisterPool(v, key, ip);
            o == Done && Healthy(v'.script, calls) && v'.pools.Keys == v.pools.Keys
  {
  }

  lemma {:induction false} HealthyPools(v: Vpc, lb: string, pools: seq<PoolRef>, ip: string, calls: nat)
    requires Healthy(v.script, calls + 3 * |pools|) && KeysOf(lb, pools) <= v.pools.Keys
    ensures var (v', o) := RegisterPools(v, lb, pools, ip);
            o == Done && Healthy(v'.script, calls) && v'.pools.Keys == v.pools.Keys
    decreases |pools|
  {
    if pools != [] {
      assert pools[0] in pools && KeysOf(lb, pools[1..]) <= KeysOf(lb, pools);
      var more := calls + 3 * |pools[1..]|;
      if pools[0].name == BOOTSTRAP {
        HealthyPools(v, lb, pools[1..], ip, calls);
      } else {
        var key := PoolKey(lb, pools[0].id);
        assert key in KeysOf(lb, pools);
        HealthyPool(v, key, ip, more);
        HealthyPools(RegisterPool(v, key, ip).0, lb, pools[1..], ip, calls);
      }
    }
  }

  /** An attempt that meets no failure succeeds. */
  lemma {:induction false} HealthyRegistrationSucceeds(v: Vpc, plan: seq<LbOptions>, ip: string)
    requires Reachable(v, plan) && Healthy(v.script, 3 * PoolCount(plan))
    ensures RegisterAll(v, plan, ip).1 == Done
    decreases |plan|
  {
    if plan != [] {
      var lb := plan[0];
      assert lb in plan;
      assert KeysOf(lb.id, lb.pools) <= AllKeys(plan);
      HealthyPools(v, lb.id, lb.pools, ip, 3 * PoolCount(plan[1..]));
      var v1 := RegisterLb(v, lb, ip).0;
      assert Reachable(v1, plan[1..]) by {
        assert AllKeys(plan[1..]) <= AllKeys(plan);
      }
      HealthyRegistrationSucceeds(v1, plan[1..], ip);
    }
  }
}
