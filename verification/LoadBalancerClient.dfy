/** The load balancer service as an object, and the nested loops that register and deregister an IP
    with it, proved against the functions of module LoadBalancers. */
module LoadBalancerClient {
  import opened Calls
  import opened LoadBalancers

  class VpcClient {
    var pools: map<PoolKey, seq<Member>>
    var nextId: nat
    var script: seq<Reply>

    constructor (pools: map<PoolKey, seq<Member>>, nextId: nat, script: seq<Reply>)
      ensures View() == Vpc(pools, nextId, script)
    {
      this.pools, this.nextId, this.script := pools, nextId, script;
    }

    ghost function View(): Vpc
      reads this
    {
      Vpc(pools, nextId, script)
    }

    method Reply() returns (r: Reply)
      modifies `script
      ensures r == Answer(old(script)) && script == Rest(old(script))
    {
      r := Answer(script);
      script := Rest(script);
    }

    method ListPoolMembers(key: PoolKey) returns (members: Option<seq<Member>>)
      modifies `script
      ensures script == Rest(old(script))
      ensures members == if Answer(old(script)).fault == Served && key in pools then Some(pools[key]) else None
    {
      var r := Reply();
      members := if r.fault == Served && key in pools then Some(pools[key]) else None;
    }

    method GetLoadBalancer() returns (status: Option<string>)
      modifies `script
      ensures script == Rest(old(script))
      ensures status == if Answer(old(script)).fault == Served then Some(Answer(old(script)).text) else None
    {
      var r := Reply();
      status := if r.fault == Served then Some(r.text) else None;
    }

    method CreatePoolMember(key: PoolKey, ip: string, port: int) returns (ok: bool)
      requires key in pools
      modifies this
      ensures ok == (Answer(old(script)).fault == Served)
      ensures View() == if Answer(old(script)).fault == Refused then Consume(old(View()))
                        else CreateMember(Consume(old(View())), key, ip, port)
    {
      var r := Reply();
      if r.fault != Refused {
        pools := pools[key := pools[key] + [Member(nextId, Address(ip), port)]];
        nextId := nextId + 1;
      }
      ok := r.fault == Served;
    }

    method DeletePoolMember(key: PoolKey, id: nat) returns (ok: bool)
      requires key in pools
      modifies this
      ensures ok == (Answer(old(script)).fault == Served)
      ensures View() == if Answer(old(script)).fault == Refused then Consume(old(View()))
                        else Consume(old(View())).(pools := old(pools)[key := RemoveId(old(pools)[key], id)])
    {
      var r := Reply();
      if r.fault != Refused {
        pools := pools[key := RemoveId(pools[key], id)];
      }
      ok := r.fault == Served;
    }
  }

  // The runtime's choice of an order for ranging over a map.
  method IterationOrder(keys: set<string>) returns (order: seq<string>)
    ensures Enumerates(order, keys)
  {
    order := [];
    var rest := keys;
    while rest != {}
      invariant rest <= keys && Enumerates(order, keys - rest)
      decreases rest
    {
      var n :| n in rest;
      order, rest := order + [n], rest - {n};
    }
  }

  // The scan over the listed members: the port to use, and whether the IP is already there.
  method ScanMembers(members: seq<Member>, ip: string) returns (port: int, registered: bool)
    ensures port == TargetPort(members)
    ensures registered == Has(members, ip)
  {
    port, registered := 0, false;
    for i := 0 to |members|
      invariant port == TargetPort(members[..i])
      invariant registered == Has(members[..i], ip)
    {
      assert members[..i + 1] == members[..i] + [members[i]];
      assert members[..i + 1][..i] == members[..i];
      if members[i].target.Address? {
        port := members[i].port;
        if members[i].target.ip == ip {
          assert members[..i + 1][i].target == Address(ip);
          registered := true;
        }
      }
    }
    assert members[..|members|] == members;
  }

  method RegisterPool(c: VpcClient, key: PoolKey, ip: string) returns (o: Outcome)
    modifies c
    ensures (c.View(), o) == LoadBalancers.RegisterPool(old(c.View()), key, ip)
  {
    var members := c.ListPoolMembers(key);
    if members.None? {
      return Failed;
    }
    var port, registered := ScanMembers(members.value, ip);
    if registered {
      return Done;
    }
    var status := c.GetLoadBalancer();
    if status.None? {
      return Failed;
    }
    if status.value != ACTIVE {
      return Requeue;
    }
    var ok := c.CreatePoolMember(key, ip, port);
    o := if ok then Done else Failed;
  }

  method RegisterLb(c: VpcClient, lb: LbOptions, ip: string) returns (o: Outcome)
    modifies c
    ensures (c.View(), o) == LoadBalancers.RegisterLb(old(c.View()), lb, ip)
  {
    if lb.state != ACTIVE || lb.pools == [] {
      return Failed;
    }
    for i := 0 to |lb.pools|
      invariant RegisterPools(old(c.View()), lb.id, lb.pools, ip) == RegisterPools(c.View(), lb.id, lb.pools[i..], ip)
    {
      if lb.pools[i].name != BOOTSTRAP {
        o := RegisterPool(c, PoolKey(lb.id, lb.pools[i].id), ip);
        if o != Done {
          return;
        }
      }
    }
    o := Done;
  }

  method CreateLoadBalancerPoolMember(c: VpcClient, lbs: map<string, LbOptions>, ip: string)
    returns (o: Outcome, order: seq<string>)
    modifies c
    ensures Enumerates(order, lbs.Keys)
    ensures (c.View(), o) == RegisterAll(old(c.View()), Plan(lbs, order), ip)
  {
    order := IterationOrder(lbs.Keys);
    var plan := Plan(lbs, order);
    for i := 0 to |plan|
      invariant RegisterAll(old(c.View()), plan, ip) == RegisterAll(c.View(), plan[i..], ip)
    {
      o := RegisterLb(c, plan[i], ip);
      if o != Done {
        return;
      }
    }
    o := Done;
  }

  method DeregisterPool(c: VpcClient, key: PoolKey, ip: string) returns (o: Outcome)
    modifies c
    ensures (c.View(), o) == LoadBalancers.DeregisterPool(old(c.View()), key, ip)
  {
    var members := c.ListPoolMembers(key);
    if members.None? {
      return Failed;
    }
    var listed := members.value;
    ghost var start := c.View();
    for i := 0 to |listed|
      invariant key in c.pools
      invariant DeleteMembers(start, key, listed, ip) == DeleteMembers(c.View(), key, listed[i..], ip)
    {
      if listed[i].target == Address(ip) {
        var ok := c.DeletePoolMember(key, listed[i].id);
        if !ok {
          return Failed;
        }
      }
    }
    o := Done;
  }

  method DeregisterLb(c: VpcClient, lb: LbOptions, ip: string) returns (o: Outcome)
    modifies c
    ensures (c.View(), o) == LoadBalancers.DeregisterLb(old(c.View()), lb, ip)
  {
    if lb.state != ACTIVE || lb.pools == [] {
      return Failed;
    }
    for i := 0 to |lb.pools|
      invariant DeregisterPools(old(c.View()), lb.id, lb.pools, ip)
                == DeregisterPools(c.View(), lb.id, lb.pools[i..], ip)
    {
      o := DeregisterPool(c, PoolKey(lb.id, lb.pools[i].id), ip);
      if o != Done {
        return;
      }
    }
    o := Done;
  }

  method DeleteLoadBalancerPoolMember(c: VpcClient, lbs: map<string, LbOptions>, ip: string)
    returns (o: Outcome, order: seq<string>)
    modifies c
    ensures Enumerates(order, lbs.Keys)
    ensures (c.View(), o) == DeregisterAll(old(c.View()), Plan(lbs, order), ip)
  {
    order := IterationOrder(lbs.Keys);
    var plan := Plan(lbs, order);
    for i := 0 to |plan|
      invariant DeregisterAll(old(c.View()), plan, ip) == DeregisterAll(c.View(), plan[i..], ip)
    {
      o := DeregisterLb(c, plan[i], ip);
      if o != Done {
        return;
      }
    }
    o := Done;
  }
}
