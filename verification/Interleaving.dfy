/** Registrations of any number of machines, their attempts interleaved in any way. */
module Interleaving {
  import opened Calls
  import opened LoadBalancers
  import opened Registration

  /** One attempt of the machine with this IP: the load balancers in the order in which they were walked,
      and the answers it met. */
  datatype Turn = Turn(ip: string, plan: seq<LbOptions>, script: seq<Reply>)

  function Take(v: Vpc, t: Turn): (Vpc, Outcome) {
    RegisterAll(v.(script := t.script), t.plan, t.ip)
  }

  function Turns(v: Vpc, ts: seq<Turn>): Vpc {
    if ts == [] then v else Take(Turns(v, ts[..|ts| - 1]), ts[|ts| - 1]).0
  }

  /******* What attempts leave of a pool *******/

  // A member, up to its id, that pool `d` has beyond pool `c`.
  ghost predicate Joined(c: seq<Member>, d: seq<Member>, m: Member) {
    && m.target.Address? && m == Member(0, m.target, TargetPort(c))
    && !Has(c, m.target.ip) && Has(d, m.target.ip)
  }

  /** Pool `d` is pool `c` with one member, on the pool's port, for each further IP it has, in any order. */
  ghost predicate Extends(c: seq<Member>, d: seq<Member>) {
    && TargetPort(d) == TargetPort(c)
    && (forall ip :: Has(c, ip) ==> Has(d, ip))
    && (forall m :: multiset(Erase(d))[m] == multiset(Erase(c))[m] + (if Joined(c, d, m) then 1 else 0))
  }

  lemma GainedHas(d: seq<Member>, d': seq<Member>, ip: string)
    requires Gained(d, d', ip)
    ensures TargetPort(d') == TargetPort(d)
    ensures forall x :: Has(d', x) <==> Has(d, x) || x == ip
  {
    assert d' == d + [d'[|d|]];
    assert d'[|d|].target == Address(ip);
    forall x ensures Has(d', x) <==> Has(d, x) || x == ip {
      if Has(d, x) {
        var i :| 0 <= i < |d| && d[i].target == Address(x);
        assert d'[i].target == Address(x);
      }
    }
  }

  lemma ExtendsOn(c: seq<Member>, d: seq<Member>, d': seq<Member>, ip: string)
    requires Extends(c, d) && !Has(d, ip) && Gained(d, d', ip)
    ensures Extends(c, d')
  {
    GainedHas(d, d', ip);
    GainedErased(d, d', ip);
    EraseFacts(d, ip);
    var x := Member(0, Address(ip), TargetPort(c));
    assert Erase(d') == Erase(d) + [x];
    forall m ensures multiset(Erase(d'))[m] == multiset(Erase(c))[m] + (if Joined(c, d', m) then 1 else 0) {
      assert multiset(Erase(d'))[m] == multiset(Erase(d))[m] + (if m == x then 1 else 0);
      assert Joined(c, d', m) <==> Joined(c, d, m) || m == x;
    }
  }

  lemma TurnGrew(v: Vpc, t: Turn)
    ensures var (v', o) := Take(v, t);
            Grew(v, v', Targets(t.plan), t.ip) && (o == Done ==> AllHave(v', Targets(t.plan), t.ip))
  {
    RegisterExact(v.(script := t.script), t.plan, t.ip, Targets(t.plan));
  }

  lemma {:induction false} TurnsExtend(v: Vpc, ts: seq<Turn>, k: PoolKey)
    requires k in v.pools
    ensures k in Turns(v, ts).pools && Extends(v.pools[k], Turns(v, ts).pools[k])
    decreases |ts|
  {
    if ts != [] {
      var n := |ts| - 1;
      TurnsExtend(v, ts[..n], k);
      var v1 := Turns(v, ts[..n]);
      TurnGrew(v1, ts[n]);
      var d, d' := v1.pools[k], Turns(v, ts).pools[k];
      if d' != d {
        ExtendsOn(v.pools[k], d, d', ts[n].ip);
      }
    }
  }

  lemma {:induction false} SamePools(v: Vpc, ts: seq<Turn>)
    ensures Turns(v, ts).pools.Keys == v.pools.Keys
    decreases |ts|
  {
    if ts != [] {
      SamePools(v, ts[..|ts| - 1]);
      TurnGrew(Turns(v, ts[..|ts| - 1]), ts[|ts| - 1]);
    }
  }

  /******* Which IPs are in a pool at the end *******/

  // The machines and the pools they belong in; no attempt goes beyond them.
  ghost predicate Allowed(ts: seq<Turn>, keys: map<string, set<PoolKey>>) {
    forall t :: t in ts ==> t.ip in keys && Targets(t.plan) <= keys[t.ip]
  }

  // One attempt of the machine saw all its pools and succeeded.
  ghost predicate Succeeds(v: Vpc, ts: seq<Turn>, i: int, ip: string, keys: set<PoolKey>) {
    0 <= i < |ts| && ts[i].ip == ip && Targets(ts[i].plan) == keys && Take(Turns(v, ts[..i]), ts[i]).1 == Done
  }

  /** Every machine's attempts stay within its pools, and one of them succeeds. */
  ghost predicate Completes(v: Vpc, ts: seq<Turn>, keys: map<string, set<PoolKey>>) {
    Allowed(ts, keys) && forall ip :: ip in keys ==> exists i :: Succeeds(v, ts, i, ip, keys[ip])
  }

  lemma {:induction false} HasOnly(v: Vpc, ts: seq<Turn>, keys: map<string, set<PoolKey>>, k: PoolKey, ip: string)
    requires Allowed(ts, keys) && k in v.pools && k in Turns(v, ts).pools && Has(Turns(v, ts).pools[k], ip)
    ensures Has(v.pools[k], ip) || (ip in keys && k in keys[ip])
    decreases |ts|
  {
    if ts != [] {
      var n := |ts| - 1;
      assert ts[n] in ts;
      var v1 := Turns(v, ts[..n]);
      SamePools(v, ts[..n]);
      TurnGrew(v1, ts[n]);
      if Has(v1.pools[k], ip) {
        HasOnly(v, ts[..n], keys, k, ip);
      } else {
        GainedHas(v1.pools[k], Turns(v, ts).pools[k], ts[n].ip);
      }
    }
  }

  lemma {:induction false} HasStays(v: Vpc, ts: seq<Turn>, i: nat, k: PoolKey, ip: string)
    requires i <= |ts| && k in Turns(v, ts[..i]).pools && Has(Turns(v, ts[..i]).pools[k], ip)
    ensures k in Turns(v, ts).pools && Has(Turns(v, ts).pools[k], ip)
    decreases |ts|
  {
    if i == |ts| {
      assert ts[..i] == ts;
    } else {
      var n := |ts| - 1;
      assert ts[..n][..i] == ts[..i];
      HasStays(v, ts[..n], i, k, ip);
      TurnKeeps(Turns(v, ts[..n]), ts[n], k, ip);
    }
  }

  lemma TurnKeeps(v: Vpc, t: Turn, k: PoolKey, ip: string)
    requires k in v.pools && Has(v.pools[k], ip)
    ensures k in Take(v, t).0.pools && Has(Take(v, t).0.pools[k], ip)
  {
    TurnGrew(v, t);
    var v' := Take(v, t).0;
    if v'.pools[k] != v.pools[k] {
      GainedHas(v.pools[k], v'.pools[k], t.ip);
    }
  }

  lemma SucceededHas(v: Vpc, ts: seq<Turn>, i: int, ip: string, keys: set<PoolKey>, k: PoolKey)
    requires Succeeds(v, ts, i, ip, keys) && k in keys
    ensures k in Turns(v, ts).pools && Has(Turns(v, ts).pools[k], ip)
  {
    TurnGrew(Turns(v, ts[..i]), ts[i]);
    assert ts[..i + 1][..i] == ts[..i];
    assert Turns(v, ts[..i + 1]) == Take(Turns(v, ts[..i]), ts[i]).0;
    HasStays(v, ts, i + 1, k, ip);
  }

  /** Once every machine has succeeded, a pool has exactly the IPs it had and those that belong in it. */
  lemma HasExactly(v: Vpc, ts: seq<Turn>, keys: map<string, set<PoolKey>>, k: PoolKey, ip: string)
    requires Completes(v, ts, keys) && k in v.pools
    ensures k in Turns(v, ts).pools
    ensures Has(Turns(v, ts).pools[k], ip) <==> Has(v.pools[k], ip) || (ip in keys && k in keys[ip])
  {
    TurnsExtend(v, ts, k);
    assert Has(v.pools[k], ip) ==> Has(Turns(v, ts).pools[k], ip);
    if Has(Turns(v, ts).pools[k], ip) {
      HasOnly(v, ts, keys, k, ip);
    }
    if ip in keys && k in keys[ip] {
      var i :| Succeeds(v, ts, i, ip, keys[ip]);
      SucceededHas(v, ts, i, ip, keys[ip], k);
    }
  }

  // The same members in every pool, in whatever order.
  ghost predicate SameMembers(c: map<PoolKey, seq<Member>>, d: map<PoolKey, seq<Member>>) {
    c.Keys == d.Keys && forall k :: k in c ==> multiset(c[k]) == multiset(d[k])
  }

  lemma SameExtension(c: seq<Member>, d: seq<Member>, e: seq<Member>)
    requires Extends(c, d) && Extends(c, e) && forall ip :: Has(d, ip) <==> Has(e, ip)
    ensures multiset(Erase(d)) == multiset(Erase(e))
  {
    forall m ensures multiset(Erase(d))[m] == multiset(Erase(e))[m] {
      assert Joined(c, d, m) <==> Joined(c, e, m);
    }
  }

  /** Registrations of different machines commute: any two interleavings of the attempts of any machines, with
      failures and partial listings, in which each machine succeeds once, leave the same members on the same
      ports in every pool. */
  lemma RegistrationsCommute(v: Vpc, s: seq<Turn>, t: seq<Turn>, keys: map<string, set<PoolKey>>)
    requires Completes(v, s, keys) && Completes(v, t, keys)
    ensures SameMembers(Contents(Turns(v, s)), Contents(Turns(v, t)))
  {
    SamePools(v, s);
    SamePools(v, t);
    forall k | k in v.pools ensures multiset(Contents(Turns(v, s))[k]) == multiset(Contents(Turns(v, t))[k]) {
      TurnsExtend(v, s, k);
      TurnsExtend(v, t, k);
      forall ip ensures Has(Turns(v, s).pools[k], ip) <==> Has(Turns(v, t).pools[k], ip) {
        HasExactly(v, s, keys, k, ip);
        HasExactly(v, t, keys, k, ip);
      }
      SameExtension(v.pools[k], Turns(v, s).pools[k], Turns(v, t).pools[k]);
    }
  }
}
