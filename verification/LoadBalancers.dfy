/** Registration and deregistration of a machine's internal IP with the pools of its application
    load balancers, as functions on values. */
module LoadBalancers {
  import opened Calls

  const ACTIVE := "active"
  const BOOTSTRAP := "bootstrap-node"

  datatype Target = Address(ip: string) | Instance(crn: string)
  datatype Member = Member(id: nat, target: Target, port: int)
  datatype PoolRef = PoolRef(name: string, id: string)
  datatype LbOptions = LbOptions(id: string, pools: seq<PoolRef>, state: string)
  datatype PoolKey = PoolKey(lb: string, pool: string)

  /** `nextId` is the id the service gives to the next member it creates. */
  datatype Vpc = Vpc(pools: map<PoolKey, seq<Member>>, nextId: nat, script: seq<Reply>)

  datatype Outcome = Done | Failed | Requeue

  predicate Has(members: seq<Member>, ip: string) {
    exists i :: 0 <= i < |members| && members[i].target == Address(ip)
  }

  predicate HasAddress(members: seq<Member>) {
    exists i :: 0 <= i < |members| && members[i].target.Address?
  }

  /** The port of the last member with an address target; 0 when there is none. */
  function TargetPort(members: seq<Member>): int {
    if members == [] then 0
    else
      var last := members[|members| - 1];
      if last.target.Address? then last.port else TargetPort(members[..|members| - 1])
  }

  function Consume(v: Vpc): Vpc {
    v.(script := Rest(v.script))
  }

  /******* Registration *******/

  function CreateMember(v: Vpc, key: PoolKey, ip: string, port: int): Vpc
    requires key in v.pools
  {
    v.(pools := v.pools[key := v.pools[key] + [Member(v.nextId, Address(ip), port)]],
       nextId := v.nextId + 1)
  }

  /** Lists the pool, and if the IP is missing asks for the load balancer's current status and
      creates the member. */
  function RegisterPool(v: Vpc, key: PoolKey, ip: string): (Vpc, Outcome) {
    var v1 := Consume(v);
    if Answer(v.script).fault != Served || key !in v.pools then (v1, Failed)
    else if Has(v.pools[key], ip) then (v1, Done)
    else
      var get, v2 := Answer(v1.script), Consume(v1);
      if get.fault != Served then (v2, Failed)
      else if get.text != ACTIVE then (v2, Requeue)
      else
        var grown := CreateMember(Consume(v2), key, ip, TargetPort(v.pools[key]));
        match Answer(v2.script).fault
        case Served => (grown, Done)
        case Lost => (grown, Failed)
        case Refused => (Consume(v2), Failed)
  }

  function RegisterPools(v: Vpc, lb: string, pools: seq<PoolRef>, ip: string): (Vpc, Outcome)
    decreases |pools|
  {
    if pools == [] then (v, Done)
    else if pools[0].name == BOOTSTRAP then RegisterPools(v, lb, pools[1..], ip)
    else
      var (v1, o) := RegisterPool(v, PoolKey(lb, pools[0].id), ip);
      if o != Done then (v1, o) else RegisterPools(v1, lb, pools[1..], ip)
  }

  function RegisterLb(v: Vpc, lb: LbOptions, ip: string): (Vpc, Outcome) {
    if lb.state != ACTIVE || lb.pools == [] then (v, Failed)
    else RegisterPools(v, lb.id, lb.pools, ip)
  }

  /** `plan` lists the load balancers in the order in which the map is iterated. */
  function RegisterAll(v: Vpc, plan: seq<LbOptions>, ip: string): (Vpc, Outcome)
    decreases |plan|
  {
    if plan == [] then (v, Done)
    else
      var (v1, o) := RegisterLb(v, plan[0], ip);
      if o != Done then (v1, o) else RegisterAll(v1, plan[1..], ip)
  }

  /******* Deregistration *******/

  function RemoveId(members: seq<Member>, id: nat): seq<Member> {
    if members == [] then []
    else if members[0].id == id then RemoveId(members[1..], id)
    else [members[0]] + RemoveId(members[1..], id)
  }

  /** Walks over the members that were listed and deletes, by id, those whose address is `ip`. */
  function DeleteMembers(v: Vpc, key: PoolKey, listed: seq<Member>, ip: string): (Vpc, Outcome)
    requires key in v.pools
    decreases |listed|
  {
    if listed == [] then (v, Done)
    else if listed[0].target != Address(ip) then DeleteMembers(v, key, listed[1..], ip)
    else
      var shrunk := Consume(v).(pools := v.pools[key := RemoveId(v.pools[key], listed[0].id)]);
      match Answer(v.script).fault
      case Served => DeleteMembers(shrunk, key, listed[1..], ip)
      case Lost => (shrunk, Failed)
      case Refused => (Consume(v), Failed)
  }

  function DeregisterPool(v: Vpc, key: PoolKey, ip: string): (Vpc, Outcome) {
    if Answer(v.script).fault != Served || key !in v.pools then (Consume(v), Failed)
    else DeleteMembers(Consume(v), key, v.pools[key], ip)
  }

  function DeregisterPools(v: Vpc, lb: string, pools: seq<PoolRef>, ip: string): (Vpc, Outcome)
    decreases |pools|
  {
    if pools == [] then (v, Done)
    else
      var (v1, o) := DeregisterPool(v, PoolKey(lb, pools[0].id), ip);
      if o != Done then (v1, o) else DeregisterPools(v1, lb, pools[1..], ip)
  }

  function DeregisterLb(v: Vpc, lb: LbOptions, ip: string): (Vpc, Outcome) {
    if lb.state != ACTIVE || lb.pools == [] then (v, Failed)
    else DeregisterPools(v, lb.id, lb.pools, ip)
  }

  function DeregisterAll(v: Vpc, plan: seq<LbOptions>, ip: string): (Vpc, Outcome)
    decreases |plan|
  {
    if plan == [] then (v, Done)
    else
      var (v1, o) := DeregisterLb(v, plan[0], ip);
      if o != Done then (v1, o) else DeregisterAll(v1, plan[1..], ip)
  }

  /******* Iteration over a map *******/

  /** `order` is one order in which a range over a map with these keys may go. */
  ghost predicate Enumerates(order: seq<string>, keys: set<string>) {
    && (forall n :: n in order <==> n in keys)
    && (forall i, j :: 0 <= i < j < |order| ==> order[i] != order[j])
  }

  function Plan(lbs: map<string, LbOptions>, order: seq<string>): seq<LbOptions>
    requires forall n :: n in order ==> n in lbs
  {
    seq(|order|, i requires 0 <= i < |order| => lbs[order[i]])
  }

  /******* What the operations are for *******/

  // The pools of one load balancer, and of a whole plan; registration skips the bootstrap pool.
  ghost function KeysOf(lb: string, pools: seq<PoolRef>): set<PoolKey> {
    set p | p in pools :: PoolKey(lb, p.id)
  }

  ghost function WorkKeysOf(lb: string, pools: seq<PoolRef>): set<PoolKey> {
    set p | p in pools && p.name != "bootstrap-node" :: PoolKey(lb, p.id)
  }

  ghost function AllKeys(plan: seq<LbOptions>): set<PoolKey> {
    set lb, p | lb in plan && p in lb.pools :: PoolKey(lb.id, p.id)
  }

  ghost function Targets(plan: seq<LbOptions>): set<PoolKey> {
    set lb, p | lb in plan && p in lb.pools && p.name != "bootstrap-node" :: PoolKey(lb.id, p.id)
  }

  // The same for a map of load balancers; no iteration order is involved.
  ghost function MapKeys(lbs: map<string, LbOptions>): set<PoolKey> {
    set n, p | n in lbs && p in lbs[n].pools :: PoolKey(lbs[n].id, p.id)
  }

  ghost function MapTargets(lbs: map<string, LbOptions>): set<PoolKey> {
    set n, p | n in lbs && p in lbs[n].pools && p.name != "bootstrap-node" :: PoolKey(lbs[n].id, p.id)
  }

  lemma PlanCoversMap(lbs: map<string, LbOptions>, order: seq<string>)
    requires Enumerates(order, lbs.Keys)
    ensures Targets(Plan(lbs, order)) == MapTargets(lbs)
    ensures AllKeys(Plan(lbs, order)) == MapKeys(lbs)
  {
    var plan := Plan(lbs, order);
    forall n | n in lbs ensures lbs[n] in plan {
      var i :| 0 <= i < |order| && order[i] == n;
      assert plan[i] == lbs[n];
    }
    forall lb | lb in plan ensures exists n :: n in lbs && lbs[n] == lb {
      var i :| 0 <= i < |plan| && plan[i] == lb;
      assert order[i] in lbs;
    }
  }

  ghost function Missing(v: Vpc, keys: set<PoolKey>, ip: string): set<PoolKey> {
    set k | k in keys && k in v.pools && !Has(v.pools[k], ip)
  }

  /** `after` is `before` plus one member for `ip`, on the pool's port. */
  ghost predicate Gained(before: seq<Member>, after: seq<Member>, ip: string) {
    && |after| == |before| + 1
    && after[..|before|] == before
    && after[|before|].target == Address(ip)
    && after[|before|].port == TargetPort(before)
  }

  /** Some pools among `keys` that lacked `ip` gained it; nothing else changed. */
  ghost predicate Grew(v: Vpc, v': Vpc, keys: set<PoolKey>, ip: string) {
    && v'.pools.Keys == v.pools.Keys
    && forall k :: k in v.pools ==>
         || v'.pools[k] == v.pools[k]
         || (k in keys && !Has(v.pools[k], ip) && Gained(v.pools[k], v'.pools[k], ip))
  }

  ghost function Without(members: seq<Member>, ip: string): seq<Member> {
    if members == [] then []
    else (if members[0].target == Address(ip) then [] else [members[0]]) + Without(members[1..], ip)
  }

  /** Some members with address `ip` left some pools among `keys`; nothing else changed. */
  ghost predicate Shrank(v: Vpc, v': Vpc, keys: set<PoolKey>, ip: string) {
    && v'.pools.Keys == v.pools.Keys
    && v'.nextId == v.nextId
    && (forall k :: k in v.pools && k !in keys ==> v'.pools[k] == v.pools[k])
    && (forall k :: k in v.pools ==>
          && Without(v'.pools[k], ip) == Without(v.pools[k], ip)
          && (forall m :: m in v'.pools[k] ==> m in v.pools[k]))
  }

  // A member id names one member of its pool, and ids still to be given out are unused.
  ghost predicate PoolValid(members: seq<Member>, nextId: nat) {
    && (forall m, m' :: m in members && m' in members && m.id == m'.id ==> m == m')
    && (forall m :: m in members ==> m.id < nextId)
  }

  ghost predicate Valid(v: Vpc) {
    forall k :: k in v.pools ==> PoolValid(v.pools[k], v.nextId)
  }

  /** Pool contents up to the ids of the members. */
  ghost function Erase(members: seq<Member>): seq<Member> {
    seq(|members|, i requires 0 <= i < |members| => members[i].(id := 0))
  }

  ghost function Contents(v: Vpc): map<PoolKey, seq<Member>> {
    map k | k in v.pools :: Erase(v.pools[k])
  }

  /** The intended result of registration: each pool among `keys` that lacks the IP gains it. */
  ghost function Registered(c: map<PoolKey, seq<Member>>, keys: set<PoolKey>, ip: string)
    : map<PoolKey, seq<Member>>
  {
    map k | k in c ::
      if k in keys && !Has(c[k], ip) then c[k] + [Member(0, Address(ip), TargetPort(c[k]))] else c[k]
  }

  /** The intended result of deregistration: no pool among `keys` keeps a member for the IP. */
  ghost function Deregistered(pools: map<PoolKey, seq<Member>>, keys: set<PoolKey>, ip: string)
    : map<PoolKey, seq<Member>>
  {
    map k | k in pools :: if k in keys then Without(pools[k], ip) else pools[k]
  }
}
