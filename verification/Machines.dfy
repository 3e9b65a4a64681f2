/** One reconcile of one machine, as functions on values: what create, update, delete and exists do
    to the VMs, the load balancer pools, the cache and the Machine object in memory, and what the
    two patches then store. */
module Machines {
  import opened Calls
  import opened LoadBalancers
  import opened Addresses
  import Conditions
  import ProviderId
  import Listing

  const BUILD := "BUILD"
  const SHUTOFF := "SHUTOFF"
  const APPLICATION := "Application"
  const REQUEUE_AFTER := 20 * SECOND

  /******* The Power VS service *******/

  datatype Vm = Vm(id: string, name: string, status: string, networks: seq<Network>)

  /** One service instance, as a client bound to it sees it. `issued` holds every id ever given out, in any
      service instance, with the name of the VM it was given to; ids are not reused. */
  datatype Power = Power(vms: seq<Vm>, issued: map<string, string>, script: seq<Reply>)

  // The VMs of one service instance.
  function VmsIn(vms: map<string, seq<Vm>>, service: string): seq<Vm> {
    if service in vms then vms[service] else []
  }

  datatype Lookup = Found(vm: Vm) | NotFound | Broken

  function Called(p: Power): Power {
    p.(script := Rest(p.script))
  }

  function FindVm(vms: seq<Vm>, id: string): Option<Vm> {
    if vms == [] then None else if vms[0].id == id then Some(vms[0]) else FindVm(vms[1..], id)
  }

  function FindNamed(vms: seq<Vm>, name: string): Option<Vm> {
    if vms == [] then None else if vms[0].name == name then Some(vms[0]) else FindNamed(vms[1..], name)
  }

  function RemoveVm(vms: seq<Vm>, id: string): seq<Vm> {
    if vms == [] then []
    else if vms[0].id == id then RemoveVm(vms[1..], id)
    else [vms[0]] + RemoveVm(vms[1..], id)
  }

  function GetInstance(p: Power, id: string): (Power, Lookup) {
    var vm := FindVm(p.vms, id);
    (Called(p), if Answer(p.script).fault == Served && vm.Some? then Found(vm.value) else Broken)
  }

  function GetInstanceByName(p: Power, name: string): (Power, Lookup) {
    var vm := FindNamed(p.vms, name);
    if Answer(p.script).fault != Served then (Called(p), Broken)
    else if vm.None? then (Called(p), NotFound)
    else GetInstance(Called(p), vm.value.id)
  }

  function DeleteInstance(p: Power, id: string): (Power, bool) {
    match Answer(p.script).fault
    case Refused => (Called(p), false)
    case Served => (Called(p).(vms := RemoveVm(p.vms, id)), true)
    case Lost => (Called(p).(vms := RemoveVm(p.vms, id)), false)
  }

  /** The environment picks the id of the new VM; an id that was used before is refused. None is an
      error; an answer may also fail to mention the VM it created. */
  function CreateInstance(p: Power, vm: Vm, mentioned: bool): (Power, Option<seq<string>>) {
    var r := Answer(p.script);
    var id := r.text;
    if r.fault == Refused || id == "" || id in p.issued then (Called(p), None)
    else
      var grown := Called(p).(vms := p.vms + [vm.(id := id)], issued := p.issued[id := vm.name]);
      (grown, if r.fault == Lost then None else if mentioned then Some([id]) else Some([]))
  }

  /******* The Machine object *******/

  datatype ProviderStatus = ProviderStatus(
    service: Option<string>, instance: Option<string>, state: Option<string>, conditions: seq<Conditions.Condition>)

  datatype Machine = Machine(
    providerId: Option<string>, status: ProviderStatus, addresses: seq<NodeAddress>, lastUpdated: Option<int>)

  datatype LbRef = LbRef(kind: string, name: string)

  datatype Spec = Spec(labelled: bool, network: NetworkSpec, loadBalancers: seq<LbRef>)

  /** An IP found through DHCP, with the circumstances it was found in. */
  datatype Leased = Leased(
    machine: string, key: string, ip: string, at: int, networks: seq<Network>, spec: NetworkSpec, dhcp: Dhcp)

  /** Everything the environment decides during one reconcile.
      `service` answers the lookup of the service instance, `client` whether the API client can be
      built; `master` is None when the node cannot be read; `launchable` says whether the spec's
      processors, image and network resolve; `newborn` and `mentioned` describe the VM that
      CreateInstance brings up and whether its answer lists it; `listing` is what paging over the
      load balancers delivers and `order` the order of ranging over the map made from it. */
  datatype Inputs = Inputs(
    service: Option<string>, client: bool, region: string, zone: string,
    master: Option<bool>, userData: bool, launchable: bool, newborn: Vm, mentioned: bool, message: string,
    dhcp: Dhcp, listing: Option<seq<Listing.LoadBalancer>>, order: seq<string>,
    power: seq<Reply>, vpc: seq<Reply>, patch: Fault, patchStatus: Fault)

  /** What a reconcile works on: the services, and the machine with its provider status in memory. */
  datatype Session = Session(
    power: Power, vpc: Vpc, cache: Cache, lookups: seq<Leased>, machine: Machine, status: ProviderStatus)

  /******* Load balancers of a spec *******/

  function ApplicationNames(refs: seq<LbRef>): seq<string> {
    if refs == [] then []
    else
      var n := |refs| - 1;
      ApplicationNames(refs[..n]) + (if refs[n].kind == APPLICATION then [refs[n].name] else [])
  }

  function Selected(spec: Spec, inputs: Inputs): Option<map<string, LbOptions>> {
    Listing.Select(inputs.listing, ApplicationNames(spec.loadBalancers))
  }

  // The order of the inputs is an order of the map it is used for.
  ghost predicate Ordered(spec: Spec, inputs: Inputs) {
    Selected(spec, inputs).Some? ==> Enumerates(inputs.order, Selected(spec, inputs).value.Keys)
  }

  function UpdateLoadBalancers(v: Vpc, spec: Spec, inputs: Inputs, ip: string): (Vpc, Outcome)
    requires Ordered(spec, inputs)
  {
    if ApplicationNames(spec.loadBalancers) == [] then (v, Done)
    else if Selected(spec, inputs).None? then (v, Failed)
    else RegisterAll(v, Plan(Selected(spec, inputs).value, inputs.order), ip)
  }

  function RemoveFromLoadBalancers(v: Vpc, spec: Spec, inputs: Inputs, ip: string): (Vpc, Outcome)
    requires Ordered(spec, inputs)
  {
    if ApplicationNames(spec.loadBalancers) == [] then (v, Done)
    else if Selected(spec, inputs).None? then (v, Failed)
    else DeregisterAll(v, Plan(Selected(spec, inputs).value, inputs.order), ip)
  }

  /******* Scope *******/

  /** The provider status a reconcile starts from; None when no scope can be created. The service
      instance id is looked up only when the object does not record one. The VM client of the scope is
      bound to that service instance and sees no other. */
  function OpenScope(m: Machine, inputs: Inputs): (st: Option<ProviderStatus>)
    ensures st.Some? ==> st.value.service.Some?
  {
    if !inputs.client then None
    else if m.status.service.Some? then Some(m.status)
    else if inputs.service.None? then None
    else Some(m.status.(service := inputs.service))
  }

  function SetProviderStatus(st: ProviderStatus, vm: Option<Vm>, condition: Conditions.Condition, now: int)
    : ProviderStatus
  {
    st.(instance := if vm.Some? then Some(vm.value.id) else None,
        state := if vm.Some? then Some(vm.value.status) else None,
        conditions := Conditions.SetCondition(condition, st.conditions, now))
  }

  function Merge<T(==)>(base: T, changed: T, current: T): T {
    if changed == base then current else changed
  }

  function MergeStatus(base: ProviderStatus, changed: ProviderStatus, current: ProviderStatus): ProviderStatus {
    ProviderStatus(
      Merge(base.service, changed.service, current.service),
      Merge(base.instance, changed.instance, current.instance),
      Merge(base.state, changed.state, current.state),
      Merge(base.conditions, changed.conditions, current.conditions))
  }

  /** The versions that patching stores, oldest first. `base` is the copy the reconcile read, which
      need not be the stored version. The first patch reaches the spec only, the second the status;
      the second is sent only when the first was confirmed. */
  function Patch(stored: Machine, base: Machine, s: Session, first: Fault, second: Fault): seq<Machine> {
    var v1 := stored.(providerId := Merge(base.providerId, s.machine.providerId, stored.providerId));
    var v2 := v1.(status := MergeStatus(base.status, s.status, v1.status),
                  addresses := Merge(base.addresses, s.machine.addresses, v1.addresses));
    if first == Refused then []
    else if first == Lost || second == Refused then [v1]
    else [v1, v2]
  }

  /******* The reconciler *******/

  function GetMachineInstance(p: Power, instance: Option<string>, name: string): (Power, Lookup) {
    if instance.Some? && instance.value != "" then
      var (p1, r) := GetInstance(p, instance.value);
      if r.Found? then (p1, r) else GetInstanceByName(p1, name)
    else GetInstanceByName(p, name)
  }

  datatype Existence = Present | Absent | Unknown

  function Exists(p: Power, m: Machine, st: ProviderStatus, name: string, now: int): (Power, Existence) {
    var (p1, r) := GetMachineInstance(p, st.instance, name);
    match r
    case Found(_) => (p1, Present)
    case Broken => (p1, Unknown)
    case NotFound =>
      if m.providerId.Some? && m.providerId.value != ""
         && (m.lastUpdated.None? || m.lastUpdated.value + REQUEUE_AFTER > now)
      then (p1, Unknown) else (p1, Absent)
  }

  function RemoveStoppedMachine(p: Power, name: string): (Power, bool) {
    var (p1, r) := GetInstanceByName(p, name);
    match r
    case Broken => (p1, false)
    case NotFound => (p1, true)
    case Found(vm) => if vm.status == SHUTOFF then DeleteInstance(p1, vm.id) else (p1, true)
  }

  function LaunchInstance(p: Power, name: string, inputs: Inputs): (Power, Option<Vm>) {
    if !inputs.launchable then (p, None)
    else
      var (p1, ids) := CreateInstance(p, inputs.newborn.(name := name), inputs.mentioned);
      if ids.None? || ids.value == [] then (p1, None)
      else
        var (p2, r) := GetInstance(p1, ids.value[0]);
        (p2, if r.Found? then Some(r.vm) else None)
  }

  function RequeueIfBuilding(s: Session, vm: Vm, now: int): (Session, Outcome) {
    if vm.status == BUILD then
      (s.(status := SetProviderStatus(s.status, Some(vm), Conditions.Build(), now)), Requeue)
    else (s, Done)
  }

  function Create(s: Session, name: string, spec: Spec, inputs: Inputs, now: int): (Session, Outcome) {
    if !spec.labelled then (s, Failed)
    else
      var (p1, removed) :=
        if inputs.master == Some(false) then RemoveStoppedMachine(s.power, name) else (s.power, true);
      if !removed || !inputs.userData then (s.(power := p1), Failed)
      else
        var (p2, launched) := LaunchInstance(p1, name, inputs);
        var s2 := s.(power := p2);
        if launched.None? then
          (s2.(status := SetProviderStatus(s.status, None, Conditions.Failure(inputs.message), now)), Failed)
        else RequeueIfBuilding(s2, launched.value, now)
  }

  /** Addresses, cache and lookup log after the addresses of `vm` were resolved for machine `name`. */
  function WithAddresses(s: Session, name: string, vm: Vm, spec: Spec, inputs: Inputs, now: int): Session {
    var r := Resolve(vm.name, vm.networks, spec.network, inputs.dhcp, s.cache, now);
    s.(machine := s.machine.(addresses := r.addresses), cache := r.cache,
       lookups := s.lookups +
         (if r.looked.None? then []
          else [Leased(name, vm.name, r.looked.value, now, vm.networks, spec.network, inputs.dhcp)]))
  }

  /** The provider id and the provider status once `vm` was found. The id is built from the status as
      stored, not from the one in memory. */
  function Identified(s: Session, vm: Vm, inputs: Inputs, now: int): Session
    requires s.machine.status.service.Some?
  {
    var id := ProviderId.Format(inputs.region, inputs.zone, s.machine.status.service.value, vm.id);
    s.(machine := s.machine.(providerId := Some(id)),
       status := SetProviderStatus(s.status, Some(vm), Conditions.Success(), now))
  }

  /** The pools after the recorded internal IP, if there is one, was registered. */
  function PoolsUpdated(v: Vpc, addresses: seq<NodeAddress>, spec: Spec, inputs: Inputs): (Vpc, Outcome)
    requires Ordered(spec, inputs)
  {
    var ip := InternalIpOf(addresses);
    if ip == "" then (v, Done) else UpdateLoadBalancers(v, spec, inputs, ip)
  }

  function UpdateFound(s: Session, name: string, vm: Vm, spec: Spec, inputs: Inputs, now: int): (Session, Outcome)
    requires Ordered(spec, inputs) && s.machine.status.service.Some?
  {
    var s1 := WithAddresses(Identified(s, vm, inputs, now), name, vm, spec, inputs, now);
    var (v, o) := PoolsUpdated(s1.vpc, s1.machine.addresses, spec, inputs);
    if o != Done then (s1.(vpc := v), Failed) else RequeueIfBuilding(s1.(vpc := v), vm, now)
  }

  function Update(s: Session, name: string, spec: Spec, inputs: Inputs, now: int): (Session, Outcome)
    requires Ordered(spec, inputs)
  {
    if !spec.labelled then (s, Failed)
    else
      var (p, found) := GetMachineInstance(s.power, s.status.instance, name);
      if !found.Found? || s.machine.status.service.None? then (s.(power := p), Failed)
      else UpdateFound(s.(power := p), name, found.vm, spec, inputs, now)
  }

  /** The pools after the recorded internal IP, if there is one, was deregistered. */
  function PoolsCleaned(v: Vpc, addresses: seq<NodeAddress>, spec: Spec, inputs: Inputs): (Vpc, Outcome)
    requires Ordered(spec, inputs)
  {
    var ip := InternalIpOf(addresses);
    if ip == "" then (v, Done) else RemoveFromLoadBalancers(v, spec, inputs, ip)
  }

  function DeleteFound(s: Session, name: string, vm: Vm, spec: Spec, inputs: Inputs): (Session, Outcome)
    requires Ordered(spec, inputs)
  {
    var (v, o) := PoolsCleaned(s.vpc, s.machine.addresses, spec, inputs);
    if o != Done then (s.(vpc := v), Failed)
    else
      var (p, ok) := DeleteInstance(s.power, vm.id);
      if ok then (s.(vpc := v, power := p, cache := s.cache - {name}), Done) else (s.(vpc := v, power := p), Failed)
  }

  function Delete(s: Session, name: string, spec: Spec, inputs: Inputs): (Session, Outcome)
    requires Ordered(spec, inputs)
  {
    var (p, found) := GetMachineInstance(s.power, s.status.instance, name);
    match found
    case Broken => (s.(power := p), Failed)
    case NotFound => (s.(power := p, cache := s.cache - {name}), Done)
    case Found(vm) => DeleteFound(s.(power := p), name, vm, spec, inputs)
  }
}
