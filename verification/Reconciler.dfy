/** The reconciler and the actuator as objects that change the services and the Machine object step
    by step, proved against the functions of module Machines. */
module Reconciler {
  import opened Calls
  import opened LoadBalancers
  import opened LoadBalancerClient
  import opened Addresses
  import opened Machines
  import opened Outcomes
  import Conditions
  import ProviderId
  import Listing

  /** The VMs of all service instances. */
  class Cloud {
    var vms: map<string, seq<Vm>>
    var issued: map<string, string>

    constructor (vms: map<string, seq<Vm>>, issued: map<string, string>)
      ensures this.vms == vms && this.issued == issued
    {
      this.vms, this.issued := vms, issued;
    }
  }

  /** A client bound to one service instance. */
  class PowerClient {
    const cloud: Cloud
    const service: string
    var script: seq<Reply>

    constructor (cloud: Cloud, service: string, script: seq<Reply>)
      ensures this.cloud == cloud && this.service == service && this.script == script
    {
      this.cloud, this.service, this.script := cloud, service, script;
    }

    ghost function View(): Power
      reads this, cloud
    {
      Power(VmsIn(cloud.vms, service), cloud.issued, script)
    }

    // No call reaches another service instance.
    twostate predicate OthersKept()
      reads this, cloud
    {
      forall other :: other != service ==> VmsIn(cloud.vms, other) == old(VmsIn(cloud.vms, other))
    }

    method Reply() returns (r: Reply)
      modifies `script
      ensures r == Answer(old(script)) && script == Rest(old(script))
    {
      r := Answer(script);
      script := Rest(script);
    }

    method GetInstance(id: string) returns (r: Lookup)
      modifies `script
      ensures (View(), r) == Machines.GetInstance(old(View()), id)
    {
      var answer := Reply();
      var vm := FindVm(VmsIn(cloud.vms, service), id);
      r := if answer.fault == Served && vm.Some? then Found(vm.value) else Broken;
    }

    method GetInstanceByName(name: string) returns (r: Lookup)
      modifies `script
      ensures (View(), r) == Machines.GetInstanceByName(old(View()), name)
    {
      var answer := Reply();
      if answer.fault != Served {
        return Broken;
      }
      var vms := VmsIn(cloud.vms, service);
      for i := 0 to |vms|
        invariant View() == Called(old(View()))
        invariant FindNamed(vms, name) == FindNamed(vms[i..], name)
      {
        if vms[i].name == name {
          r := GetInstance(vms[i].id);
          return;
        }
      }
      r := NotFound;
    }

    method DeleteInstance(id: string) returns (ok: bool)
      modifies this, cloud
      ensures (View(), ok) == Machines.DeleteInstance(old(View()), id) && OthersKept()
    {
      var answer := Reply();
      if answer.fault != Refused {
        cloud.vms := cloud.vms[service := RemoveVm(VmsIn(cloud.vms, service), id)];
      }
      ok := answer.fault == Served;
    }

    method CreateInstance(vm: Vm, mentioned: bool) returns (ids: Option<seq<string>>)
      modifies this, cloud
      ensures (View(), ids) == Machines.CreateInstance(old(View()), vm, mentioned) && OthersKept()
    {
      var answer := Reply();
      var id := answer.text;
      if answer.fault == Refused || id == "" || id in cloud.issued {
        return None;
      }
      cloud.vms := cloud.vms[service := VmsIn(cloud.vms, service) + [vm.(id := id)]];
      cloud.issued := cloud.issued[id := vm.name];
      if answer.fault == Lost {
        return None;
      }
      ids := Some(if mentioned then [id] else []);
    }
  }

  method ApplicationLoadBalancerNames(refs: seq<LbRef>) returns (names: seq<string>)
    ensures names == ApplicationNames(refs)
  {
    names := [];
    for i := 0 to |refs|
      invariant names == ApplicationNames(refs[..i])
    {
      assert refs[..i + 1][..i] == refs[..i];
      if refs[i].kind == APPLICATION {
        names := names + [refs[i].name];
      }
    }
    assert refs[..|refs|] == refs;
  }

  /** The API server's record of one Machine object. */
  class MachineStore {
    var history: seq<Machine>

    constructor (m: Machine)
      ensures history == [m]
    {
      history := [m];
    }

    // Patches reach the spec or the status; each sends the difference between `base` and `changed`.
    method PatchSpec(base: Machine, changed: Machine, fault: Fault) returns (ok: bool)
      requires history != []
      modifies this
      ensures ok == (fault == Served)
      ensures history == if fault == Refused then old(history) else
                var stored := old(history)[|old(history)| - 1];
                old(history) + [stored.(providerId := Merge(base.providerId, changed.providerId, stored.providerId))]
    {
      var stored := history[|history| - 1];
      if fault != Refused {
        history := history + [stored.(providerId := Merge(base.providerId, changed.providerId, stored.providerId))];
      }
      ok := fault == Served;
    }

    method PatchStatus(base: Machine, changed: Machine, fault: Fault) returns (ok: bool)
      requires history != []
      modifies this
      ensures ok == (fault == Served)
      ensures history == if fault == Refused then old(history) else
                var stored := old(history)[|old(history)| - 1];
                old(history) + [stored.(status := MergeStatus(base.status, changed.status, stored.status),
                                        addresses := Merge(base.addresses, changed.addresses, stored.addresses))]
    {
      var stored := history[|history| - 1];
      if fault != Refused {
        history := history + [stored.(status := MergeStatus(base.status, changed.status, stored.status),
                                      addresses := Merge(base.addresses, changed.addresses, stored.addresses))];
      }
      ok := fault == Served;
    }
  }

  /******* Listing the load balancers *******/

  /** `used` is `inputs` with what paging over `d` delivered, if it was done, and some order. */
  ghost predicate Uses(inputs: Inputs, used: Inputs, listed: bool, d: Listing.Directory) {
    used == inputs.(order := used.order, listing := if listed then Listing.Delivered(Listing.Watched(d)) else None)
  }

  /** The session in which Update begins to list the load balancers; None when it never does. */
  ghost function Updating(s: Session, name: string, spec: Spec, inputs: Inputs, now: int): Option<Session> {
    var (p, found) := Machines.GetMachineInstance(s.power, s.status.instance, name);
    if !spec.labelled || !found.Found? || s.machine.status.service.None? then None
    else
      var s1 := WithAddresses(Identified(s.(power := p), found.vm, inputs, now), name, found.vm, spec, inputs, now);
      if Lists(s1.machine.addresses, spec) then Some(s1) else None
  }

  /** The same for Delete. */
  ghost function Deleting(s: Session, name: string, spec: Spec): Option<Session> {
    var (p, found) := Machines.GetMachineInstance(s.power, s.status.instance, name);
    if found.Found? && Lists(s.machine.addresses, spec) then Some(s.(power := p)) else None
  }

  /** Update led from session `s` to session `s'`: to its end, or, when the listing goes on beyond the rounds
      watched, to where the listing begins. */
  ghost predicate Updated(s: Session, s': Session, name: string, spec: Spec, inputs: Inputs, d: Listing.Directory,
                          now: int, ended: bool, o: Outcome, used: Inputs) {
    var paging := Updating(s, name, spec, inputs, now);
    && Uses(inputs, used, paging.Some?, d) && Ordered(spec, used)
    && ended == (paging.Some? ==> Listing.Watched(d).Halted?)
    && if ended then (s', o) == Machines.Update(s, name, spec, used, now) else s' == paging.value
  }

  ghost predicate Deleted(s: Session, s': Session, name: string, spec: Spec, inputs: Inputs, d: Listing.Directory,
                          ended: bool, o: Outcome, used: Inputs) {
    var paging := Deleting(s, name, spec);
    && Uses(inputs, used, paging.Some?, d) && Ordered(spec, used)
    && ended == (paging.Some? ==> Listing.Watched(d).Halted?)
    && if ended then (s', o) == Machines.Delete(s, name, spec, used) else s' == paging.value
  }

  class MachineReconciler {
    const name: string
    const spec: Spec
    const power: PowerClient
    const vpc: VpcClient
    const store: TtlStore
    var machine: Machine
    var status: ProviderStatus
    ghost var lookups: seq<Leased>

    constructor (name: string, spec: Spec, power: PowerClient, vpc: VpcClient, store: TtlStore,
                 machine: Machine, status: ProviderStatus, ghost lookups: seq<Leased>)
      ensures this.name == name && this.spec == spec
      ensures this.power == power && this.vpc == vpc && this.store == store
      ensures View() == Session(power.View(), vpc.View(), store.entries, lookups, machine, status)
    {
      this.name, this.spec, this.power, this.vpc, this.store := name, spec, power, vpc, store;
      this.machine, this.status, this.lookups := machine, status, lookups;
    }

    ghost function View(): Session
      reads this, power, power.cloud, vpc, store
    {
      Session(power.View(), vpc.View(), store.entries, lookups, machine, status)
    }

    method GetMachineInstance() returns (r: Lookup)
      modifies power`script
      ensures (power.View(), r) == Machines.GetMachineInstance(old(power.View()), status.instance, name)
    {
      if status.instance.Some? && status.instance.value != "" {
        r := power.GetInstance(status.instance.value);
        if r.Found? {
          return;
        }
      }
      r := power.GetInstanceByName(name);
    }

    method SetProviderStatus(vm: Option<Vm>, condition: Conditions.Condition, now: int)
      modifies `status
      ensures status == Machines.SetProviderStatus(old(status), vm, condition, now)
    {
      if vm.None? {
        status := status.(instance := None, state := None);
      } else {
        status := status.(instance := Some(vm.value.id), state := Some(vm.value.status));
      }
      var conditions := Conditions.SetProviderCondition(condition, status.conditions, now);
      status := status.(conditions := conditions);
    }

    method RequeueIfInstanceBuilding(vm: Vm, now: int) returns (o: Outcome)
      modifies `status
      ensures (View(), o) == RequeueIfBuilding(old(View()), vm, now)
    {
      if vm.status == BUILD {
        SetProviderStatus(Some(vm), Conditions.Build(), now);
        return Requeue;
      }
      o := Done;
    }

    method Exists(now: int) returns (e: Existence)
      modifies power`script
      ensures (power.View(), e) == Machines.Exists(old(power.View()), machine, status, name, now)
    {
      var r := GetMachineInstance();
      if r.Broken? {
        return Unknown;
      }
      if r.NotFound? {
        if machine.providerId.Some? && machine.providerId.value != ""
           && (machine.lastUpdated.None? || machine.lastUpdated.value + REQUEUE_AFTER > now) {
          return Unknown;
        }
        return Absent;
      }
      e := Present;
    }

    method RemoveStopped() returns (ok: bool)
      modifies power, power.cloud
      ensures (power.View(), ok) == RemoveStoppedMachine(old(power.View()), name) && power.OthersKept()
    {
      var r := power.GetInstanceByName(name);
      match r {
        case Broken => return false;
        case NotFound => return true;
        case Found(vm) =>
          if vm.status == SHUTOFF {
            ok := power.DeleteInstance(vm.id);
          } else {
            ok := true;
          }
      }
    }

    method Launch(inputs: Inputs) returns (vm: Option<Vm>)
      modifies power, power.cloud
      ensures (power.View(), vm) == LaunchInstance(old(power.View()), name, inputs) && power.OthersKept()
    {
      if !inputs.launchable {
        return None;
      }
      var ids := power.CreateInstance(inputs.newborn.(name := name), inputs.mentioned);
      if ids.None? || ids.value == [] {
        return None;
      }
      var r := power.GetInstance(ids.value[0]);
      vm := if r.Found? then Some(r.vm) else None;
    }

    method Create(inputs: Inputs, now: int) returns (o: Outcome)
      modifies this, power, power.cloud
      ensures (View(), o) == Machines.Create(old(View()), name, spec, inputs, now) && power.OthersKept()
    {
      if !spec.labelled {
        return Failed;
      }
      if inputs.master == Some(false) {
        var ok := RemoveStopped();
        if !ok {
          return Failed;
        }
      }
      if !inputs.userData {
        return Failed;
      }
      var vm := Launch(inputs);
      if vm.None? {
        SetProviderStatus(None, Conditions.Failure(inputs.message), now);
        return Failed;
      }
      o := RequeueIfInstanceBuilding(vm.value, now);
    }

    method SetProviderID(vm: Vm, inputs: Inputs) returns (ok: bool)
      modifies `machine
      ensures ok == old(machine).status.service.Some?
      ensures ok ==>
                var service := old(machine).status.service.value;
                machine == old(machine).(
                  providerId := Some(ProviderId.Format(inputs.region, inputs.zone, service, vm.id)))
      ensures !ok ==> machine == old(machine)
    {
      if machine.status.service.None? {
        return false;
      }
      var id := ProviderId.Format(inputs.region, inputs.zone, machine.status.service.value, vm.id);
      if machine.providerId.Some? && machine.providerId.value == id {
        return true;
      }
      machine := machine.(providerId := Some(id));
      ok := true;
    }

    method SetMachineAddresses(vm: Vm, inputs: Inputs, now: int)
      modifies `machine, `lookups, store
      ensures View() == WithAddresses(old(View()), name, vm, spec, inputs, now)
    {
      var addresses, looked, failed := ResolveAddresses(store, vm.name, vm.networks, spec.network, inputs.dhcp, now);
      machine := machine.(addresses := addresses);
      if looked.Some? {
        lookups := lookups + [Leased(name, vm.name, looked.value, now, vm.networks, spec.network, inputs.dhcp)];
      }
    }

    /** `used` are the inputs with what paging delivered and the order of ranging over the map; not ended
        means that the listing was still being paged through after the last round watched. */
    method UpdateLoadBalancers(inputs: Inputs, d: Listing.Directory)
      returns (ended: bool, o: Outcome, ghost used: Inputs)
      modifies vpc
      ensures Uses(inputs, used, Lists(machine.addresses, spec), d)
      ensures ended == (Lists(machine.addresses, spec) ==> Listing.Watched(d).Halted?)
      ensures Ordered(spec, used)
      ensures if ended then (vpc.View(), o) == PoolsUpdated(old(vpc.View()), machine.addresses, spec, used)
              else vpc.View() == old(vpc.View())
    {
      used := inputs.(listing := None, order := []);
      var ip := GetMachineInternalIp(machine.addresses);
      if ip == "" {
        return true, Done, used;
      }
      var names := ApplicationLoadBalancerNames(spec.loadBalancers);
      if names == [] {
        return true, Done, used;
      }
      var found;
      ended, found := Listing.GetLoadBalancers(d, names);
      used := used.(listing := Listing.Delivered(Listing.Watched(d)));
      if found.None? {
        return ended, Failed, used;
      }
      var order;
      o, order := CreateLoadBalancerPoolMember(vpc, found.value, ip);
      used := used.(order := order);
    }

    method RemoveFromApplicationLoadBalancers(inputs: Inputs, d: Listing.Directory)
      returns (ended: bool, o: Outcome, ghost used: Inputs)
      modifies vpc
      ensures Uses(inputs, used, Lists(machine.addresses, spec), d)
      ensures ended == (Lists(machine.addresses, spec) ==> Listing.Watched(d).Halted?)
      ensures Ordered(spec, used)
      ensures if ended then (vpc.View(), o) == PoolsCleaned(old(vpc.View()), machine.addresses, spec, used)
              else vpc.View() == old(vpc.View())
    {
      used := inputs.(listing := None, order := []);
      var ip := GetMachineInternalIp(machine.addresses);
      if ip == "" {
        return true, Done, used;
      }
      var names := ApplicationLoadBalancerNames(spec.loadBalancers);
      if names == [] {
        return true, Done, used;
      }
      var found;
      ended, found := Listing.GetLoadBalancers(d, names);
      used := used.(listing := Listing.Delivered(Listing.Watched(d)));
      if found.None? {
        return ended, Failed, used;
      }
      var order;
      o, order := DeleteLoadBalancerPoolMember(vpc, found.value, ip);
      used := used.(order := order);
    }

    method Update(inputs: Inputs, d: Listing.Directory, now: int) returns (ended: bool, o: Outcome, ghost used: Inputs)
      modifies this, power`script, vpc, store
      ensures Uses(inputs, used, Updating(old(View()), name, spec, inputs, now).Some?, d)
      ensures ended == (Updating(old(View()), name, spec, inputs, now).Some? ==> Listing.Watched(d).Halted?)
      ensures Ordered(spec, used)
      ensures if ended then (View(), o) == Machines.Update(old(View()), name, spec, used, now)
              else View() == Updating(old(View()), name, spec, inputs, now).value
    {
      used := inputs.(listing := None, order := []);
      if !spec.labelled {
        return true, Failed, used;
      }
      var found := GetMachineInstance();
      if !found.Found? {
        return true, Failed, used;
      }
      var ok := SetProviderID(found.vm, inputs);
      if !ok {
        return true, Failed, used;
      }
      SetProviderStatus(Some(found.vm), Conditions.Success(), now);
      SetMachineAddresses(found.vm, inputs, now);
      ended, o, used := UpdateLoadBalancers(inputs, d);
      if !ended {
        return;
      }
      if o != Done {
        return true, Failed, used;
      }
      o := RequeueIfInstanceBuilding(found.vm, now);
    }

    method Delete(inputs: Inputs, d: Listing.Directory) returns (ended: bool, o: Outcome, ghost used: Inputs)
      modifies this, power, power.cloud, vpc, store
      ensures power.OthersKept()
      ensures Uses(inputs, used, Deleting(old(View()), name, spec).Some?, d)
      ensures ended == (Deleting(old(View()), name, spec).Some? ==> Listing.Watched(d).Halted?)
      ensures Ordered(spec, used)
      ensures if ended then (View(), o) == Machines.Delete(old(View()), name, spec, used)
              else View() == Deleting(old(View()), name, spec).value
    {
      used := inputs.(listing := None, order := []);
      var found := GetMachineInstance();
      if found.Broken? {
        return true, Failed, used;
      }
      if found.NotFound? {
        store.Delete(name);
        return true, Done, used;
      }
      ended, o, used := RemoveFromApplicationLoadBalancers(inputs, d);
      if !ended {
        return;
      }
      if o != Done {
        return true, Failed, used;
      }
      var ok := power.DeleteInstance(found.vm.id);
      if !ok {
        return true, Failed, used;
      }
      store.Delete(name);
    }

    /** Writes the provider status into the object, patches, puts the status back over the server's
        answer and patches the status. */
    method PatchMachine(kube: MachineStore, base: Machine, inputs: Inputs) returns (ok: bool)
      requires kube.history != []
      modifies `machine, kube
      ensures kube.history == old(kube.history)
                + Patch(old(kube.history)[|old(kube.history)| - 1], base, old(View()), inputs.patch, inputs.patchStatus)
      ensures ok == (inputs.patch == Served && inputs.patchStatus == Served)
    {
      machine := machine.(status := status);
      var copy := machine;
      ok := kube.PatchSpec(base, machine, inputs.patch);
      if !ok {
        return;
      }
      machine := kube.history[|kube.history| - 1];
      machine := machine.(status := copy.status, addresses := copy.addresses, lastUpdated := copy.lastUpdated);
      ok := kube.PatchStatus(base, machine, inputs.patchStatus);
    }
  }

  /** One machine as the actuator sees it: the services, the cache, and the stored object. For each scope it
      builds a VM client bound to the scope's service instance, which `inputs.power` answers. */
  class Actuator {
    const cloud: Cloud
    const vpc: VpcClient
    const store: TtlStore
    const kube: MachineStore
    ghost var lookups: seq<Leased>

    constructor (cloud: Cloud, vpc: VpcClient, store: TtlStore, kube: MachineStore)
      ensures this.cloud == cloud && this.vpc == vpc && this.store == store && this.kube == kube && lookups == []
    {
      this.cloud, this.vpc, this.store, this.kube, lookups := cloud, vpc, store, kube, [];
    }

    // The session in which an operation on `m` begins.
    ghost function Start(m: Machine, st: ProviderStatus, inputs: Inputs): Session
      reads this, cloud, vpc, store
      requires st.service.Some?
    {
      Session(Power(VmsIn(cloud.vms, st.service.value), cloud.issued, inputs.power), vpc.View(), store.entries, lookups,
              m, st)
    }

    // What the operation left of the services, the cache and the log of lookups is that of session `s`, and
    // no other service instance was touched.
    twostate predicate Left(st: ProviderStatus, s: Session)
      reads this, cloud, vpc, store
      requires st.service.Some?
    {
      && VmsIn(cloud.vms, st.service.value) == s.power.vms && cloud.issued == s.power.issued
      && (forall other :: other != st.service.value ==> VmsIn(cloud.vms, other) == old(VmsIn(cloud.vms, other)))
      && vpc.View() == s.vpc && store.entries == s.cache && lookups == s.lookups
    }

    // Nothing was done, for want of a scope.
    twostate predicate Idle()
      reads this, cloud, vpc, store, kube
    {
      && cloud.vms == old(cloud.vms) && cloud.issued == old(cloud.issued) && vpc.View() == old(vpc.View())
      && store.entries == old(store.entries) && lookups == old(lookups) && kube.history == old(kube.history)
    }

    // The operation ended in session `s` and was patched.
    twostate predicate Committed(m: Machine, st: ProviderStatus, s: Session, inputs: Inputs)
      reads this, cloud, vpc, store, kube
      requires st.service.Some?
    {
      && Left(st, s)
      && old(kube.history) != []
      && kube.history == old(kube.history)
           + Patch(old(kube.history)[|old(kube.history)| - 1], m, s, inputs.patch, inputs.patchStatus)
    }

    // The operation has come as far as session `s`, and nothing was patched.
    twostate predicate Reached(st: ProviderStatus, s: Session)
      reads this, cloud, vpc, store, kube
      requires st.service.Some?
    {
      Left(st, s) && kube.history == old(kube.history)
    }

    // The caller learns of success only when the operation is done and both patches are confirmed.
    ghost predicate Confirmed(o: Outcome, inputs: Inputs) {
      o == Done && inputs.patch == Served && inputs.patchStatus == Served
    }

    method NewMachineScope(m: Machine, inputs: Inputs) returns (st: Option<ProviderStatus>)
      ensures st == OpenScope(m, inputs)
    {
      var status := m.status;
      if status.service.None? {
        if inputs.service.None? {
          return None;
        }
        status := status.(service := inputs.service);
      }
      st := if inputs.client then Some(status) else None;
    }

    method Exists(name: string, spec: Spec, m: Machine, inputs: Inputs, now: int) returns (e: Existence)
      ensures var st := OpenScope(m, inputs);
              if st.None? then e == Unknown
              else e == Machines.Exists(Start(m, st.value, inputs).power, m, st.value, name, now).1
    {
      var st := NewMachineScope(m, inputs);
      if st.None? {
        return Unknown;
      }
      var power := new PowerClient(cloud, st.value.service.value, inputs.power);
      var r := new MachineReconciler(name, spec, power, vpc, store, m, st.value, lookups);
      e := r.Exists(now);
    }

    method Create(name: string, spec: Spec, m: Machine, inputs: Inputs, now: int) returns (ok: bool)
      requires kube.history != []
      modifies this, cloud, vpc, store, kube
      ensures var st := OpenScope(m, inputs);
              if st.None? then !ok && Idle()
              else
                var (s, o) := Machines.Create(old(Start(m, st.value, inputs)), name, spec, inputs, now);
                Committed(m, st.value, s, inputs) && ok == Confirmed(o, inputs)
    {
      var st := NewMachineScope(m, inputs);
      if st.None? {
        return false;
      }
      var power := new PowerClient(cloud, st.value.service.value, inputs.power);
      var r := new MachineReconciler(name, spec, power, vpc, store, m, st.value, lookups);
      var o := r.Create(inputs, now);
      lookups := r.lookups;
      ok := r.PatchMachine(kube, m, inputs);
      ok := ok && o == Done;
    }

    // The reconciler of a new scope, run to its end or to where the listing goes on.
    method RunUpdate(name: string, spec: Spec, m: Machine, st: ProviderStatus, inputs: Inputs, d: Listing.Directory,
                     now: int)
      returns (r: MachineReconciler, ended: bool, o: Outcome, ghost used: Inputs)
      requires st.service.Some?
      modifies this, cloud, vpc, store
      ensures fresh(r) && fresh(r.power) && r.power.cloud == cloud && r.vpc == vpc && r.store == store
      ensures Updated(old(Start(m, st, inputs)), r.View(), name, spec, inputs, d, now, ended, o, used)
      ensures Left(st, r.View())
    {
      var power := new PowerClient(cloud, st.service.value, inputs.power);
      r := new MachineReconciler(name, spec, power, vpc, store, m, st, lookups);
      ended, o, used := r.Update(inputs, d, now);
      lookups := r.lookups;
    }

    method RunDelete(name: string, spec: Spec, m: Machine, st: ProviderStatus, inputs: Inputs, d: Listing.Directory)
      returns (r: MachineReconciler, ended: bool, o: Outcome, ghost used: Inputs)
      requires st.service.Some?
      modifies this, cloud, vpc, store
      ensures fresh(r) && fresh(r.power) && r.power.cloud == cloud && r.vpc == vpc && r.store == store
      ensures Deleted(old(Start(m, st, inputs)), r.View(), name, spec, inputs, d, ended, o, used)
      ensures Left(st, r.View())
    {
      var power := new PowerClient(cloud, st.service.value, inputs.power);
      r := new MachineReconciler(name, spec, power, vpc, store, m, st, lookups);
      ended, o, used := r.Delete(inputs, d);
      lookups := r.lookups;
    }

    /** `s` is the session in which the operation ended with outcome `o`. Not ended means that the listing of
        the load balancers goes on beyond the rounds watched; nothing was patched then. */
    method Update(name: string, spec: Spec, m: Machine, inputs: Inputs, d: Listing.Directory, now: int)
      returns (ended: bool, ok: bool, ghost s: Session, ghost o: Outcome, ghost used: Inputs)
      requires kube.history != []
      modifies this, cloud, vpc, store, kube
      ensures var st := OpenScope(m, inputs);
              if st.None? then ended && !ok && Idle()
              else
                && Updated(old(Start(m, st.value, inputs)), s, name, spec, inputs, d, now, ended, o, used)
                && if ended then Committed(m, st.value, s, inputs) && ok == Confirmed(o, inputs)
                   else Reached(st.value, s)
    {
      ended, ok, used := true, false, inputs;
      s, o := Session(Power([], map[], []), vpc.View(), store.entries, lookups, m, m.status), Failed;
      var st := NewMachineScope(m, inputs);
      if st.None? {
        return;
      }
      var r, outcome;
      r, ended, outcome, used := RunUpdate(name, spec, m, st.value, inputs, d, now);
      s, o := r.View(), outcome;
      if ended {
        ok := r.PatchMachine(kube, m, inputs);
        ok := ok && outcome == Done;
      }
    }

    method Delete(name: string, spec: Spec, m: Machine, inputs: Inputs, d: Listing.Directory)
      returns (ended: bool, ok: bool, ghost s: Session, ghost o: Outcome, ghost used: Inputs)
      requires kube.history != []
      modifies this, cloud, vpc, store, kube
      ensures var st := OpenScope(m, inputs);
              if st.None? then ended && !ok && Idle()
              else
                && Deleted(old(Start(m, st.value, inputs)), s, name, spec, inputs, d, ended, o, used)
                && if ended then Committed(m, st.value, s, inputs) && ok == Confirmed(o, inputs)
                   else Reached(st.value, s)
    {
      ended, ok, used := true, false, inputs;
      s, o := Session(Power([], map[], []), vpc.View(), store.entries, lookups, m, m.status), Failed;
      var st := NewMachineScope(m, inputs);
      if st.None? {
        return;
      }
      var r, outcome;
      r, ended, outcome, used := RunDelete(name, spec, m, st.value, inputs, d);
      s, o := r.View(), outcome;
      if ended {
        ok := r.PatchMachine(kube, m, inputs);
        ok := ok && outcome == Done;
      }
    }
  }
}
