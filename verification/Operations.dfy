/** What each operation on one machine may do, seen from outside: to the VMs, to the id of the VM it
    records, to the load balancer pools. */
module Operations {
  import opened Calls
  import opened LoadBalancers
  import opened Addresses
  import opened Machines
  import Registration
  import Deregistration
  import Conditions
  import ProviderId

  /******* Looking a VM up *******/

  ghost predicate PowerOk(p: Power) {
    UniqueIds(p.vms) && forall vm :: vm in p.vms ==> IssuedTo(p.issued, vm.id, vm.name)
  }

  ghost predicate IssuedTo(issued: map<string, string>, id: string, name: string) {
    id in issued && issued[id] == name
  }

  ghost predicate UniqueIds(vms: seq<Vm>) {
    forall i, j :: 0 <= i < j < |vms| ==> vms[i].id != vms[j].id
  }

  ghost predicate NoneNamed(vms: seq<Vm>, name: string) {
    forall vm :: vm in vms ==> vm.name != name
  }

  ghost predicate AtMostOne(vms: seq<Vm>, name: string) {
    forall i, j :: 0 <= i < j < |vms| ==> !(vms[i].name == name && vms[j].name == name)
  }

  /** A recorded instance id was given to a VM of this name. */
  ghost predicate Owned(issued: map<string, string>, name: string, instance: Option<string>) {
    instance.Some? && instance.value != "" ==> IssuedTo(issued, instance.value, name)
  }

  lemma {:induction false} FindVmIs(vms: seq<Vm>, id: string)
    ensures FindVm(vms, id).Some? ==> FindVm(vms, id).value in vms && FindVm(vms, id).value.id == id
    ensures FindVm(vms, id).None? ==> forall vm :: vm in vms ==> vm.id != id
  {
    if vms != [] {
      FindVmIs(vms[1..], id);
      assert forall vm :: vm in vms <==> vm == vms[0] || vm in vms[1..];
    }
  }

  lemma {:induction false} FindNamedIs(vms: seq<Vm>, name: string)
    ensures FindNamed(vms, name).Some? ==> FindNamed(vms, name).value in vms && FindNamed(vms, name).value.name == name
    ensures FindNamed(vms, name).None? <==> NoneNamed(vms, name)
  {
    if vms != [] {
      FindNamedIs(vms[1..], name);
      assert forall vm :: vm in vms <==> vm == vms[0] || vm in vms[1..];
    }
  }

  lemma {:induction false} RemoveVmIs(vms: seq<Vm>, id: string)
    ensures forall vm :: vm in RemoveVm(vms, id) <==> vm in vms && vm.id != id
  {
    if vms != [] {
      RemoveVmIs(vms[1..], id);
      assert forall vm :: vm in vms <==> vm == vms[0] || vm in vms[1..];
    }
  }

  lemma NamesCons(vm: Vm, vms: seq<Vm>, name: string)
    ensures AtMostOne([vm] + vms, name) <==> AtMostOne(vms, name) && (vm.name == name ==> NoneNamed(vms, name))
  {
    var all := [vm] + vms;
    assert all[0] == vm && forall i :: 0 <= i < |vms| ==> all[i + 1] == vms[i];
    if AtMostOne(all, name) {
      forall i, j | 0 <= i < j < |vms| ensures !(vms[i].name == name && vms[j].name == name) {
        assert !(all[i + 1].name == name && all[j + 1].name == name);
      }
    }
  }

  lemma IdsCons(vm: Vm, vms: seq<Vm>)
    ensures UniqueIds([vm] + vms) <==> UniqueIds(vms) && (forall other :: other in vms ==> other.id != vm.id)
  {
    var all := [vm] + vms;
    assert all[0] == vm && forall i :: 0 <= i < |vms| ==> all[i + 1] == vms[i];
    if UniqueIds(all) {
      forall i, j | 0 <= i < j < |vms| ensures vms[i].id != vms[j].id {
        assert all[i + 1].id != all[j + 1].id;
      }
    }
  }

  lemma {:induction false} RemoveVmKeeps(vms: seq<Vm>, id: string, name: string)
    ensures UniqueIds(vms) ==> UniqueIds(RemoveVm(vms, id))
    ensures AtMostOne(vms, name) ==> AtMostOne(RemoveVm(vms, id), name)
  {
    if vms != [] {
      RemoveVmKeeps(vms[1..], id, name);
      RemoveVmIs(vms[1..], id);
      assert vms == [vms[0]] + vms[1..];
      NamesCons(vms[0], vms[1..], name);
      NamesCons(vms[0], RemoveVm(vms[1..], id), name);
      IdsCons(vms[0], vms[1..]);
      IdsCons(vms[0], RemoveVm(vms[1..], id));
    }
  }

  lemma ByNameIs(p: Power, name: string)
    requires PowerOk(p)
    ensures var (p', r) := GetInstanceByName(p, name);
            && p'.vms == p.vms && p'.issued == p.issued
            && (r.Found? ==> r.vm in p.vms && r.vm.name == name)
            && (r.NotFound? ==> NoneNamed(p.vms, name))
  {
    FindNamedIs(p.vms, name);
    if FindNamed(p.vms, name).Some? {
      FindVmIs(p.vms, FindNamed(p.vms, name).value.id);
    }
  }

  /** Lookup by id with fallback to the name changes nothing, finds only VMs of the machine's own
      name, and reports absence only when there is none. */
  lemma LookupIsSound(p: Power, instance: Option<string>, name: string)
    requires PowerOk(p) && Owned(p.issued, name, instance)
    ensures var (p', r) := GetMachineInstance(p, instance, name);
            && p'.vms == p.vms && p'.issued == p.issued
            && (r.Found? ==> r.vm in p.vms && r.vm.name == name)
            && (r.NotFound? ==> NoneNamed(p.vms, name))
  {
    if instance.Some? && instance.value != "" {
      FindVmIs(p.vms, instance.value);
      ByNameIs(GetInstance(p, instance.value).0, name);
    } else {
      ByNameIs(p, name);
    }
  }

  /** A lookup none of whose calls fails tells whether a VM of the name exists. */
  lemma LookupIsComplete(p: Power, instance: Option<string>, name: string)
    requires PowerOk(p) && Owned(p.issued, name, instance)
    requires |p.script| >= 3 && forall i :: 0 <= i < 3 ==> p.script[i].fault == Served
    ensures GetMachineInstance(p, instance, name).1.Found? <==> !NoneNamed(p.vms, name)
  {
    LookupIsSound(p, instance, name);
    FindNamedIs(p.vms, name);
    assert Rest(p.script)[0] == p.script[1] && Rest(Rest(p.script))[0] == p.script[2];
    if FindNamed(p.vms, name).Some? {
      FindVmIs(p.vms, FindNamed(p.vms, name).value.id);
    }
  }

  /** Absence is reported only when no VM of the name exists and, for a machine that had a VM before,
      only when its object was last updated at least twenty seconds ago; presence only for a VM. */
  lemma ExistsIsSound(p: Power, m: Machine, st: ProviderStatus, name: string, now: int)
    requires PowerOk(p) && Owned(p.issued, name, st.instance)
    ensures var (p', e) := Exists(p, m, st, name, now);
            && p'.vms == p.vms && p'.issued == p.issued
            && (e == Absent ==> NoneNamed(p.vms, name))
            && (e == Absent && m.providerId.Some? && m.providerId.value != "" ==>
                  m.lastUpdated.Some? && now - m.lastUpdated.value >= 20 * SECOND)
            && (e == Present ==> !NoneNamed(p.vms, name))
  {
    LookupIsSound(p, st.instance, name);
  }

  /******* Create *******/

  /** At most one VM is added, under the machine's name and with a new id. */
  ghost predicate Launched(p: Power, p': Power, name: string) {
    || (p'.vms == p.vms && p'.issued == p.issued)
    || (&& |p'.vms| == |p.vms| + 1 && p'.vms[..|p.vms|] == p.vms
        && p'.vms[|p.vms|].name == name
        && p'.vms[|p.vms|].id != "" && p'.vms[|p.vms|].id !in p.issued
        && p'.issued == p.issued[p'.vms[|p.vms|].id := name])
  }

  lemma LaunchEffect(p: Power, name: string, inputs: Inputs)
    requires PowerOk(p)
    ensures var (p', r) := LaunchInstance(p, name, inputs);
            && Launched(p, p', name)
            && (r.Some? ==> |p'.vms| == |p.vms| + 1 && r.value == p'.vms[|p.vms|])
  {
    if inputs.launchable {
      var (p1, ids) := CreateInstance(p, inputs.newborn.(name := name), inputs.mentioned);
      if ids.Some? && ids.value != [] {
        FindVmIs(p1.vms, ids.value[0]);
      }
    }
  }

  lemma RemoveStoppedIs(p: Power, name: string)
    requires PowerOk(p)
    ensures var p' := RemoveStoppedMachine(p, name).0;
            && PowerOk(p') && p'.issued == p.issued
            && (forall vm :: vm in p'.vms ==> vm in p.vms)
            && (forall vm :: vm in p.vms && vm !in p'.vms ==> vm.name == name && vm.status == SHUTOFF)
            && (NoneNamed(p.vms, name) ==> p'.vms == p.vms)
  {
    ByNameIs(p, name);
    var (p1, r) := GetInstanceByName(p, name);
    if r.Found? && r.vm.status == SHUTOFF {
      RemovedIsOk(p, DeleteInstance(p1, r.vm.id).0, r.vm);
    }
  }

  lemma RemovedIsOk(p: Power, p': Power, vm: Vm)
    requires PowerOk(p) && vm in p.vms
    requires p'.issued == p.issued && (p'.vms == p.vms || p'.vms == RemoveVm(p.vms, vm.id))
    ensures PowerOk(p') && forall v :: v in p'.vms ==> v in p.vms
    ensures forall v :: v in p.vms && v !in p'.vms ==> v == vm
  {
    RemoveVmIs(p.vms, vm.id);
    RemoveVmKeeps(p.vms, vm.id, vm.name);
    IdNamesOne(p.vms, vm);
  }

  lemma IdNamesOne(vms: seq<Vm>, vm: Vm)
    requires UniqueIds(vms) && vm in vms
    ensures forall other :: other in vms && other.id == vm.id ==> other == vm
  {
  }

  // The VMs once a stopped one of the name was removed, where Create does that.
  function Remaining(p: Power, name: string, spec: Spec, inputs: Inputs): Power {
    if spec.labelled && inputs.master == Some(false) then RemoveStoppedMachine(p, name).0 else p
  }

  // At most a stopped VM of the name is gone, and none when no VM of the name exists.
  lemma RemainingIs(p: Power, name: string, spec: Spec, inputs: Inputs)
    requires PowerOk(p)
    ensures var p' := Remaining(p, name, spec, inputs);
            && PowerOk(p') && p'.issued == p.issued
            && (forall vm :: vm in p'.vms ==> vm in p.vms)
            && (forall vm :: vm in p.vms && vm !in p'.vms ==>
                  vm.name == name && vm.status == SHUTOFF && inputs.master == Some(false))
            && (NoneNamed(p.vms, name) ==> p'.vms == p.vms)
  {
    RemoveStoppedIs(p, name);
  }

  /** Create: once a stopped VM of the name was removed, at most one VM of the name is added, and the
      recorded instance id afterwards is the old one, none, or that of the added VM. */
  lemma CreateEffect(s: Session, name: string, spec: Spec, inputs: Inputs, now: int)
    requires PowerOk(s.power)
    ensures var s', p := Create(s, name, spec, inputs, now).0, Remaining(s.power, name, spec, inputs);
            && Launched(p, s'.power, name)
            && s' == s.(power := s'.power, status := s'.status)
            && s'.status.service == s.status.service
            && (|| s'.status.instance == s.status.instance || s'.status.instance == None
                || (|s'.power.vms| == |p.vms| + 1 && s'.status.instance == Some(s'.power.vms[|p.vms|].id)))
  {
    RemoveStoppedIs(s.power, name);
    LaunchEffect(Remaining(s.power, name, spec, inputs), name, inputs);
  }

  // Create gets as far as a call that creates a VM.
  ghost predicate Launches(p: Power, name: string, spec: Spec, inputs: Inputs) {
    var answer := Answer(Remaining(p, name, spec, inputs).script);
    && Attempted(p, name, spec, inputs) && inputs.launchable
    && answer.fault != Refused && answer.text != "" && answer.text !in p.issued
  }

  /** Exactly when Create keeps at most one VM of the name, whatever was there: when it creates none, or
      when none was left. Create itself does not look. */
  lemma CreateDuplicatesExactly(s: Session, name: string, spec: Spec, inputs: Inputs, now: int)
    requires PowerOk(s.power) && AtMostOne(s.power.vms, name)
    ensures AtMostOne(Create(s, name, spec, inputs, now).0.power.vms, name) <==>
            !Launches(s.power, name, spec, inputs) || NoneNamed(Remaining(s.power, name, spec, inputs).vms, name)
  {
    var p, s' := Remaining(s.power, name, spec, inputs), Create(s, name, spec, inputs, now).0;
    RemainingKeeps(s.power, name, spec, inputs);
    CreateAdds(s, name, spec, inputs, now);
    if Launches(s.power, name, spec, inputs) {
      AddedAtMostOne(p.vms, s'.power.vms, name);
    }
  }

  lemma AddedAtMostOne(vms: seq<Vm>, vms': seq<Vm>, name: string)
    requires |vms'| == |vms| + 1 && vms'[..|vms|] == vms && vms'[|vms|].name == name && AtMostOne(vms, name)
    ensures AtMostOne(vms', name) <==> NoneNamed(vms, name)
  {
    assert forall i :: 0 <= i < |vms| ==> vms'[i] == vms[i];
    if vm :| vm in vms && vm.name == name {
      var i :| 0 <= i < |vms| && vms[i] == vm;
      assert vms'[i].name == name && vms'[|vms|].name == name;
    }
  }

  lemma CreateAdds(s: Session, name: string, spec: Spec, inputs: Inputs, now: int)
    ensures var p, p' := Remaining(s.power, name, spec, inputs), Create(s, name, spec, inputs, now).0.power;
            p'.vms ==
            if Launches(s.power, name, spec, inputs)
            then p.vms + [Newborn(name, Answer(p.script).text, inputs)] else p.vms
  {
    CreatePower(s, name, spec, inputs, now);
    LaunchAdds(Remaining(s.power, name, spec, inputs), name, inputs);
  }

  // Whether Create comes to the launch, and what is left of the service instance then.
  ghost predicate Attempted(p: Power, name: string, spec: Spec, inputs: Inputs) {
    spec.labelled && inputs.userData && (inputs.master == Some(false) ==> RemoveStoppedMachine(p, name).1)
  }

  lemma CreatePower(s: Session, name: string, spec: Spec, inputs: Inputs, now: int)
    ensures var p := Remaining(s.power, name, spec, inputs);
            Create(s, name, spec, inputs, now).0.power ==
            if Attempted(s.power, name, spec, inputs) then LaunchInstance(p, name, inputs).0 else p
  {
  }

  lemma LaunchAdds(p: Power, name: string, inputs: Inputs)
    ensures var p', answer := LaunchInstance(p, name, inputs).0, Answer(p.script);
            p'.vms ==
            if inputs.launchable && answer.fault != Refused && answer.text != "" && answer.text !in p.issued
            then p.vms + [Newborn(name, answer.text, inputs)] else p.vms
  {
  }

  lemma RemainingKeeps(p: Power, name: string, spec: Spec, inputs: Inputs)
    requires AtMostOne(p.vms, name)
    ensures AtMostOne(Remaining(p, name, spec, inputs).vms, name)
  {
    var (p1, r) := GetInstanceByName(p, name);
    if r.Found? {
      RemoveVmKeeps(p.vms, r.vm.id, name);
    }
  }

  /** Even where Create runs while a VM of the name exists, it removes no VM but a stopped one of that
      name, and none at all for a control plane machine or when that cannot be determined. */
  lemma CreateRemovesOnlyStopped(s: Session, name: string, spec: Spec, inputs: Inputs, now: int, vm: Vm)
    requires PowerOk(s.power) && vm in s.power.vms && vm !in Create(s, name, spec, inputs, now).0.power.vms
    ensures vm.name == name && vm.status == SHUTOFF && inputs.master == Some(false)
  {
    RemoveStoppedIs(s.power, name);
    var p1 := if inputs.master == Some(false) then RemoveStoppedMachine(s.power, name).0 else s.power;
    LaunchEffect(p1, name, inputs);
  }

  // The VM that a served launch brings up.
  function Newborn(name: string, id: string, inputs: Inputs): Vm {
    inputs.newborn.(name := name, id := id)
  }

  lemma LaunchServed(p: Power, name: string, inputs: Inputs)
    requires PowerOk(p) && inputs.launchable && inputs.mentioned
    requires |p.script| >= 2 && p.script[0].fault == Served && p.script[1].fault == Served
    requires p.script[0].text != "" && p.script[0].text !in p.issued
    ensures var (p', r) := LaunchInstance(p, name, inputs);
            var vm := Newborn(name, p.script[0].text, inputs);
            p'.vms == p.vms + [vm] && p'.issued == p.issued[vm.id := name] && r == Some(vm)
  {
    var vm := Newborn(name, p.script[0].text, inputs);
    var p1 := CreateInstance(p, inputs.newborn.(name := name), true).0;
    assert p1.vms == p.vms + [vm] && vm in p1.vms;
    assert p1.script[0] == p.script[1];
    assert UniqueIds(p1.vms);
    FindVmById(p1.vms, vm);
  }

  lemma NothingToRemove(p: Power, name: string)
    requires NoneNamed(p.vms, name) && Answer(p.script).fault == Served
    ensures RemoveStoppedMachine(p, name) == (Called(p), true)
  {
    FindNamedIs(p.vms, name);
  }

  /** A Create that meets no failure makes exactly one VM, of the machine's name and with the id that the
      service handed out, and succeeds or asks for a requeue. For machines outside the control plane, or
      without a node yet, one more call comes first: the listing that looks for a stopped VM. */
  lemma HealthyCreateSucceeds(s: Session, name: string, spec: Spec, inputs: Inputs, now: int)
    requires PowerOk(s.power) && NoneNamed(s.power.vms, name)
    requires spec.labelled && inputs.userData && inputs.launchable && inputs.mentioned
    requires CreateServed(s.power.issued, s.power.script, inputs)
    ensures var (s', o) := Create(s, name, spec, inputs, now);
            var vm := Newborn(name, s.power.script[CreateCall(inputs)].text, inputs);
            && o == (if vm.status == BUILD then Requeue else Done)
            && s'.power.vms == s.power.vms + [vm] && s'.power.issued == s.power.issued[vm.id := name]
  {
    if inputs.master == Some(false) {
      NothingToRemove(s.power, name);
      assert Called(s.power).script[0] == s.power.script[1] && Called(s.power).script[1] == s.power.script[2];
      LaunchServed(Called(s.power), name, inputs);
    } else {
      LaunchServed(s.power, name, inputs);
    }
  }

  // Which of its calls creates the VM.
  function CreateCall(inputs: Inputs): nat {
    if inputs.master == Some(false) then 1 else 0
  }

  // The calls of a Create are served, and the id handed out is new.
  ghost predicate CreateServed(issued: map<string, string>, script: seq<Reply>, inputs: Inputs) {
    var k := CreateCall(inputs);
    && |script| >= k + 2 && (forall i :: 0 <= i < k + 2 ==> script[i].fault == Served)
    && script[k].text != "" && script[k].text !in issued
  }

  /******* Update *******/

  lemma UpdateFoundFrame(s: Session, name: string, vm: Vm, spec: Spec, inputs: Inputs, now: int)
    requires Ordered(spec, inputs) && s.machine.status.service.Some?
    ensures var s' := UpdateFound(s, name, vm, spec, inputs, now).0;
            var s1 := WithAddresses(Identified(s, vm, inputs, now), name, vm, spec, inputs, now);
            && s'.power == s.power && s'.machine == s1.machine
            && s'.cache == s1.cache && s'.lookups == s1.lookups
            && s'.vpc == PoolsUpdated(s.vpc, s1.machine.addresses, spec, inputs).0
            && s'.status.service == s.status.service && s'.status.instance == Some(vm.id)
  {
  }

  /** Update changes no VM. It writes a provider id only from a recorded service instance id, and it
      records only instance ids of VMs of the machine's own name. */
  lemma UpdateEffect(s: Session, name: string, spec: Spec, inputs: Inputs, now: int)
    requires Ordered(spec, inputs)
    requires PowerOk(s.power) && Owned(s.power.issued, name, s.status.instance)
    ensures var s' := Update(s, name, spec, inputs, now).0;
            && s'.power.vms == s.power.vms && s'.power.issued == s.power.issued
            && s'.status.service == s.status.service
            && s'.machine.status == s.machine.status
            && (|| (s'.status.instance == s.status.instance && s'.machine.providerId == s.machine.providerId)
                || exists vm :: Recorded(s, s', name, vm, inputs))
  {
    LookupIsSound(s.power, s.status.instance, name);
    var (p, r) := GetMachineInstance(s.power, s.status.instance, name);
    if r.Found? && s.machine.status.service.Some? {
      UpdateFoundFrame(s.(power := p), name, r.vm, spec, inputs, now);
      if spec.labelled {
        assert Recorded(s, Update(s, name, spec, inputs, now).0, name, r.vm, inputs);
      }
    }
  }

  ghost predicate Recorded(s: Session, s': Session, name: string, vm: Vm, inputs: Inputs) {
    && vm in s.power.vms && vm.name == name && s.machine.status.service.Some?
    && s'.status.instance == Some(vm.id)
    && var service := s.machine.status.service.value;
       s'.machine.providerId == Some(ProviderId.Format(inputs.region, inputs.zone, service, vm.id))
  }

  lemma UpdateFoundReports(s: Session, name: string, vm: Vm, spec: Spec, inputs: Inputs, now: int)
    requires Ordered(spec, inputs) && s.machine.status.service.Some? && Conditions.OneReport(s.status.conditions)
    ensures var (s', o) := UpdateFound(s, name, vm, spec, inputs, now);
            && s'.status.state == Some(vm.status)
            && (o != Failed ==> (o == Requeue <==> vm.status == BUILD))
            && Conditions.Reports(
                 s'.status.conditions, if o == Requeue then Conditions.Build() else Conditions.Success())
  {
  }

  /** One DHCP lookup was logged for machine `name`, under its own name, and cached as of now. */
  ghost predicate LoggedLookup(s: Session, s': Session, name: string, now: int) {
    var n := |s.lookups|;
    && |s'.lookups| == n + 1 && s'.lookups[..n] == s.lookups
    && var e := s'.lookups[n];
       && e.machine == e.key == name && e.at == now
       && DhcpIp(e.spec, e.networks, e.dhcp) == Some(e.ip)
       && s'.cache == s.cache[name := Entry(e.ip, now)]
  }

  // What Update does to the cache, and what it logs.
  lemma UpdateCaches(s: Session, name: string, spec: Spec, inputs: Inputs, now: int)
    requires Ordered(spec, inputs)
    requires PowerOk(s.power) && Owned(s.power.issued, name, s.status.instance)
    ensures var s' := Update(s, name, spec, inputs, now).0;
            || (s'.lookups == s.lookups && (s'.cache == s.cache || s'.cache == s.cache - {name}))
            || LoggedLookup(s, s', name, now)
  {
    LookupIsSound(s.power, s.status.instance, name);
    var (p, r) := GetMachineInstance(s.power, s.status.instance, name);
    if r.Found? && s.machine.status.service.Some? {
      UpdateFoundFrame(s.(power := p), name, r.vm, spec, inputs, now);
      ResolveSpec(r.vm.name, r.vm.networks, spec.network, inputs.dhcp, s.cache, now);
    }
  }

  lemma PoolsUpdatedEffect(v: Vpc, addresses: seq<NodeAddress>, spec: Spec, inputs: Inputs)
    requires Ordered(spec, inputs)
    ensures var (v', o) := PoolsUpdated(v, addresses, spec, inputs);
            var ip := InternalIpOf(addresses);
            && (v' == v || (ip != "" && Selected(spec, inputs).Some?
                              && Grew(v, v', MapTargets(Selected(spec, inputs).value), ip)))
            && (o == Done && ip != "" && ApplicationNames(spec.loadBalancers) != [] ==>
                  && Selected(spec, inputs).Some?
                  && Contents(v') == Registered(Contents(v), MapTargets(Selected(spec, inputs).value), ip))
  {
    if Selected(spec, inputs).Some? {
      var lbs, ip := Selected(spec, inputs).value, InternalIpOf(addresses);
      PlanCoversMap(lbs, inputs.order);
      Registration.RegisterExact(v, Plan(lbs, inputs.order), ip, MapTargets(lbs));
      Registration.RegisterMeetsIntent(v, Plan(lbs, inputs.order), ip);
    }
  }

  /** Update registers exactly the internal IP it records, with exactly the load balancers of the
      spec; with no internal IP it makes no load balancer call at all. */
  lemma UpdateRegisters(s: Session, name: string, spec: Spec, inputs: Inputs, now: int)
    requires Ordered(spec, inputs)
    ensures var (s', o) := Update(s, name, spec, inputs, now);
            var ip := InternalIpOf(s'.machine.addresses);
            && (s'.vpc == s.vpc || (ip != "" && Selected(spec, inputs).Some?
                  && Grew(s.vpc, s'.vpc, MapTargets(Selected(spec, inputs).value), ip)))
            && (o != Failed && ip != "" && ApplicationNames(spec.loadBalancers) != [] ==>
                  && Selected(spec, inputs).Some?
                  && Contents(s'.vpc) == Registered(Contents(s.vpc), MapTargets(Selected(spec, inputs).value), ip))
  {
    var (s', _) := Update(s, name, spec, inputs, now);
    PoolsUpdatedEffect(s.vpc, s'.machine.addresses, spec, inputs);
    var (p, r) := GetMachineInstance(s.power, s.status.instance, name);
    if r.Found? && s.machine.status.service.Some? {
      UpdateFoundFrame(s.(power := p), name, r.vm, spec, inputs, now);
    }
  }

  /******* Delete *******/

  lemma VmsOfLookup(p: Power, instance: Option<string>, name: string)
    ensures GetMachineInstance(p, instance, name).0.vms == p.vms
  {
  }

  /** Delete removes at most one VM, of the machine's own name, and never touches the Machine object.
      A Delete that reports success leaves nothing under the machine's name in the cache. */
  lemma DeleteEffect(s: Session, name: string, spec: Spec, inputs: Inputs)
    requires Ordered(spec, inputs)
    requires PowerOk(s.power) && Owned(s.power.issued, name, s.status.instance)
    ensures var (s', o) := Delete(s, name, spec, inputs);
            && s'.power.issued == s.power.issued
            && s'.machine == s.machine && s'.status == s.status && s'.lookups == s.lookups
            && s'.cache == (if o == Done then s.cache - {name} else s.cache)
            && (|| s'.power.vms == s.power.vms
                || exists vm :: vm in s.power.vms && vm.name == name && s'.power.vms == RemoveVm(s.power.vms, vm.id))
  {
    LookupIsSound(s.power, s.status.instance, name);
    var (p, found) := GetMachineInstance(s.power, s.status.instance, name);
    if found.Found? {
      DeleteFoundFrame(s.(power := p), name, found.vm, spec, inputs);
    }
  }

  lemma DeleteFoundFrame(s: Session, name: string, vm: Vm, spec: Spec, inputs: Inputs)
    requires Ordered(spec, inputs)
    ensures var (s', o) := DeleteFound(s, name, vm, spec, inputs);
            var (v, cleaned) := PoolsCleaned(s.vpc, s.machine.addresses, spec, inputs);
            && s'.vpc == v && s'.machine == s.machine && s'.status == s.status && s'.lookups == s.lookups
            && s'.cache == (if o == Done then s.cache - {name} else s.cache)
            && s'.power.issued == s.power.issued
            && (s'.power.vms == s.power.vms || (cleaned == Done && s'.power.vms == RemoveVm(s.power.vms, vm.id)))
            && (o == Done ==> cleaned == Done)
  {
  }

  // The pools an IP has to leave before the VM may go.
  ghost function DeletionKeys(spec: Spec, inputs: Inputs): set<PoolKey> {
    if ApplicationNames(spec.loadBalancers) == [] || Selected(spec, inputs).None? then {}
    else MapKeys(Selected(spec, inputs).value)
  }

  lemma PoolsCleanedEffect(v: Vpc, addresses: seq<NodeAddress>, spec: Spec, inputs: Inputs)
    requires Ordered(spec, inputs) && Valid(v) && InternalIpOf(addresses) != ""
    ensures var (v', o) := PoolsCleaned(v, addresses, spec, inputs);
            && Shrank(v, v', DeletionKeys(spec, inputs), InternalIpOf(addresses)) && Valid(v')
            && (o == Done ==>
                  && (ApplicationNames(spec.loadBalancers) != [] ==> Selected(spec, inputs).Some?)
                  && Deregistration.NoneHave(v', DeletionKeys(spec, inputs), InternalIpOf(addresses))
                  && v'.pools == Deregistered(v.pools, DeletionKeys(spec, inputs), InternalIpOf(addresses)))
  {
    var ip := InternalIpOf(addresses);
    if ApplicationNames(spec.loadBalancers) != [] && Selected(spec, inputs).Some? {
      var lbs := Selected(spec, inputs).value;
      PlanCoversMap(lbs, inputs.order);
      Deregistration.DeregisterExact(v, Plan(lbs, inputs.order), ip);
      var (v', o) := DeregisterAll(v, Plan(lbs, inputs.order), ip);
      if o == Done {
        Deregistration.ShrankToDeregistered(v, v', MapKeys(lbs), ip);
      }
    } else {
      assert Deregistered(v.pools, {}, ip) == v.pools;
    }
  }

  /** Ordering of deletion. Only members with the recorded internal IP ever leave a pool. If a VM is
      gone afterwards, no pool of any of the machine's load balancers, bootstrap pools included, holds
      the IP any more, and all other members are as before. So if deregistration did not complete,
      the VM is still there. */
  lemma DeleteOrdering(s: Session, name: string, spec: Spec, inputs: Inputs)
    requires Ordered(spec, inputs) && Valid(s.vpc)
    requires InternalIpOf(s.machine.addresses) != ""
    ensures var (s', o) := Delete(s, name, spec, inputs);
            var ip := InternalIpOf(s.machine.addresses);
            && Shrank(s.vpc, s'.vpc, DeletionKeys(spec, inputs), ip)
            && Valid(s'.vpc)
            && (s'.power.vms != s.power.vms ==>
                  && (ApplicationNames(spec.loadBalancers) != [] ==> Selected(spec, inputs).Some?)
                  && s'.vpc.pools == Deregistered(s.vpc.pools, DeletionKeys(spec, inputs), ip)
                  && Deregistration.NoneHave(s'.vpc, DeletionKeys(spec, inputs), ip))
  {
    PoolsCleanedEffect(s.vpc, s.machine.addresses, spec, inputs);
    VmsOfLookup(s.power, s.status.instance, name);
    var (p, found) := GetMachineInstance(s.power, s.status.instance, name);
    if found.Found? {
      DeleteFoundFrame(s.(power := p), name, found.vm, spec, inputs);
    }
  }

  ghost predicate Clean(v: Vpc, keys: set<PoolKey>, ip: string) {
    forall k :: k in keys && k in v.pools ==> !Has(v.pools[k], ip)
  }

  // Whether Delete takes the IP out of the pools of the machine's load balancers.
  ghost predicate Deregisters(s: Session, name: string, ip: string) {
    && GetMachineInstance(s.power, s.status.instance, name).1.Found?
    && ip != "" && ip == InternalIpOf(s.machine.addresses)
  }

  /** Exactly which pools a Delete that reports success leaves clean, for every IP and every set of pools:
      those that were clean before, and those of the machine's load balancers if the lookup found the VM
      and the IP is the one recorded at that moment. Any other IP that was ever registered for the machine
      stays. */
  lemma DeleteCleansExactly(s: Session, name: string, spec: Spec, inputs: Inputs, ip: string, keys: set<PoolKey>)
    requires Ordered(spec, inputs) && Valid(s.vpc)
    requires Delete(s, name, spec, inputs).1 == Done
    ensures Clean(Delete(s, name, spec, inputs).0.vpc, keys, ip) <==>
            Clean(s.vpc, if Deregisters(s, name, ip) then keys - DeletionKeys(spec, inputs) else keys, ip)
  {
    var (p, found) := GetMachineInstance(s.power, s.status.instance, name);
    if found.Found? {
      DeleteFoundFrame(s.(power := p), name, found.vm, spec, inputs);
      var recorded := InternalIpOf(s.machine.addresses);
      if recorded != "" {
        PoolsCleanedEffect(s.vpc, s.machine.addresses, spec, inputs);
        var v' := Delete(s, name, spec, inputs).0.vpc;
        forall k | k in s.vpc.pools && ip != recorded ensures Has(v'.pools[k], ip) == Has(s.vpc.pools[k], ip) {
          WithoutKeepsOthers(s.vpc.pools[k], recorded, ip);
        }
      }
    }
  }

  lemma WithoutKeepsOthers(members: seq<Member>, gone: string, ip: string)
    requires ip != gone
    ensures Has(Without(members, gone), ip) == Has(members, ip)
  {
    Deregistration.WithoutMembers(members, gone);
    HasIs(members, ip);
    HasIs(Without(members, gone), ip);
  }

  lemma HasIs(members: seq<Member>, ip: string)
    ensures Has(members, ip) <==> exists m :: m in members && m.target == Address(ip)
  {
    if m :| m in members && m.target == Address(ip) {
      var i :| 0 <= i < |members| && members[i] == m;
    }
  }

  /** The first failing family: a machine whose VM is gone, whether or not an instance id is recorded, is
      deleted without a load balancer call, so that its IP stays in every pool that holds it. */
  lemma AbsentVmKeepsMembers(s: Session, name: string, spec: Spec, inputs: Inputs)
    requires Ordered(spec, inputs) && PowerOk(s.power) && Owned(s.power.issued, name, s.status.instance)
    requires NoneNamed(s.power.vms, name)
    requires |s.power.script| >= 2 && s.power.script[0].fault == Served && s.power.script[1].fault == Served
    ensures Delete(s, name, spec, inputs).1 == Done && Delete(s, name, spec, inputs).0.vpc == s.vpc
  {
    FindNamedIs(s.power.vms, name);
    assert Rest(s.power.script)[0] == s.power.script[1];
    if s.status.instance.Some? {
      FindVmIs(s.power.vms, s.status.instance.value);
    }
  }

  /** The second: an Update that finds no address on the VM, none in the cache and none through DHCP
      forgets the internal IP that was recorded and registered before. A Delete on that record removes
      the VM without a load balancer call. */
  lemma FailedLookupKeepsMembers(s: Session, name: string, vm: Vm, spec: Spec, up: Inputs, down: Inputs, now: int)
    requires Ordered(spec, up) && Ordered(spec, down)
    requires PowerOk(s.power) && Owned(s.power.issued, name, s.status.instance)
    requires AtMostOne(s.power.vms, name) && spec.labelled && s.machine.status.service.Some?
    requires GetMachineInstance(s.power, s.status.instance, name).1 == Found(vm)
    requires NoAddresses(vm.networks) && Cached(s.cache, name, now).None?
    requires DhcpIp(spec.network, vm.networks, up.dhcp).None?
    requires |down.power| >= 4 && forall i :: 0 <= i < 4 ==> down.power[i].fault == Served
    ensures var s1 := Update(s, name, spec, up, now).0;
            var (s2, o) := Delete(Refreshed(s1, down), name, spec, down);
            && InternalIpOf(s1.machine.addresses) == "" && s1.vpc == s.vpc
            && o == Done && s2.power.vms == RemoveVm(s.power.vms, vm.id) && s2.vpc.pools == s.vpc.pools
  {
    LookupIsSound(s.power, s.status.instance, name);
    var s0 := s.(power := GetMachineInstance(s.power, s.status.instance, name).0);
    UpdateFoundFrame(s0, name, vm, spec, up, now);
    ResolveSpec(vm.name, vm.networks, spec.network, up.dhcp, s.cache, now);
    NoIpAmong(vm.networks);
    var s1 := Update(s, name, spec, up, now).0;
    DeleteWithoutIp(Refreshed(s1, down), name, vm, spec, down);
  }

  lemma {:induction false} NoIpAmong(networks: seq<Network>)
    requires NoAddresses(networks)
    ensures FirstIp(networks).None?
  {
    if networks != [] {
      assert Blank(networks[0]);
      NoIpAmong(networks[1..]);
    }
  }

  lemma FindVmById(vms: seq<Vm>, vm: Vm)
    requires UniqueIds(vms) && vm in vms
    ensures FindVm(vms, vm.id) == Some(vm)
  {
    FindVmIs(vms, vm.id);
    IdNamesOne(vms, vm);
  }

  lemma DeleteWithoutIp(s: Session, name: string, vm: Vm, spec: Spec, inputs: Inputs)
    requires Ordered(spec, inputs) && InternalIpOf(s.machine.addresses) == ""
    requires s.status.instance == Some(vm.id) && UniqueIds(s.power.vms) && AtMostOne(s.power.vms, name)
    requires vm in s.power.vms && vm.name == name
    requires |s.power.script| >= 4 && forall i :: 0 <= i < 4 ==> s.power.script[i].fault == Served
    ensures var (s', o) := Delete(s, name, spec, inputs);
            o == Done && s'.power.vms == RemoveVm(s.power.vms, vm.id) && s'.vpc == s.vpc
  {
    var a := Rest(s.power.script);
    var b := Rest(a);
    assert a[0] == s.power.script[1] && b[0] == s.power.script[2];
    FindVmById(s.power.vms, vm);
    FindOnlyNamed(s.power.vms, vm);
  }

  lemma FindOnlyNamed(vms: seq<Vm>, vm: Vm)
    requires AtMostOne(vms, vm.name) && vm in vms
    ensures FindNamed(vms, vm.name) == Some(vm)
  {
    FindNamedIs(vms, vm.name);
    var found := FindNamed(vms, vm.name).value;
    var i, j :| 0 <= i < |vms| && 0 <= j < |vms| && vms[i] == vm && vms[j] == found;
  }

  /******* Patching *******/

  /** What is stored, for every end of the two patches: nothing when the first is refused; only the
      provider id unless the first is confirmed and the second takes effect; then all that the reconcile
      did, if it read the stored version. Fields that a reconcile on a stale copy did not change keep what
      others stored since. */
  lemma PatchStores(stored: Machine, base: Machine, s: Session, first: Fault, second: Fault)
    requires s.machine.lastUpdated == base.lastUpdated
    ensures var vs := Patch(stored, base, s, first, second);
            && |vs| == (if first == Refused then 0 else if first == Lost || second == Refused then 1 else 2)
            && (|vs| >= 1 ==>
                  && vs[0] == stored.(providerId := vs[0].providerId)
                  && (base == stored ==> vs[0].providerId == s.machine.providerId)
                  && (if s.machine.providerId == base.providerId then vs[0] == stored
                      else vs[0].providerId == s.machine.providerId))
            && (|vs| == 2 ==>
                  && vs[1].providerId == vs[0].providerId && vs[1].lastUpdated == stored.lastUpdated
                  && (base == stored ==> vs[1] == s.machine.(status := s.status))
                  && Merged(base.addresses, s.machine.addresses, stored.addresses, vs[1].addresses)
                  && var (b, c, d, r) := (base.status, s.status, stored.status, vs[1].status);
                     && Merged(b.service, c.service, d.service, r.service)
                     && Merged(b.instance, c.instance, d.instance, r.instance)
                     && Merged(b.state, c.state, d.state, r.state)
                     && Merged(b.conditions, c.conditions, d.conditions, r.conditions))
  {
  }

  // What was changed since the copy was read is stored, and what was not keeps what others stored.
  ghost predicate Merged<T>(base: T, changed: T, stored: T, result: T) {
    (changed != base ==> result == changed) && (changed == base ==> result == stored)
  }

  /******* Repeated deletion *******/

  /** Deletion tried again and again, each time with new answers from the services. */
  function Deletes(s: Session, name: string, spec: Spec, tries: seq<Inputs>): Session
    requires forall t :: t in tries ==> Ordered(spec, t)
  {
    if tries == [] then s
    else
      var n := |tries| - 1;
      var s1 := Deletes(s, name, spec, tries[..n]);
      Delete(Refreshed(s1, tries[n]), name, spec, tries[n]).0
  }

  function Refreshed(s: Session, inputs: Inputs): Session {
    s.(power := s.power.(script := inputs.power), vpc := s.vpc.(script := inputs.vpc))
  }

  /** However often deletion failed before, wherever it stopped, and whatever part of the load balancers it
      could list, an attempt that removes the VM having seen them all ends with the pools that one
      uninterrupted deletion would have left. */
  lemma {:induction false} DeleteRetries(s: Session, name: string, spec: Spec, tries: seq<Inputs>, keys: set<PoolKey>)
    requires forall t :: t in tries ==> Ordered(spec, t) && DeletionKeys(spec, t) <= keys
    requires Valid(s.vpc) && InternalIpOf(s.machine.addresses) != ""
    ensures var s' := Deletes(s, name, spec, tries);
            var ip := InternalIpOf(s.machine.addresses);
            && s'.machine == s.machine && Valid(s'.vpc) && Shrank(s.vpc, s'.vpc, keys, ip)
            && (tries != [] && DeletionKeys(spec, tries[|tries| - 1]) == keys
                && s'.power.vms != Deletes(s, name, spec, tries[..|tries| - 1]).power.vms ==>
                  s'.vpc.pools == Deregistered(s.vpc.pools, keys, ip))
  {
    if tries != [] {
      var n, ip := |tries| - 1, InternalIpOf(s.machine.addresses);
      assert tries[n] in tries;
      DeleteRetries(s, name, spec, tries[..n], keys);
      var s1 := Refreshed(Deletes(s, name, spec, tries[..n]), tries[n]);
      DeleteOrdering(s1, name, spec, tries[n]);
      var s2 := Delete(s1, name, spec, tries[n]).0;
      Deregistration.ShrankMore(s1.vpc, s2.vpc, DeletionKeys(spec, tries[n]), keys, ip);
      Deregistration.ShrankTwice(s.vpc, s1.vpc, s2.vpc, keys, keys, ip);
      assert keys + keys == keys;
      assert s2.machine == s1.machine by {
        var (p, found) := GetMachineInstance(s1.power, s1.status.instance, name);
        if found.Found? {
          DeleteFoundFrame(s1.(power := p), name, found.vm, spec, tries[n]);
        }
      }
      if DeletionKeys(spec, tries[n]) == keys && s2.power.vms != s1.power.vms {
        Deregistration.ShrankToDeregistered(s.vpc, s2.vpc, keys, ip);
      }
    }
  }
}
