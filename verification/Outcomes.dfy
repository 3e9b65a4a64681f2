/** How each operation on one machine ends, exactly: which VM it takes, what it records, and in which cases
    it fails with what left behind. */
module Outcomes {
  import opened Calls
  import opened LoadBalancers
  import opened Addresses
  import opened Machines
  import opened Operations
  import Registration
  import Deregistration
  import Conditions
  import Listing

  /******* Which VM a lookup gives *******/

  ghost predicate FirstVm(vms: seq<Vm>, name: string, i: int) {
    0 <= i < |vms| && vms[i].name == name && forall j :: 0 <= j < i ==> vms[j].name != name
  }

  lemma {:induction false} FindNamedExactly(vms: seq<Vm>, name: string, vm: Vm)
    ensures FindNamed(vms, name) == Some(vm) <==> exists i :: FirstVm(vms, name, i) && vms[i] == vm
  {
    if vms != [] {
      var rest := vms[1..];
      FindNamedExactly(rest, name, vm);
      if vms[0].name == name {
        assert FirstVm(vms, name, 0);
      } else {
        forall i | 0 <= i < |rest| ensures FirstVm(rest, name, i) <==> FirstVm(vms, name, i + 1) {
          assert forall j :: 0 <= j < |rest| ==> vms[j + 1] == rest[j];
          assert forall j :: 0 < j < |vms| ==> vms[j] == rest[j - 1];
        }
        if i :| FirstVm(vms, name, i) && vms[i] == vm {
          assert FirstVm(rest, name, i - 1);
        }
      }
    }
  }

  /** While the VM with the recorded id exists and the call for it is served, the lookup gives that VM, with
      one call, whatever other VMs bear the name. */
  lemma RecordedVmIsFound(p: Power, vm: Vm, name: string)
    requires PowerOk(p) && vm in p.vms && vm.id != "" && Answer(p.script).fault == Served
    ensures GetMachineInstance(p, Some(vm.id), name) == (Called(p), Found(vm))
  {
    FindVmById(p.vms, vm);
  }

  /** Without an id, or when the call for it fails or there is no such VM, the lookup is by name. */
  lemma LookupFallsBack(p: Power, instance: Option<string>, name: string)
    ensures instance == None || instance == Some("") ==>
              GetMachineInstance(p, instance, name) == GetInstanceByName(p, name)
    ensures instance.Some? && instance.value != ""
            && (Answer(p.script).fault != Served || forall vm :: vm in p.vms ==> vm.id != instance.value) ==>
              GetMachineInstance(p, instance, name) == GetInstanceByName(Called(p), name)
  {
    if instance.Some? {
      FindVmIs(p.vms, instance.value);
    }
  }

  /** The lookup by name: one call lists the VMs, and one more reads the first of the name, if there is one. */
  lemma NamedVmIsFound(p: Power, name: string)
    requires PowerOk(p)
    ensures var (p', r) := GetInstanceByName(p, name);
            && (Answer(p.script).fault != Served ==> p' == Called(p) && r == Broken)
            && (Answer(p.script).fault == Served && NoneNamed(p.vms, name) ==> p' == Called(p) && r == NotFound)
            && (forall i :: Answer(p.script).fault == Served && FirstVm(p.vms, name, i) ==>
                  && p' == Called(Called(p))
                  && r == if Answer(Rest(p.script)).fault == Served then Found(p.vms[i]) else Broken)
  {
    FindNamedIs(p.vms, name);
    forall i | FirstVm(p.vms, name, i) ensures FindNamed(p.vms, name) == Some(p.vms[i]) {
      FindNamedExactly(p.vms, name, p.vms[i]);
    }
    if FindNamed(p.vms, name).Some? {
      FindVmById(p.vms, FindNamed(p.vms, name).value);
    }
  }

  /** Existence is what the lookup gives: present for a VM, absent without one, unless the object has a
      provider id and was last updated less than twenty seconds ago, or never; all else is unknown. */
  lemma ExistsExactly(p: Power, m: Machine, st: ProviderStatus, name: string, now: int)
    ensures var (p', e) := Exists(p, m, st, name, now);
            var (p1, r) := GetMachineInstance(p, st.instance, name);
            var young := m.lastUpdated.None? || now < m.lastUpdated.value + 20_000_000_000;
            && p' == p1
            && (e == Present <==> r.Found?)
            && (e == Absent <==> r.NotFound? && !(m.providerId.Some? && m.providerId.value != "" && young))
  {
  }

  /******* Scope *******/

  /** A scope needs a client, and a service instance id, recorded or looked up; the recorded one comes first,
      and nothing else of the status changes. */
  lemma ScopeExactly(m: Machine, inputs: Inputs, st: ProviderStatus)
    ensures OpenScope(m, inputs) == Some(st) <==>
            && inputs.client && st == m.status.(service := st.service) && st.service.Some?
            && st.service == (if m.status.service.Some? then m.status.service else inputs.service)
  {
  }

  /******* Create *******/

  /** The removal of a stopped VM: the first VM of the name goes exactly when it is shut off and the deletion
      takes effect; a failed listing, reading or deletion is reported, and nothing else is. */
  lemma RemoveStoppedExactly(p: Power, name: string)
    requires PowerOk(p)
    ensures var (p', ok) := RemoveStoppedMachine(p, name);
            var list, get, delete := Answer(p.script), Answer(Rest(p.script)), Answer(Rest(Rest(p.script)));
            && (list.fault != Served ==> !ok && p'.vms == p.vms)
            && (list.fault == Served && NoneNamed(p.vms, name) ==> ok && p'.vms == p.vms)
            && (forall i :: list.fault == Served && FirstVm(p.vms, name, i) ==>
                  if get.fault != Served then !ok && p'.vms == p.vms
                  else if p.vms[i].status != "SHUTOFF" then ok && p'.vms == p.vms
                  else
                    && ok == (delete.fault == Served)
                    && p'.vms == if delete.fault == Refused then p.vms else RemoveVm(p.vms, p.vms[i].id))
  {
    NamedVmIsFound(p, name);
  }

  /** A launch succeeds exactly when the spec resolves, the creation is served with a new id that the answer
      mentions, and the VM can be read; it then gives the VM that was made. */
  lemma LaunchExactly(p: Power, name: string, inputs: Inputs)
    requires PowerOk(p)
    ensures var r := LaunchInstance(p, name, inputs).1;
            var create, get := Answer(p.script), Answer(Rest(p.script));
            && (r.Some? <==>
                  && inputs.launchable && create.fault == Served && create.text != "" && create.text !in p.issued
                  && inputs.mentioned && get.fault == Served)
            && (r.Some? ==> r.value == inputs.newborn.(name := name, id := create.text))
  {
    if inputs.launchable && p.script != [] && p.script[0].fault != Refused && p.script[0].text != ""
       && p.script[0].text !in p.issued && inputs.mentioned {
      var vm := Newborn(name, p.script[0].text, inputs);
      var p1 := CreateInstance(p, inputs.newborn.(name := name), true).0;
      assert p1.vms == p.vms + [vm] && vm in p1.vms;
      FindVmById(p1.vms, vm);
    }
  }

  /** What Create reports, in every case. Before the launch nothing is recorded. A failed launch, whether or
      not a VM was made, clears instance id and state and stores the failure. A VM still being built is
      recorded, and asks for a requeue; success leaves the status alone. */
  lemma CreateReports(s: Session, name: string, spec: Spec, inputs: Inputs, now: int)
    requires PowerOk(s.power) && Conditions.OneReport(s.status.conditions)
    ensures var (s', o) := Create(s, name, spec, inputs, now);
            var st, launched := s'.status, LaunchInstance(Remaining(s.power, name, spec, inputs), name, inputs).1;
            if !Attempted(s.power, name, spec, inputs) then o == Failed && st == s.status
            else if launched.None? then
              && o == Failed && st.instance == None && st.state == None && st.service == s.status.service
              && Conditions.Shows(st.conditions, "False", "MachineCreationFailed", inputs.message)
            else if launched.value.status == "BUILD" then
              && o == Requeue && st.instance == Some(launched.value.id) && st.state == Some("BUILD")
              && st.service == s.status.service
              && Conditions.Shows(st.conditions, "BUILD", "InstanceBuildState", "Machine is in build state")
            else o == Done && st == s.status
  {
    Conditions.SetConditionReports(Conditions.Build(), s.status.conditions, now);
    assert Conditions.Reportable(Conditions.Failure(inputs.message));
    Conditions.SetConditionReports(Conditions.Failure(inputs.message), s.status.conditions, now);
  }

  /******* Update *******/

  /** An Update of a machine without its label does nothing; one that finds no VM, or no stored service
      instance id, only makes the calls of the lookup. Both fail. */
  lemma EarlyUpdateFails(s: Session, name: string, spec: Spec, inputs: Inputs, now: int)
    requires Ordered(spec, inputs)
    ensures !spec.labelled ==> Update(s, name, spec, inputs, now) == (s, Failed)
    ensures var (p, found) := GetMachineInstance(s.power, s.status.instance, name);
            spec.labelled && (!found.Found? || s.machine.status.service.None?) ==>
              Update(s, name, spec, inputs, now) == (s.(power := p), Failed)
  {
  }

  /** What an Update that found its VM reports, also when the load balancers fail: instance id and state of
      the VM, and success, or the build condition for a VM being built once the load balancers are done. It
      fails exactly when they do. */
  lemma UpdateReports(s: Session, name: string, vm: Vm, spec: Spec, inputs: Inputs, now: int)
    requires Ordered(spec, inputs) && spec.labelled && s.machine.status.service.Some?
    requires GetMachineInstance(s.power, s.status.instance, name).1 == Found(vm)
    requires Conditions.OneReport(s.status.conditions)
    ensures var (s', o) := Update(s, name, spec, inputs, now);
            var pools := PoolsUpdated(s.vpc, s'.machine.addresses, spec, inputs).1;
            && o == (if pools != Done then Failed else if vm.status == "BUILD" then Requeue else Done)
            && s'.status.instance == Some(vm.id) && s'.status.state == Some(vm.status)
            && s'.status.service == s.status.service && s'.machine.status == s.machine.status
            && if o == Requeue
               then Conditions.Shows(
                 s'.status.conditions, "BUILD", "InstanceBuildState", "Machine is in build state")
               else Conditions.Shows(
                 s'.status.conditions, "True", "MachineCreationSucceeded", "Machine successfully created")
  {
    var p := GetMachineInstance(s.power, s.status.instance, name).0;
    UpdateFoundFrame(s.(power := p), name, vm, spec, inputs, now);
    UpdateFoundReports(s.(power := p), name, vm, spec, inputs, now);
  }

  /** While the VM with the recorded id exists and the first call is served, Update records that VM, its
      provider id and its addresses, whatever other VMs bear the name. */
  lemma UpdateTakesRecorded(s: Session, name: string, vm: Vm, spec: Spec, inputs: Inputs, now: int)
    requires Ordered(spec, inputs) && spec.labelled && s.machine.status.service.Some? && PowerOk(s.power)
    requires s.status.instance == Some(vm.id) && vm.id != "" && vm in s.power.vms && vm.name == name
    requires Answer(s.power.script).fault == Served
    ensures var s' := Update(s, name, spec, inputs, now).0;
            && Recorded(s, s', name, vm, inputs)
            && s'.machine.addresses == Resolve(name, vm.networks, spec.network, inputs.dhcp, s.cache, now).addresses
  {
    RecordedVmIsFound(s.power, vm, name);
    UpdateFoundFrame(s.(power := Called(s.power)), name, vm, spec, inputs, now);
  }

  /** An Update that did not fail and has an internal IP to register saw every load balancer of the spec listed
      as active and with pools. */
  lemma UpdateNeedsActive(s: Session, name: string, spec: Spec, inputs: Inputs, now: int)
    requires Ordered(spec, inputs)
    ensures var (s', o) := Update(s, name, spec, inputs, now);
            o != Failed && Lists(s'.machine.addresses, spec) ==> ListedActive(spec, inputs)
  {
    var (s', o) := Update(s, name, spec, inputs, now);
    var (p, found) := GetMachineInstance(s.power, s.status.instance, name);
    if o != Failed && InternalIpOf(s'.machine.addresses) != "" && ApplicationNames(spec.loadBalancers) != [] {
      UpdateFoundFrame(s.(power := p), name, found.vm, spec, inputs, now);
      var lbs := Selected(spec, inputs).value;
      Registration.OnlyActiveBalancersChange(s.vpc, Plan(lbs, inputs.order), InternalIpOf(s'.machine.addresses));
      PlanIsListing(spec, inputs);
    }
  }

  /******* Load balancers of the spec *******/

  /** The names of the references to application load balancers, in their order. */
  lemma {:induction false} ApplicationNamesExactly(a: seq<LbRef>, b: seq<LbRef>, r: LbRef)
    ensures ApplicationNames(a + b) == ApplicationNames(a) + ApplicationNames(b)
    ensures ApplicationNames([r]) == if r.kind == "Application" then [r.name] else []
    decreases |b|
  {
    assert [r][..0] == [];
    if b == [] {
      assert a + b == a;
    } else {
      var k := |b| - 1;
      ApplicationNamesExactly(a, b[..k], r);
      assert (a + b)[..|a + b| - 1] == a + b[..k];
    }
  }

  // There is an internal IP, and an application load balancer to register it with.
  ghost predicate Lists(addresses: seq<NodeAddress>, spec: Spec) {
    InternalIpOf(addresses) != "" && ApplicationNames(spec.loadBalancers) != []
  }

  /** Every load balancer of the listing with a name of the spec, the last of each name, is listed as active
      and with pools. */
  ghost predicate ListedActive(spec: Spec, inputs: Inputs) {
    && inputs.listing.Some?
    && forall i :: Listing.LastOfName(inputs.listing.value, i)
                   && inputs.listing.value[i].name in ApplicationNames(spec.loadBalancers) ==>
         inputs.listing.value[i].status == "active" && inputs.listing.value[i].pools != []
  }

  // If all load balancers of the plan are active and have pools, so are those of the listing.
  lemma PlanIsListing(spec: Spec, inputs: Inputs)
    requires Selected(spec, inputs).Some? && Ordered(spec, inputs)
    requires forall lb :: lb in Plan(Selected(spec, inputs).value, inputs.order) ==>
               lb.state == "active" && lb.pools != []
    ensures ListedActive(spec, inputs)
  {
    var names, lbs := ApplicationNames(spec.loadBalancers), Selected(spec, inputs).value;
    Listing.SelectExact(inputs.listing, names);
    var plan := Plan(lbs, inputs.order);
    forall i | Listing.LastOfName(inputs.listing.value, i) && inputs.listing.value[i].name in names
      ensures inputs.listing.value[i].status == "active" && inputs.listing.value[i].pools != []
    {
      var lb := inputs.listing.value[i];
      assert lb.name in lbs.Keys && lb.name in inputs.order;
      var j :| 0 <= j < |inputs.order| && inputs.order[j] == lb.name;
      assert plan[j] == lbs[lb.name] && plan[j] in plan;
    }
  }

  /******* Delete *******/

  /** How Delete ends, in every case: a failed lookup changes nothing; without a VM it only forgets the cached
      IP; with one it fails while the IP could not be deregistered, and else removes exactly that VM, as far
      as the deletion takes effect, and succeeds if that is confirmed. */
  lemma DeleteExactly(s: Session, name: string, spec: Spec, inputs: Inputs)
    requires Ordered(spec, inputs)
    ensures var (s', o) := Delete(s, name, spec, inputs);
            var (p, found) := GetMachineInstance(s.power, s.status.instance, name);
            var (v, cleaned) := PoolsCleaned(s.vpc, s.machine.addresses, spec, inputs);
            match found
            case Broken => (s', o) == (s.(power := p), Failed)
            case NotFound => (s', o) == (s.(power := p, cache := s.cache - {name}), Done)
            case Found(vm) =>
              var delete := Answer(p.script).fault;
              if cleaned != Done then (s', o) == (s.(power := p, vpc := v), Failed)
              else
                && o == (if delete == Served then Done else Failed)
                && s'.vpc == v && s'.machine == s.machine && s'.status == s.status
                && s'.power.vms == (if delete == Refused then p.vms else RemoveVm(p.vms, vm.id))
                && s'.cache == (if delete == Served then s.cache - {name} else s.cache)
  {
  }

  /** While the VM with the recorded id exists and the first call is served, that VM and no other is removed. */
  lemma DeleteTakesRecorded(s: Session, name: string, vm: Vm, spec: Spec, inputs: Inputs)
    requires Ordered(spec, inputs) && PowerOk(s.power)
    requires s.status.instance == Some(vm.id) && vm.id != "" && vm in s.power.vms
    requires Answer(s.power.script).fault == Served
    ensures var (s', o) := Delete(s, name, spec, inputs);
            && (s'.power.vms == s.power.vms || s'.power.vms == RemoveVm(s.power.vms, vm.id))
            && (o == Done ==> vm !in s'.power.vms)
            && (forall other :: other in s.power.vms && other != vm ==> other in s'.power.vms)
  {
    RecordedVmIsFound(s.power, vm, name);
    DeleteExactly(s, name, spec, inputs);
    RemoveVmIs(s.power.vms, vm.id);
    IdNamesOne(s.power.vms, vm);
  }

  /** If a VM is gone and an internal IP was recorded, every load balancer of the spec was listed as active
      and with pools: while one is not, Delete fails and keeps the VM. */
  lemma DeleteNeedsActive(s: Session, name: string, spec: Spec, inputs: Inputs)
    requires Ordered(spec, inputs)
    ensures var s' := Delete(s, name, spec, inputs).0;
            s'.power.vms != s.power.vms && Lists(s.machine.addresses, spec) ==> ListedActive(spec, inputs)
  {
    var ip := InternalIpOf(s.machine.addresses);
    VmsOfLookup(s.power, s.status.instance, name);
    DeleteExactly(s, name, spec, inputs);
    if Delete(s, name, spec, inputs).0.power.vms != s.power.vms && ip != ""
       && ApplicationNames(spec.loadBalancers) != [] {
      var lbs := Selected(spec, inputs).value;
      Deregistration.OnlyActiveBalancersCleaned(s.vpc, Plan(lbs, inputs.order), ip);
      PlanIsListing(spec, inputs);
    }
  }
}
