/** Recovery: whatever failures a run has been through, reconciles that meet none bring the stored
    object, the pools and the VM in line with each other, and a deletion that meets none clears up.
    Other machines and the environment may act at any time in between. */
module Stabilization {
  import opened Calls
  import opened LoadBalancers
  import opened Addresses
  import opened Machines
  import opened Operations
  import opened Protocol
  import opened RunProperties
  import opened Uniqueness
  import Registration
  import Deregistration
  import ProviderId

  // The load balancers of the spec are found, active and reachable, and their calls come through.
  ghost predicate BalancersServed(v: Vpc, spec: Spec, inputs: Inputs) {
    && Ordered(spec, inputs)
    && (ApplicationNames(spec.loadBalancers) != [] ==>
          && Selected(spec, inputs).Some?
          && var plan := Plan(Selected(spec, inputs).value, inputs.order);
             Registration.Reachable(v, plan) && Registration.Healthy(inputs.vpc, 3 * Registration.PoolCount(plan)))
  }

  /** The stored object names the VM by service instance id, instance id and provider id, its addresses are
      those that the VM, the cache and DHCP give, and the internal IP among them is in every pool it belongs
      in. */
  ghost predicate Settled(w: World, name: string, vm: Vm, inputs: Inputs, service: string)
    requires name in w.machines && w.machines[name].history != []
  {
    var t := w.machines[name];
    var m, ip := Current(t), InternalIpOf(Current(t).addresses);
    && vm in VmsIn(w.vms, service) && vm.name == name
    && m.status.service == Some(service) && m.status.instance == Some(vm.id)
    && m.providerId == Some(ProviderId.Format(inputs.region, inputs.zone, service, vm.id))
    && m.addresses == Resolve(name, vm.networks, t.spec.network, inputs.dhcp, w.cache, w.clock).addresses
    && (ip != "" && ApplicationNames(t.spec.loadBalancers) != [] ==>
          && Selected(t.spec, inputs).Some?
          && Registration.AllHave(w.vpc, MapTargets(Selected(t.spec, inputs).value), ip))
  }

  lemma PoolsUpdatedServed(v: Vpc, addresses: seq<NodeAddress>, spec: Spec, inputs: Inputs)
    requires BalancersServed(v, spec, inputs) && v.script == inputs.vpc
    ensures var (v', o) := PoolsUpdated(v, addresses, spec, inputs);
            && o == Done
            && (InternalIpOf(addresses) != "" && ApplicationNames(spec.loadBalancers) != [] ==>
                  && Selected(spec, inputs).Some?
                  && Registration.AllHave(v', MapTargets(Selected(spec, inputs).value), InternalIpOf(addresses)))
  {
    if InternalIpOf(addresses) != "" && ApplicationNames(spec.loadBalancers) != [] {
      var lbs := Selected(spec, inputs).value;
      var plan := Plan(lbs, inputs.order);
      PlanCoversMap(lbs, inputs.order);
      Registration.HealthyRegistrationSucceeds(v, plan, InternalIpOf(addresses));
      Registration.RegisterExact(v, plan, InternalIpOf(addresses), Targets(plan));
    }
  }

  /** Update on the current copy, when the VM is found and the service instance id is stored. */
  lemma UpdateSettles(s: Session, name: string, spec: Spec, inputs: Inputs, now: int) returns (vm: Vm)
    requires PowerOk(s.power) && Owned(s.power.issued, name, s.status.instance) && !NoneNamed(s.power.vms, name)
    requires spec.labelled && CallsComeThrough(inputs, 3) && s.power.script == inputs.power
    requires BalancersServed(s.vpc, spec, inputs) && s.vpc.script == inputs.vpc
    requires s.machine.status.service.Some? && s.status.service == s.machine.status.service
    ensures var s' := Update(s, name, spec, inputs, now).0;
            var ip := InternalIpOf(s'.machine.addresses);
            && Recorded(s, s', name, vm, inputs)
            && s'.power.vms == s.power.vms && s'.status.service == s.status.service
            && s'.machine.lastUpdated == s.machine.lastUpdated
            && s'.machine.addresses == Resolve(name, vm.networks, spec.network, inputs.dhcp, s'.cache, now).addresses
            && (ip != "" && ApplicationNames(spec.loadBalancers) != [] ==>
                  && Selected(spec, inputs).Some?
                  && Registration.AllHave(s'.vpc, MapTargets(Selected(spec, inputs).value), ip))
  {
    LookupIsSound(s.power, s.status.instance, name);
    LookupIsComplete(s.power, s.status.instance, name);
    var (p, found) := GetMachineInstance(s.power, s.status.instance, name);
    vm := found.vm;
    var s1, s' := s.(power := p), Update(s, name, spec, inputs, now).0;
    assert s' == UpdateFound(s1, name, vm, spec, inputs, now).0;
    UpdateFoundFrame(s1, name, vm, spec, inputs, now);
    ResolveAgain(name, vm.networks, spec.network, inputs.dhcp, s.cache, now);
    PoolsUpdatedServed(s.vpc, s'.machine.addresses, spec, inputs);
  }

  // An Update meets no failure.
  ghost predicate UpdateServed(w: World, name: string, inputs: Inputs)
    requires name in w.machines
  {
    && inputs.client && CallsComeThrough(inputs, 3) && inputs.patch == Served && inputs.patchStatus == Served
    && w.machines[name].spec.labelled && BalancersServed(w.vpc, w.machines[name].spec, inputs)
  }

  /** An Update that meets no failure, on the current version, settles a machine whose service instance id
      is stored and whose VM is there. */
  lemma FreshUpdateSettles(w: World, name: string, inputs: Inputs, service: string) returns (vm: Vm)
    requires Inv(w) && name in w.machines && Enabled(w, DoUpdate(name, inputs)) && UpdateServed(w, name, inputs)
    requires w.machines[name].pending.version == |w.machines[name].history| - 1
    requires Current(w.machines[name]).status.service == Some(service) && !NoneNamed(VmsIn(w.vms, service), name)
    ensures var w' := Next(w, DoUpdate(name, inputs));
            && name in w'.machines && w'.machines[name].history != []
            && Settled(w', name, vm, inputs, service)
  {
    var step := DoUpdate(name, inputs);
    assert ReadBy(w, step) == Current(w.machines[name]);
    BegunIsOk(w, step);
    vm := UpdateSettles(Begun(w, step), name, w.machines[name].spec, inputs, w.clock);
    FreshPatchStores(w, step);
  }

  // Both patches of a step on the current version come through.
  lemma FreshPatchStores(w: World, step: Step)
    requires Enabled(w, step) && Patches(step) && Opens(w, step)
    requires ReadBy(w, step) == Current(w.machines[step.name])
    requires step.inputs.patch == Served && step.inputs.patchStatus == Served
    requires Ended(w, step).machine.lastUpdated == ReadBy(w, step).lastUpdated
    ensures var w', s := Next(w, step), Ended(w, step);
            && step.name in w'.machines && w'.machines[step.name].history != []
            && w'.machines[step.name].spec == w.machines[step.name].spec
            && Current(w'.machines[step.name]) == s.machine.(status := s.status)
            && VmsIn(w'.vms, Scope(w, step)) == s.power.vms
            && w'.vpc == s.vpc && w'.cache == s.cache && w'.clock == w.clock
  {
    NextIs(w, step);
    var m, s := ReadBy(w, step), Ended(w, step);
    PatchStores(m, m, s, Served, Served);
    var more := Patch(m, m, s, Served, Served);
    var h := Next(w, step).machines[step.name].history;
    assert h[|h| - 1] == more[1];
  }

  /******* Rounds, with anything in between *******/

  // The steps that concern a machine's object or what the controller is about to do with it.
  ghost predicate About(step: Step, name: string) {
    || step.Restart?
    || ((step.Check? || Patches(step) || step.GiveUp? || step.Adopt? || step.Forget? || step.EditSpec? || step.Touch?)
        && step.name == name)
  }

  ghost predicate Undisturbed(steps: seq<Step>, i: nat, j: nat, name: string) {
    forall n :: i <= n < j && n < |steps| ==> !About(steps[n], name)
  }

  lemma OthersLeave(w: World, step: Step, name: string)
    requires Enabled(w, step) && name in w.machines && !About(step, name)
    ensures name in Next(w, step).machines && Next(w, step).machines[name] == w.machines[name]
  {
    if Patches(step) {
      NextIs(w, step);
    }
  }

  lemma {:induction false} UndisturbedKeeps(ws: seq<World>, steps: seq<Step>, i: nat, j: nat, name: string)
    requires IsRun(ws, steps) && i <= j <= |steps| && name in ws[i].machines && Undisturbed(steps, i, j, name)
    ensures name in ws[j].machines && ws[j].machines[name] == ws[i].machines[name]
    decreases j
  {
    if i < j {
      UndisturbedKeeps(ws, steps, i, j - 1, name);
      assert Enabled(ws[j - 1], steps[j - 1]);
      OthersLeave(ws[j - 1], steps[j - 1], name);
      assert ws[j - 1 + 1] == Next(ws[j - 1], steps[j - 1]);
    }
  }

  // Step c checks the current version of a machine's object, and nothing concerns it before step u.
  ghost predicate IsCheck(ws: seq<World>, steps: seq<Step>, c: nat, u: nat, name: string) {
    && c < u <= |steps| < |ws| && name in ws[c].machines && ws[c].machines[name].history != []
    && steps[c].Check? && steps[c].name == name && steps[c].version == |ws[c].machines[name].history| - 1
    && Undisturbed(steps, c + 1, u, name)
  }

  // A check changes nothing but the decision.
  lemma CheckFrame(w: World, step: Step)
    requires Enabled(w, step) && step.Check?
    ensures step.name in Next(w, step).machines
    ensures var t, t' := w.machines[step.name], Next(w, step).machines[step.name];
            && t' == t.(pending := t'.pending)
            && (t'.pending.Idle? || t'.pending.version == step.version)
  {
  }

  // What a check decided still stands at step u.
  lemma DecisionStands(ws: seq<World>, steps: seq<Step>, c: nat, u: nat, name: string)
    requires IsRun(ws, steps) && IsCheck(ws, steps, c, u, name)
    ensures name in ws[c + 1].machines && name in ws[u].machines && ws[u].machines[name] == ws[c + 1].machines[name]
    ensures var t, t' := ws[c].machines[name], ws[u].machines[name];
            t' == t.(pending := t'.pending) && (t'.pending.Idle? || t'.pending.version == |t.history| - 1)
  {
    assert Enabled(ws[c], steps[c]) && ws[c + 1] == Next(ws[c], steps[c]);
    CheckFrame(ws[c], steps[c]);
    UndisturbedKeeps(ws, steps, c + 1, u, name);
  }

  /** The object allows a Create at once: it never had a VM, or was last updated long enough ago. */
  ghost predicate MayCreate(m: Machine, now: int) {
    || m.providerId.None? || m.providerId.value == ""
    || (m.lastUpdated.Some? && m.lastUpdated.value + REQUEUE_AFTER <= now)
  }

  /** A check whose calls come through, of a machine without a VM in the service instance of the scope,
      leads to Create exactly when the object allows it, and otherwise to nothing. */
  lemma AbsentVmIsNoticed(w: World, name: string, version: nat, inputs: Inputs)
    requires Inv(w) && Enabled(w, Check(name, version, inputs)) && CallsComeThrough(inputs, 3)
    requires OpenScope(w.machines[name].history[version], inputs).Some?
    ensures var m := w.machines[name].history[version];
            var service := OpenScope(m, inputs).value.service.value;
            NoneNamed(VmsIn(w.vms, service), name) ==>
              Next(w, Check(name, version, inputs)).machines[name].pending ==
              if MayCreate(m, w.clock) then WillCreate(version, service) else Idle
  {
    var m := w.machines[name].history[version];
    assert m in w.machines[name].history;
    var st := OpenScope(m, inputs).value;
    var p := PowerOf(w, st.service.value, inputs.power);
    assert PowerOk(PowerOf(w, st.service.value, []));
    assert Rest(p.script)[0] == p.script[1];
    FindNamedIs(p.vms, name);
    LookupIsSound(p, st.instance, name);
  }

  /** Progress: after a check of the current version whose calls come through, as long as nothing else
      concerns the machine, the controller goes on to Update, to Create, or to wait out the window, just as
      the service instance of the scope and the object demand. */
  lemma CheckLeadsOn(ws: seq<World>, steps: seq<Step>, c: nat, u: nat, name: string)
    requires IsRun(ws, steps) && Initial(ws[0]) && IsCheck(ws, steps, c, u, name)
    requires CallsComeThrough(steps[c].inputs, 3)
    requires OpenScope(Current(ws[c].machines[name]), steps[c].inputs).Some?
    ensures name in ws[u].machines
    ensures var t := ws[c].machines[name];
            var version, service := |t.history| - 1, OpenScope(Current(t), steps[c].inputs).value.service.value;
            ws[u].machines[name].pending ==
              if !NoneNamed(VmsIn(ws[c].vms, service), name) then WillUpdate(version)
              else if MayCreate(Current(t), ws[c].clock) then WillCreate(version, service)
              else Idle
  {
    RunKeepsInv(ws, steps, c);
    DecisionStands(ws, steps, c, u, name);
    var w, step := ws[c], steps[c];
    assert Enabled(w, step) && ws[c + 1] == Next(w, step);
    ExistingVmIsFound(w, name, step.version, step.inputs);
    AbsentVmIsNoticed(w, name, step.version, step.inputs);
  }

  // A check at step c and the Update it led to at step u, without a failure.
  ghost predicate IsRound(ws: seq<World>, steps: seq<Step>, c: nat, u: nat, name: string, inputs: Inputs) {
    && u < |steps| && IsCheck(ws, steps, c, u, name) && steps[u] == DoUpdate(name, inputs)
    && name in ws[u].machines && UpdateServed(ws[u], name, inputs)
  }

  /** A round settles the machine, provided the service instance id was stored before it and the VM is there
      when Update runs. */
  lemma RoundSettles(ws: seq<World>, steps: seq<Step>, c: nat, u: nat, name: string, inputs: Inputs, service: string)
    returns (vm: Vm)
    requires IsRun(ws, steps) && Initial(ws[0]) && IsRound(ws, steps, c, u, name, inputs)
    requires Current(ws[c].machines[name]).status.service == Some(service)
    requires !NoneNamed(VmsIn(ws[u].vms, service), name)
    ensures name in ws[u + 1].machines && ws[u + 1].machines[name].history != []
    ensures Settled(ws[u + 1], name, vm, inputs, service)
  {
    RunKeepsInv(ws, steps, u);
    RoundIsFresh(ws, steps, c, u, name, inputs);
    vm := FreshUpdateSettles(ws[u], name, inputs, service);
  }

  // The Update of a round works on the version that is still current.
  lemma RoundIsFresh(ws: seq<World>, steps: seq<Step>, c: nat, u: nat, name: string, inputs: Inputs)
    requires IsRun(ws, steps) && IsRound(ws, steps, c, u, name, inputs)
    ensures Enabled(ws[u], DoUpdate(name, inputs)) && ws[u + 1] == Next(ws[u], DoUpdate(name, inputs))
    ensures ws[u].machines[name].history == ws[c].machines[name].history
    ensures ws[u].machines[name].pending.version == |ws[u].machines[name].history| - 1
    ensures UpdateServed(ws[u], name, inputs)
  {
    assert Enabled(ws[u], steps[u]) && ws[u + 1] == Next(ws[u], steps[u]);
    DecisionStands(ws, steps, c, u, name);
  }

  /** From every world of every run: after any reconcile of the machine whose status patch got through, on
      whatever copy and with whatever outcome, and after anything else that may happen while the object
      lives, one round settles the machine, if its VM is in the service instance that is stored. */
  lemma OneRoundSettles(ws: seq<World>, steps: seq<Step>, n: nat, c: nat, u: nat, name: string, inputs: Inputs)
    returns (vm: Vm, service: string)
    requires IsRun(ws, steps) && Initial(ws[0]) && n < c && IsRound(ws, steps, c, u, name, inputs)
    requires Patches(steps[n]) && steps[n].name == name && StoresStatus(ws[n], steps[n]) && Lives(steps, n, c, name)
    requires forall stored :: Current(ws[c].machines[name]).status.service == Some(stored) ==>
               !NoneNamed(VmsIn(ws[u].vms, stored), name)
    ensures Current(ws[c].machines[name]).status.service == Some(service)
    ensures name in ws[u + 1].machines && ws[u + 1].machines[name].history != []
    ensures Settled(ws[u + 1], name, vm, inputs, service)
  {
    var h := ws[c].machines[name].history;
    HistoryGrowsInRun(ws, steps, n + 1, c, name) by {
      assert Enabled(ws[n], steps[n]) && ws[n + 1] == Next(ws[n], steps[n]);
      HistoryGrows(ws[n], steps[n], name);
    }
    ServiceIsRecorded(ws, steps, n, c, |h| - 1);
    service := Current(ws[c].machines[name]).status.service.value;
    vm := RoundSettles(ws, steps, c, u, name, inputs, service);
  }

  /******* Creation *******/

  // A check at step c and the Create it led to at step d, without a failure.
  ghost predicate IsCreation(ws: seq<World>, steps: seq<Step>, c: nat, d: nat, name: string, inputs: Inputs) {
    && d < |steps| && IsCheck(ws, steps, c, d, name) && steps[d] == DoCreate(name, inputs)
    && name in ws[d].machines && CreationServed(ws[d], ws[d].machines[name].spec, inputs)
  }

  ghost predicate CreationServed(w: World, spec: Spec, inputs: Inputs) {
    && inputs.client && inputs.patch == Served && inputs.patchStatus == Served
    && spec.labelled && inputs.userData && inputs.launchable && inputs.mentioned
    && CreateServed(w.issued, inputs.power, inputs)
  }

  // The VM that a Create without failures makes.
  function Made(name: string, inputs: Inputs): Vm
    requires |inputs.power| > CreateCall(inputs)
  {
    Newborn(name, inputs.power[CreateCall(inputs)].text, inputs)
  }

  lemma CreateMakesVm(w: World, name: string, inputs: Inputs, service: string)
    requires Inv(w) && Enabled(w, DoCreate(name, inputs)) && CreationServed(w, w.machines[name].spec, inputs)
    requires Opens(w, DoCreate(name, inputs)) && Scope(w, DoCreate(name, inputs)) == service
    requires NoneNamed(VmsIn(w.vms, service), name)
    ensures VmsIn(Next(w, DoCreate(name, inputs)).vms, service) == VmsIn(w.vms, service) + [Made(name, inputs)]
  {
    var t, step := w.machines[name], DoCreate(name, inputs);
    NextIs(w, step);
    BegunIsOk(w, step);
    HealthyCreateSucceeds(Begun(w, step), name, t.spec, inputs, w.clock);
  }

  // Create on the current copy stores the service instance id of its scope.
  lemma CreateRecords(w: World, name: string, inputs: Inputs)
    requires Enabled(w, DoCreate(name, inputs)) && Opens(w, DoCreate(name, inputs))
    requires w.machines[name].pending.version == |w.machines[name].history| - 1
    requires inputs.patch == Served && inputs.patchStatus == Served
    ensures var w' := Next(w, DoCreate(name, inputs));
            && name in w'.machines && w'.machines[name].history != []
            && Current(w'.machines[name]).status.service == Some(Scope(w, DoCreate(name, inputs)))
  {
    var step := DoCreate(name, inputs);
    var base, s, history := HistoryOfPatch(w, step);
    var more := Patch(base, base, s, Served, Served);
    assert history[|history| - 1] == more[1];
  }

  /** A creation, with anything but the machine's own affairs in between: afterwards the service instance
      that the check asked holds one more VM, of the machine's name and with the id handed out, and its id is
      stored. */
  lemma CreationMakesVm(ws: seq<World>, steps: seq<Step>, c: nat, d: nat, name: string, making: Inputs)
    returns (service: string)
    requires IsRun(ws, steps) && Initial(ws[0]) && IsCreation(ws, steps, c, d, name, making)
    requires Opens(ws[d], steps[d]) && Steady(ws[d], steps[d], name)
    ensures ws[d].machines[name].pending.WillCreate? && service == ws[d].machines[name].pending.service
    ensures VmsIn(ws[d + 1].vms, service) == VmsIn(ws[d].vms, service) + [Made(name, making)]
    ensures name in ws[d + 1].machines && ws[d + 1].machines[name].history != []
    ensures Current(ws[d + 1].machines[name]).status.service == Some(service)
  {
    RunKeepsInv(ws, steps, d);
    RunKeepsCleared(ws, steps, d, name);
    DecisionStands(ws, steps, c, d, name);
    assert Enabled(ws[d], steps[d]) && ws[d + 1] == Next(ws[d], steps[d]);
    service := ws[d].machines[name].pending.service;
    CreateMakesVm(ws[d], name, making, service);
    CreateRecords(ws[d], name, making);
  }

  /** From every world of every run in which the service instance that is asked holds no VM of the name: a
      creation and, after anything that keeps the stored service instance id, a round settle the machine
      there; on the VM that was created, if that is still there and the only one of the name. */
  lemma CreationSettles(ws: seq<World>, steps: seq<Step>, c: nat, d: nat, k: nat, u: nat, name: string,
                        making: Inputs, inputs: Inputs) returns (vm: Vm, service: string)
    requires IsRun(ws, steps) && Initial(ws[0]) && IsCreation(ws, steps, c, d, name, making)
    requires Opens(ws[d], steps[d]) && Steady(ws[d], steps[d], name)
    requires d < k && IsRound(ws, steps, k, u, name, inputs) && Lives(steps, d, k, name)
    requires forall n :: d < n < k ==> ReadsService(ws[n], steps[n], name)
    requires forall asked :: ws[d].machines[name].pending == WillCreate(ws[d].machines[name].pending.version, asked) ==>
               !NoneNamed(VmsIn(ws[u].vms, asked), name)
    ensures name in ws[u + 1].machines && ws[u + 1].machines[name].history != []
    ensures Settled(ws[u + 1], name, vm, inputs, service)
    ensures var vms := VmsIn(ws[u + 1].vms, service);
            AtMostOne(vms, name) && (exists v :: v in vms && v.name == name && v.id == Made(name, making).id) ==>
              vm.id == Made(name, making).id
  {
    service := CreationMakesVm(ws, steps, c, d, name, making);
    ServiceIsSticky(ws, steps, d + 1, k, name);
    vm := RoundSettles(ws, steps, k, u, name, inputs, service);
    OnlyOneNamed(VmsIn(ws[u + 1].vms, service), vm);
  }

  lemma OnlyOneNamed(vms: seq<Vm>, vm: Vm)
    requires vm in vms
    ensures AtMostOne(vms, vm.name) ==> forall v :: v in vms && v.name == vm.name ==> v == vm
  {
  }

  /******* Deletion *******/

  lemma {:induction false} RemovedLeavesNoneExactly(vms: seq<Vm>, vm: Vm)
    requires UniqueIds(vms) && vm in vms
    ensures NoneNamed(RemoveVm(vms, vm.id), vm.name) <==> AtMostOne(vms, vm.name)
  {
    RemoveVmIs(vms, vm.id);
    IdNamesOne(vms, vm);
    OnlyOneNamed(vms, vm);
    if !AtMostOne(vms, vm.name) {
      var i, j :| 0 <= i < j < |vms| && vms[i].name == vm.name && vms[j].name == vm.name;
      assert vms[i].id != vms[j].id;
      assert vms[i] in vms && vms[j] in vms;
      assert vms[i] in RemoveVm(vms, vm.id) || vms[j] in RemoveVm(vms, vm.id);
    }
  }

  // The load balancers of the spec, if they are needed, are found, active and reachable, and each of
  // their calls comes through: one listing per pool, and one deletion per member.
  ghost predicate CleaningServed(v: Vpc, addresses: seq<NodeAddress>, spec: Spec, inputs: Inputs) {
    && Ordered(spec, inputs)
    && (InternalIpOf(addresses) != "" && ApplicationNames(spec.loadBalancers) != [] ==>
          && Selected(spec, inputs).Some?
          && var plan := Plan(Selected(spec, inputs).value, inputs.order);
             && Registration.Reachable(v, plan)
             && Deregistration.ServedCalls(inputs.vpc, Deregistration.PlanCalls(v.pools, plan)))
  }

  lemma PoolsCleanedServed(v: Vpc, addresses: seq<NodeAddress>, spec: Spec, inputs: Inputs)
    requires CleaningServed(v, addresses, spec, inputs) && v.script == inputs.vpc
    ensures PoolsCleaned(v, addresses, spec, inputs).1 == Done
  {
    if InternalIpOf(addresses) != "" && ApplicationNames(spec.loadBalancers) != [] {
      var plan := Plan(Selected(spec, inputs).value, inputs.order);
      Deregistration.HealthyDeregistrationSucceeds(v, plan, InternalIpOf(addresses));
    }
  }

  lemma LookupUsesCalls(p: Power, instance: Option<string>, name: string)
    requires PowerOk(p) && Owned(p.issued, name, instance)
    requires |p.script| >= 4 && forall i :: 0 <= i < 4 ==> p.script[i].fault == Served
    ensures var (p', r) := GetMachineInstance(p, instance, name);
            !r.Broken? && Answer(p'.script).fault == Served
  {
    var a := Rest(p.script);
    var b := Rest(a);
    assert a[0] == p.script[1] && b[0] == p.script[2] && Rest(b)[0] == p.script[3];
    FindNamedIs(p.vms, name);
    if FindNamed(p.vms, name).Some? {
      FindVmIs(p.vms, FindNamed(p.vms, name).value.id);
    }
  }

  // What a Delete that reports success does to the VMs of its service instance.
  ghost predicate OneGone(vms: seq<Vm>, vms': seq<Vm>, name: string) {
    if NoneNamed(vms, name) then vms' == vms
    else exists vm :: vm in vms && vm.name == name && vms' == RemoveVm(vms, vm.id)
  }

  lemma DeleteSucceeds(s: Session, name: string, spec: Spec, inputs: Inputs)
    requires PowerOk(s.power) && Owned(s.power.issued, name, s.status.instance)
    requires |s.power.script| >= 4 && forall i :: 0 <= i < 4 ==> s.power.script[i].fault == Served
    requires Ordered(spec, inputs) && PoolsCleaned(s.vpc, s.machine.addresses, spec, inputs).1 == Done
    ensures Delete(s, name, spec, inputs).1 == Done
  {
    LookupIsSound(s.power, s.status.instance, name);
    LookupUsesCalls(s.power, s.status.instance, name);
  }

  lemma DeleteStepSucceeds(w: World, step: Step)
    requires Inv(w) && Enabled(w, step) && step.DoDelete? && Opens(w, step) && CallsComeThrough(step.inputs, 4)
    requires CleaningServed(w.vpc, ReadBy(w, step).addresses, w.machines[step.name].spec, step.inputs)
    ensures Reported(w, step) == Done && step.name !in Next(w, step).cache
  {
    NextIs(w, step);
    BegunIsOk(w, step);
    var s := Begun(w, step);
    PoolsCleanedServed(s.vpc, s.machine.addresses, w.machines[step.name].spec, step.inputs);
    DeleteSucceeds(s, step.name, w.machines[step.name].spec, step.inputs);
    DeleteEffect(s, step.name, w.machines[step.name].spec, step.inputs);
  }

  ghost predicate NoneAnywhere(w: World, name: string) {
    forall service :: NoneNamed(VmsIn(w.vms, service), name)
  }

  // A Delete that reports success has removed one VM of the name, or there was none.
  lemma DoneRemovesOne(s: Session, name: string, spec: Spec, inputs: Inputs)
    requires PowerOk(s.power) && Owned(s.power.issued, name, s.status.instance) && Ordered(spec, inputs)
    requires Delete(s, name, spec, inputs).1 == Done
    ensures OneGone(s.power.vms, Delete(s, name, spec, inputs).0.power.vms, name)
  {
    LookupIsSound(s.power, s.status.instance, name);
  }

  lemma DoneStepRemovesOne(w: World, step: Step)
    requires Inv(w) && Enabled(w, step) && step.DoDelete? && Opens(w, step) && Reported(w, step) == Done
    ensures var w', service := Next(w, step), Scope(w, step);
            && OneGone(VmsIn(w.vms, service), VmsIn(w'.vms, service), step.name)
            && (forall other :: other != service ==> VmsIn(w'.vms, other) == VmsIn(w.vms, other))
  {
    NextIs(w, step);
    BegunIsOk(w, step);
    DoneRemovesOne(Begun(w, step), step.name, w.machines[step.name].spec, step.inputs);
  }

  /** Exactly when a Delete that reports success, whatever calls failed on the way, leaves no VM of the name:
      when there was at most one, and that in the service instance of its scope. */
  lemma DeleteClearsExactly(ws: seq<World>, steps: seq<Step>, n: nat)
    requires IsRun(ws, steps) && Initial(ws[0]) && n < |steps| && steps[n].DoDelete?
    requires Opens(ws[n], steps[n]) && Reported(ws[n], steps[n]) == Done
    ensures NoneAnywhere(ws[n + 1], steps[n].name) <==> OnlyIn(ws[n], steps[n].name, Scope(ws[n], steps[n]))
  {
    RunKeepsInv(ws, steps, n);
    DoneStepRemovesOne(ws[n], steps[n]);
    assert ws[n + 1] == Next(ws[n], steps[n]);
    ClearsExactly(ws[n], ws[n + 1], steps[n].name, Scope(ws[n], steps[n]));
  }

  /** A Delete that meets no failure, in any world of any run and on any copy, reports success, leaves
      nothing of the machine in the cache and, if its service instance held a VM, the recorded internal IP in
      no pool of the machine's load balancers. It leaves no VM of the name if and only if there was at most
      one, and that in the service instance of its scope. */
  lemma DeleteClearsUp(ws: seq<World>, steps: seq<Step>, n: nat)
    requires IsRun(ws, steps) && Initial(ws[0]) && n < |steps| && steps[n].DoDelete?
    requires Opens(ws[n], steps[n]) && CallsComeThrough(steps[n].inputs, 4)
    requires CleaningServed(
               ws[n].vpc, ReadBy(ws[n], steps[n]).addresses, ws[n].machines[steps[n].name].spec, steps[n].inputs)
    ensures Reported(ws[n], steps[n]) == Done && steps[n].name !in ws[n + 1].cache
    ensures NoneAnywhere(ws[n + 1], steps[n].name) <==> OnlyIn(ws[n], steps[n].name, Scope(ws[n], steps[n]))
    ensures var ip := InternalIpOf(ReadBy(ws[n], steps[n]).addresses);
            ip != "" && !NoneNamed(VmsIn(ws[n].vms, Scope(ws[n], steps[n])), steps[n].name) ==>
              Deregistration.NoneHave(
                ws[n + 1].vpc, DeletionKeys(ws[n].machines[steps[n].name].spec, steps[n].inputs), ip)
  {
    RunKeepsInv(ws, steps, n);
    DeleteStepSucceeds(ws[n], steps[n]);
    assert ws[n + 1] == Next(ws[n], steps[n]);
    DeleteClearsExactly(ws, steps, n);
    DoneStepRemovesOne(ws[n], steps[n]);
    ClearsExactly(ws[n], ws[n + 1], steps[n].name, Scope(ws[n], steps[n]));
    if InternalIpOf(ReadBy(ws[n], steps[n]).addresses) != "" {
      DeletionIsOrdered(ws, steps, n, Scope(ws[n], steps[n]));
    }
  }

  lemma ClearsExactly(w: World, w': World, name: string, service: string)
    requires CloudOk(w) && OneGone(VmsIn(w.vms, service), VmsIn(w'.vms, service), name)
    requires forall other :: other != service ==> VmsIn(w'.vms, other) == VmsIn(w.vms, other)
    ensures NoneAnywhere(w', name) <==> OnlyIn(w, name, service)
    ensures !NoneNamed(VmsIn(w.vms, service), name) ==> VmsIn(w'.vms, service) != VmsIn(w.vms, service)
  {
    var vms := VmsIn(w.vms, service);
    assert PowerOk(PowerOf(w, service, []));
    if !NoneNamed(vms, name) {
      var vm :| vm in vms && vm.name == name && VmsIn(w'.vms, service) == RemoveVm(vms, vm.id);
      RemovedLeavesNoneExactly(vms, vm);
      RemoveVmIs(vms, vm.id);
    }
    if OnlyIn(w, name, service) {
      forall other ensures NoneNamed(VmsIn(w'.vms, other), name) {
        assert other != service ==> NoneNamed(VmsIn(w.vms, other), name);
      }
    }
    if NoneAnywhere(w', name) {
      forall other | other != service ensures NoneNamed(VmsIn(w.vms, other), name) {
        assert NoneNamed(VmsIn(w'.vms, other), name);
      }
      assert NoneNamed(VmsIn(w'.vms, service), name);
    }
  }
}
