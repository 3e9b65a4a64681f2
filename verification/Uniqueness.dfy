/** How many VMs bear the name of a machine. A VM client sees the VMs of one service instance only, so
    that much depends on which service instance each reconcile works in. */
module Uniqueness {
  import opened Calls
  import opened LoadBalancers
  import opened Addresses
  import opened Machines
  import opened Operations
  import opened Protocol
  import opened RunProperties

  /******* Steps that make no VM of the name *******/

  ghost predicate Calm(vms: seq<Vm>, vms': seq<Vm>, name: string) {
    && (AtMostOne(vms, name) ==> AtMostOne(vms', name))
    && (NoneNamed(vms, name) ==> NoneNamed(vms', name))
  }

  lemma RemovalIsCalm(vms: seq<Vm>, id: string, name: string)
    ensures Calm(vms, RemoveVm(vms, id), name)
  {
    RemoveVmIs(vms, id);
    RemoveVmKeeps(vms, id, name);
  }

  lemma AdditionIsCalm(vms: seq<Vm>, vm: Vm, name: string)
    requires vm.name != name
    ensures Calm(vms, vms + [vm], name)
  {
  }

  lemma ChangeIsCalm(vms: seq<Vm>, id: string, status: string, networks: seq<Network>, name: string)
    ensures Calm(vms, SetVm(vms, id, status, networks), name)
  {
  }

  // Create for another machine.
  lemma CreateIsCalm(s: Session, who: string, spec: Spec, inputs: Inputs, now: int, name: string)
    requires PowerOk(s.power) && who != name
    ensures Calm(s.power.vms, Create(s, who, spec, inputs, now).0.power.vms, name)
  {
    var p, p' := Remaining(s.power, who, spec, inputs), Create(s, who, spec, inputs, now).0.power;
    RemainingIsCalm(s.power, who, spec, inputs, name);
    CreateEffect(s, who, spec, inputs, now);
    if p'.vms != p.vms {
      AdditionIsCalm(p.vms, p'.vms[|p.vms|], name);
      assert p'.vms == p.vms + [p'.vms[|p.vms|]];
    }
  }

  lemma RemainingIsCalm(p: Power, who: string, spec: Spec, inputs: Inputs, name: string)
    ensures Calm(p.vms, Remaining(p, who, spec, inputs).vms, name)
  {
    var (p1, r) := GetInstanceByName(p, who);
    if r.Found? {
      RemovalIsCalm(p.vms, r.vm.id, name);
    }
  }

  lemma DeleteIsCalm(s: Session, who: string, spec: Spec, inputs: Inputs, name: string)
    requires PowerOk(s.power) && Owned(s.power.issued, who, s.status.instance) && Ordered(spec, inputs)
    ensures Calm(s.power.vms, Delete(s, who, spec, inputs).0.power.vms, name)
  {
    DeleteEffect(s, who, spec, inputs);
    var s' := Delete(s, who, spec, inputs).0;
    if s'.power.vms != s.power.vms {
      var vm :| vm in s.power.vms && vm.name == who && s'.power.vms == RemoveVm(s.power.vms, vm.id);
      RemovalIsCalm(s.power.vms, vm.id, name);
    }
  }

  ghost predicate CreatesFor(step: Step, name: string) {
    step.DoCreate? && step.name == name
  }

  lemma EndedIsCalm(w: World, step: Step, name: string)
    requires Inv(w) && Enabled(w, step) && Patches(step) && Opens(w, step) && !CreatesFor(step, name)
    ensures Calm(Begun(w, step).power.vms, Ended(w, step).power.vms, name)
  {
    BegunIsOk(w, step);
    var s, spec := Begun(w, step), w.machines[step.name].spec;
    match step {
      case DoCreate(who, inputs) => CreateIsCalm(s, who, spec, inputs, w.clock, name);
      case DoUpdate(who, inputs) => UpdateEffect(s, who, spec, inputs, w.clock);
      case DoDelete(who, _, inputs) => DeleteIsCalm(s, who, spec, inputs, name);
    }
  }

  lemma PatchIsCalm(w: World, step: Step, name: string, service: string)
    requires Inv(w) && Enabled(w, step) && Patches(step) && !CreatesFor(step, name)
    ensures Calm(VmsIn(w.vms, service), VmsIn(Next(w, step).vms, service), name)
  {
    NextIs(w, step);
    if Opens(w, step) {
      EndedIsCalm(w, step, name);
    }
  }

  lemma OtherIsCalm(w: World, step: Step, name: string, service: string)
    requires Enabled(w, step) && !Patches(step) && name in w.machines
    ensures Calm(VmsIn(w.vms, service), VmsIn(Next(w, step).vms, service), name)
  {
    var vms := VmsIn(w.vms, service);
    if step.LoseVm? {
      RemovalIsCalm(vms, step.id, name);
    } else if step.ChangeVm? {
      ChangeIsCalm(vms, step.id, step.status, step.networks, name);
    } else if step.ForeignVm? {
      AdditionIsCalm(vms, step.vm, name);
    }
  }

  lemma StepIsCalm(w: World, step: Step, name: string, service: string)
    requires Inv(w) && Enabled(w, step) && name in w.machines && !CreatesFor(step, name)
    ensures Calm(VmsIn(w.vms, service), VmsIn(Next(w, step).vms, service), name)
  {
    if Patches(step) {
      PatchIsCalm(w, step, name, service);
    } else {
      OtherIsCalm(w, step, name, service);
    }
  }

  // A Create touches the VMs of its own service instance only.
  lemma CreateStepVms(w: World, step: Step)
    requires Enabled(w, step) && step.DoCreate? && Opens(w, step)
    ensures forall other :: other != Scope(w, step) ==> VmsIn(Next(w, step).vms, other) == VmsIn(w.vms, other)
    ensures VmsIn(Next(w, step).vms, Scope(w, step)) == Ended(w, step).power.vms
  {
    NextIs(w, step);
  }

  /******* At most one VM, exactly *******/

  ghost predicate Bears(w: World, service: string, i: int, name: string) {
    0 <= i < |VmsIn(w.vms, service)| && VmsIn(w.vms, service)[i].name == name
  }

  /** At most one VM, in all service instances together, bears the name. */
  ghost predicate Alone(w: World, name: string) {
    forall a, b, i, j :: Bears(w, a, i, name) && Bears(w, b, j, name) ==> a == b && i == j
  }

  lemma AloneIn(w: World, name: string, service: string)
    requires Alone(w, name)
    ensures AtMostOne(VmsIn(w.vms, service), name)
  {
    var vms := VmsIn(w.vms, service);
    forall i, j | 0 <= i < j < |vms| ensures !(vms[i].name == name && vms[j].name == name) {
      assert Bears(w, service, i, name) && Bears(w, service, j, name) ==> i == j;
    }
  }

  lemma BearerNamed(w: World, name: string, service: string)
    ensures NoneNamed(VmsIn(w.vms, service), name) <==> forall i :: !Bears(w, service, i, name)
  {
    var vms := VmsIn(w.vms, service);
    if !NoneNamed(vms, name) {
      var vm :| vm in vms && vm.name == name;
      var i :| 0 <= i < |vms| && vms[i] == vm;
      assert Bears(w, service, i, name);
    }
  }

  lemma CalmKeepsAlone(w: World, w': World, name: string)
    requires Alone(w, name)
    requires forall service :: Calm(VmsIn(w.vms, service), VmsIn(w'.vms, service), name)
    ensures Alone(w', name)
  {
    forall a, b, i, j | Bears(w', a, i, name) && Bears(w', b, j, name) ensures a == b && i == j {
      BearerNamed(w, name, a);
      BearerNamed(w, name, b);
      BearerNamed(w', name, a);
      BearerNamed(w', name, b);
      var i', j' :| Bears(w, a, i', name) && Bears(w, b, j', name);
      AloneIn(w, name, a);
    }
  }

  // No VM of the name, apart from a stopped one that Create removes first, exists anywhere.
  ghost predicate Vacant(w: World, step: Step, name: string)
    requires Enabled(w, step) && CreatesFor(step, name) && Opens(w, step)
  {
    && NoneNamed(Remaining(Begun(w, step).power, name, w.machines[name].spec, step.inputs).vms, name)
    && forall other :: other != Scope(w, step) ==> NoneNamed(VmsIn(w.vms, other), name)
  }

  /** The step is not a Create that makes a VM while there is one of the name already. */
  ghost predicate Careful(w: World, step: Step, name: string)
    requires Enabled(w, step)
  {
    CreatesFor(step, name) && Opens(w, step) ==>
      (Launches(Begun(w, step).power, name, w.machines[name].spec, step.inputs) ==> Vacant(w, step, name))
  }

  lemma CreateKeepsAloneExactly(w: World, step: Step, name: string)
    requires Inv(w) && Enabled(w, step) && CreatesFor(step, name) && Opens(w, step) && Alone(w, name)
    ensures Alone(Next(w, step), name) <==> Careful(w, step, name)
  {
    var s, spec, service := Begun(w, step), w.machines[name].spec, Scope(w, step);
    var w' := Next(w, step);
    BegunIsOk(w, step);
    CreateStepVms(w, step);
    AloneIn(w, name, service);
    RemainingIsCalm(s.power, name, spec, step.inputs, name);
    CreateAdds(s, name, spec, step.inputs, w.clock);
    CreateDuplicatesExactly(s, name, spec, step.inputs, w.clock);
    if !Launches(s.power, name, spec, step.inputs) {
      CalmKeepsAlone(w, w', name);
    } else {
      var made := |Remaining(s.power, name, spec, step.inputs).vms|;
      assert Bears(w', service, made, name);
      if Vacant(w, step, name) {
        VacantMakesAlone(w, w', name, service);
      } else if Alone(w', name) {
        AloneIn(w', name, service);
        var other :| other != service && !NoneNamed(VmsIn(w.vms, other), name);
        BearerNamed(w', name, other);
      }
    }
  }

  lemma VacantMakesAlone(w: World, w': World, name: string, service: string)
    requires forall other :: other != service ==> VmsIn(w'.vms, other) == VmsIn(w.vms, other)
    requires forall other :: other != service ==> NoneNamed(VmsIn(w.vms, other), name)
    requires AtMostOne(VmsIn(w'.vms, service), name)
    ensures Alone(w', name)
  {
    forall a, b, i, j | Bears(w', a, i, name) && Bears(w', b, j, name) ensures a == b && i == j {
      BearerNamed(w', name, a);
      BearerNamed(w', name, b);
    }
  }

  lemma StepKeepsAloneExactly(w: World, step: Step, name: string)
    requires Inv(w) && Enabled(w, step) && name in w.machines && Alone(w, name)
    ensures Alone(Next(w, step), name) <==> Careful(w, step, name)
  {
    if CreatesFor(step, name) && Opens(w, step) {
      CreateKeepsAloneExactly(w, step, name);
    } else {
      forall service ensures Calm(VmsIn(w.vms, service), VmsIn(Next(w, step).vms, service), name) {
        if CreatesFor(step, name) {
          NextIs(w, step);
        } else {
          StepIsCalm(w, step, name, service);
        }
      }
      CalmKeepsAlone(w, Next(w, step), name);
    }
  }

  lemma {:induction false} CarefulRun(ws: seq<World>, steps: seq<Step>, b: nat, e: nat, name: string)
    requires IsRun(ws, steps) && Inv(ws[0]) && b <= e <= |steps|
    requires name in ws[b].machines && Lives(steps, b, e, name) && Alone(ws[b], name)
    requires forall n :: b <= n < e ==> Careful(ws[n], steps[n], name)
    ensures name in ws[e].machines && Alone(ws[e], name)
    decreases e
  {
    if b < e {
      CarefulRun(ws, steps, b, e - 1, name);
      RunKeepsInv(ws, steps, e - 1);
      assert Enabled(ws[e - 1], steps[e - 1]);
      StepKeepsAloneExactly(ws[e - 1], steps[e - 1], name);
      HistoryGrows(ws[e - 1], steps[e - 1], name);
      assert ws[e - 1 + 1] == Next(ws[e - 1], steps[e - 1]);
    }
  }

  /** At most one VM per machine, exactly: over any stretch of any run, with any interleaving, failures,
      stale reads, restarts and doings of the environment, a machine keeps at most one VM throughout if and
      only if no Create makes one while one of the name is left in some service instance. */
  lemma AtMostOneVmExactly(ws: seq<World>, steps: seq<Step>, b: nat, e: nat, name: string)
    requires IsRun(ws, steps) && Initial(ws[0]) && b <= e <= |steps|
    requires name in ws[b].machines && Lives(steps, b, e, name) && Alone(ws[b], name)
    ensures (forall n :: b <= n <= e ==> Alone(ws[n], name)) <==>
            (forall n :: b <= n < e ==> Careful(ws[n], steps[n], name))
  {
    if forall n :: b <= n < e ==> Careful(ws[n], steps[n], name) {
      forall n | b <= n <= e ensures Alone(ws[n], name) {
        CarefulRun(ws, steps, b, n, name);
      }
    }
    if forall n :: b <= n <= e ==> Alone(ws[n], name) {
      forall n | b <= n < e ensures Careful(ws[n], steps[n], name) {
        RunKeepsInv(ws, steps, n);
        HistoryGrowsInRun(ws, steps, b, n, name);
        assert Alone(ws[n], name) && Alone(ws[n + 1], name) && ws[n + 1] == Next(ws[n], steps[n]);
        StepKeepsAloneExactly(ws[n], steps[n], name);
      }
    }
  }

  /******* What makes runs careful *******/

  // While a Create is pending, no VM of the name is in the service instance that was asked, which is the
  // one the copy records, if it records one.
  ghost predicate Cleared(w: World, name: string) {
    && name in w.machines
    && var t := w.machines[name];
       t.pending.WillCreate? ==>
         && NoneNamed(VmsIn(w.vms, t.pending.service), name)
         && t.pending.version < |t.history|
         && var recorded := t.history[t.pending.version].status.service;
            recorded.Some? ==> recorded.value == t.pending.service
  }

  /** A Create on a copy that records no service instance id looks up the one that its check asked. */
  ghost predicate Steady(w: World, step: Step, name: string)
    requires Enabled(w, step)
  {
    CreatesFor(step, name) && Opens(w, step) && ReadBy(w, step).status.service.None? ==>
      step.inputs.service == Some(w.machines[name].pending.service)
  }

  ghost predicate OnePerService(w: World, name: string) {
    forall service :: AtMostOne(VmsIn(w.vms, service), name)
  }

  lemma CheckKeepsCleared(w: World, step: Step, name: string)
    requires Inv(w) && Enabled(w, step) && step.Check? && step.name == name
    ensures Cleared(Next(w, step), name)
  {
    var m := w.machines[name].history[step.version];
    assert m in w.machines[name].history;
    var st := OpenScope(m, step.inputs);
    if st.Some? {
      var p := PowerOf(w, st.value.service.value, step.inputs.power);
      assert PowerOk(PowerOf(w, st.value.service.value, []));
      ExistsIsSound(p, m, st.value, name, w.clock);
    }
  }

  lemma PendingAfter(w: World, step: Step, name: string)
    requires Enabled(w, step) && name in w.machines && step != Forget(name) && !(step.Check? && step.name == name)
    ensures name in Next(w, step).machines
    ensures var q := Next(w, step).machines[name].pending; q == w.machines[name].pending || q == Idle
  {
  }

  lemma StepKeepsCleared(w: World, step: Step, name: string)
    requires Inv(w) && Enabled(w, step) && Cleared(w, name) && step != Forget(name)
    ensures Cleared(Next(w, step), name)
  {
    if step.Check? && step.name == name {
      CheckKeepsCleared(w, step, name);
    } else {
      PendingAfter(w, step, name);
      HistoryGrows(w, step, name);
      if CreatesFor(step, name) {
        NextIs(w, step);
      } else if w.machines[name].pending.WillCreate? {
        StepIsCalm(w, step, name, w.machines[name].pending.service);
      }
    }
  }

  /** In a service instance without a VM of the name, Create removes none and makes at most one. */
  lemma SteadyCreate(w: World, step: Step, name: string)
    requires Inv(w) && Enabled(w, step) && CreatesFor(step, name) && Opens(w, step)
    requires NoneNamed(VmsIn(w.vms, Scope(w, step)), name)
    ensures Remaining(Begun(w, step).power, name, w.machines[name].spec, step.inputs).vms
            == VmsIn(w.vms, Scope(w, step))
    ensures AtMostOne(VmsIn(Next(w, step).vms, Scope(w, step)), name)
  {
    BegunIsOk(w, step);
    CreateStepVms(w, step);
    var s, spec := Begun(w, step), w.machines[name].spec;
    RemainingIs(s.power, name, spec, step.inputs);
    CreateDuplicatesExactly(s, name, spec, step.inputs, w.clock);
  }

  /** What was found out for a pending Create still holds, in every world of every run. */
  lemma {:induction false} RunKeepsCleared(ws: seq<World>, steps: seq<Step>, n: nat, name: string)
    requires IsRun(ws, steps) && Initial(ws[0]) && n <= |steps| && name in ws[n].machines
    ensures Cleared(ws[n], name)
  {
    if n > 0 {
      assert Enabled(ws[n - 1], steps[n - 1]) && ws[n - 1 + 1] == Next(ws[n - 1], steps[n - 1]);
      if name in ws[n - 1].machines {
        RunKeepsCleared(ws, steps, n - 1, name);
        RunKeepsInv(ws, steps, n - 1);
        StepKeepsCleared(ws[n - 1], steps[n - 1], name);
      } else {
        NewIsCleared(ws[n - 1], steps[n - 1], name);
      }
    }
  }

  lemma NewIsCleared(w: World, step: Step, name: string)
    requires Enabled(w, step) && name !in w.machines && name in Next(w, step).machines
    ensures Cleared(Next(w, step), name)
  {
  }

  /** The step is not a Create that makes a VM in a service instance that holds one of the name. */
  ghost predicate CarefulHere(w: World, step: Step, name: string)
    requires Enabled(w, step)
  {
    CreatesFor(step, name) && Opens(w, step) ==>
      (Launches(Begun(w, step).power, name, w.machines[name].spec, step.inputs) ==>
         NoneNamed(Remaining(Begun(w, step).power, name, w.machines[name].spec, step.inputs).vms, name))
  }

  lemma CreateKeepsOneExactly(w: World, step: Step, name: string)
    requires Inv(w) && Enabled(w, step) && CreatesFor(step, name) && Opens(w, step) && OnePerService(w, name)
    ensures OnePerService(Next(w, step), name) <==> CarefulHere(w, step, name)
  {
    BegunIsOk(w, step);
    CreateStepVms(w, step);
    assert AtMostOne(VmsIn(w.vms, Scope(w, step)), name);
    CreateDuplicatesExactly(Begun(w, step), name, w.machines[name].spec, step.inputs, w.clock);
    if CarefulHere(w, step, name) {
      forall service ensures AtMostOne(VmsIn(Next(w, step).vms, service), name) {
        assert AtMostOne(VmsIn(w.vms, service), name);
      }
    } else {
      assert !AtMostOne(VmsIn(Next(w, step).vms, Scope(w, step)), name);
    }
  }

  lemma StepKeepsOneExactly(w: World, step: Step, name: string)
    requires Inv(w) && Enabled(w, step) && name in w.machines && OnePerService(w, name)
    ensures OnePerService(Next(w, step), name) <==> CarefulHere(w, step, name)
  {
    if CreatesFor(step, name) && Opens(w, step) {
      CreateKeepsOneExactly(w, step, name);
    } else {
      forall service ensures AtMostOne(VmsIn(Next(w, step).vms, service), name) {
        assert AtMostOne(VmsIn(w.vms, service), name);
        if CreatesFor(step, name) {
          NextIs(w, step);
        } else {
          StepIsCalm(w, step, name, service);
        }
      }
    }
  }

  lemma {:induction false} CarefulHereRun(ws: seq<World>, steps: seq<Step>, b: nat, e: nat, name: string)
    requires IsRun(ws, steps) && Inv(ws[0]) && b <= e <= |steps|
    requires name in ws[b].machines && Lives(steps, b, e, name) && OnePerService(ws[b], name)
    requires forall n :: b <= n < e ==> CarefulHere(ws[n], steps[n], name)
    ensures name in ws[e].machines && OnePerService(ws[e], name)
    decreases e
  {
    if b < e {
      CarefulHereRun(ws, steps, b, e - 1, name);
      RunKeepsInv(ws, steps, e - 1);
      assert Enabled(ws[e - 1], steps[e - 1]);
      StepKeepsOneExactly(ws[e - 1], steps[e - 1], name);
      HistoryGrows(ws[e - 1], steps[e - 1], name);
      assert ws[e - 1 + 1] == Next(ws[e - 1], steps[e - 1]);
    }
  }

  /** At most one VM per service instance and name, exactly: over any stretch of any run it holds throughout
      if and only if no Create makes a VM in a service instance that holds one of the name. */
  lemma AtMostOnePerServiceExactly(ws: seq<World>, steps: seq<Step>, b: nat, e: nat, name: string)
    requires IsRun(ws, steps) && Initial(ws[0]) && b <= e <= |steps|
    requires name in ws[b].machines && Lives(steps, b, e, name) && OnePerService(ws[b], name)
    ensures (forall n :: b <= n <= e ==> OnePerService(ws[n], name)) <==>
            (forall n :: b <= n < e ==> CarefulHere(ws[n], steps[n], name))
  {
    if forall n :: b <= n < e ==> CarefulHere(ws[n], steps[n], name) {
      forall n | b <= n <= e ensures OnePerService(ws[n], name) {
        CarefulHereRun(ws, steps, b, n, name);
      }
    }
    if forall n :: b <= n <= e ==> OnePerService(ws[n], name) {
      forall n | b <= n < e ensures CarefulHere(ws[n], steps[n], name) {
        RunKeepsInv(ws, steps, n);
        HistoryGrowsInRun(ws, steps, b, n, name);
        assert OnePerService(ws[n], name) && OnePerService(ws[n + 1], name) && ws[n + 1] == Next(ws[n], steps[n]);
        StepKeepsOneExactly(ws[n], steps[n], name);
      }
    }
  }

  lemma SteadyIsCareful(w: World, step: Step, name: string)
    requires Inv(w) && Enabled(w, step) && name in w.machines && Cleared(w, name) && Steady(w, step, name)
    ensures CarefulHere(w, step, name)
  {
    if CreatesFor(step, name) && Opens(w, step) {
      SteadyCreate(w, step, name);
    }
  }

  /** It holds in every stretch of every run in which each Create of the machine on a copy without a service
      instance id looks up the one that its check asked. */
  lemma AtMostOnePerService(ws: seq<World>, steps: seq<Step>, b: nat, n: nat, name: string)
    requires IsRun(ws, steps) && Initial(ws[0]) && b <= n <= |steps|
    requires name in ws[b].machines && Lives(steps, b, n, name) && OnePerService(ws[b], name)
    requires forall i :: b <= i < n ==> Steady(ws[i], steps[i], name)
    ensures OnePerService(ws[n], name)
  {
    forall i | b <= i < n ensures CarefulHere(ws[i], steps[i], name) {
      RunKeepsInv(ws, steps, i);
      HistoryGrowsInRun(ws, steps, b, i, name);
      RunKeepsCleared(ws, steps, i, name);
      SteadyIsCareful(ws[i], steps[i], name);
    }
    CarefulHereRun(ws, steps, b, n, name);
  }

  /** All scopes that the check and the Create of the machine open are bound to `service`. */
  ghost predicate ScopedTo(w: World, step: Step, name: string, service: string)
    requires Enabled(w, step)
  {
    && (step.Check? && step.name == name ==>
          var st := OpenScope(w.machines[name].history[step.version], step.inputs);
          st.Some? ==> st.value.service == Some(service))
    && (CreatesFor(step, name) && Opens(w, step) ==> Scope(w, step) == service)
  }

  // At most one VM of the name exists, and only in this service instance.
  ghost predicate OnlyIn(w: World, name: string, service: string) {
    && AtMostOne(VmsIn(w.vms, service), name)
    && forall other :: other != service ==> NoneNamed(VmsIn(w.vms, other), name)
  }

  /** At most one VM bears the name, it is in this service instance, and a pending Create is about it. */
  ghost predicate Within(w: World, name: string, service: string) {
    && name in w.machines && OnlyIn(w, name, service)
    && (w.machines[name].pending.WillCreate? ==> w.machines[name].pending.service == service)
  }

  lemma StepKeepsWithin(w: World, step: Step, name: string, service: string)
    requires Inv(w) && Enabled(w, step) && Within(w, name, service) && Cleared(w, name) && step != Forget(name)
    requires ScopedTo(w, step, name, service)
    ensures Within(Next(w, step), name, service)
  {
    PendingScoped(w, step, name, service);
    if CreatesFor(step, name) && Opens(w, step) {
      CreateStepVms(w, step);
      SteadyCreate(w, step, name);
    } else if CreatesFor(step, name) {
      NextIs(w, step);
    } else {
      StepIsCalm(w, step, name, service);
      forall other | other != service ensures NoneNamed(VmsIn(Next(w, step).vms, other), name) {
        StepIsCalm(w, step, name, other);
      }
    }
  }

  lemma PendingScoped(w: World, step: Step, name: string, service: string)
    requires Enabled(w, step) && name in w.machines && step != Forget(name) && ScopedTo(w, step, name, service)
    requires w.machines[name].pending.WillCreate? ==> w.machines[name].pending.service == service
    ensures name in Next(w, step).machines
    ensures var q := Next(w, step).machines[name].pending; q.WillCreate? ==> q.service == service
  {
    if !(step.Check? && step.name == name) {
      PendingAfter(w, step, name);
    }
  }

  lemma WithinIsAlone(w: World, name: string, service: string)
    requires Within(w, name, service)
    ensures Alone(w, name)
  {
    VacantMakesAlone(w, w, name, service);
  }

  /** At most one VM per machine: in every stretch of every run, with any number of machines, any
      interleaving, failures, stale reads, restarts and doings of the environment, at most one VM bears the
      machine's name, if all scopes opened for its checks and Creates are bound to one service instance,
      and the VM it starts with, if any, is there. */
  lemma {:induction false} AtMostOneVmPerMachine(ws: seq<World>, steps: seq<Step>, b: nat, n: nat, name: string,
                                                 service: string)
    requires IsRun(ws, steps) && Initial(ws[0]) && b <= n <= |steps|
    requires Lives(steps, b, n, name) && Within(ws[b], name, service)
    requires forall i :: b <= i < n ==> ScopedTo(ws[i], steps[i], name, service)
    ensures Within(ws[n], name, service) && Alone(ws[n], name)
    decreases n
  {
    if b < n {
      AtMostOneVmPerMachine(ws, steps, b, n - 1, name, service);
      RunKeepsInv(ws, steps, n - 1);
      assert Enabled(ws[n - 1], steps[n - 1]);
      RunKeepsCleared(ws, steps, n - 1, name);
      StepKeepsWithin(ws[n - 1], steps[n - 1], name, service);
      assert ws[n - 1 + 1] == Next(ws[n - 1], steps[n - 1]);
    }
    WithinIsAlone(ws[n], name, service);
  }

  /******* Runs that are not careful *******/

  // The answers to a check and to a Create whose lookups give `service`, and whose patches are refused.
  function Asking(service: string): Inputs {
    Inputs(Some(service), true, "", "", None, true, true, Vm("", "", "", []), true, "",
           Dhcp(None, None, map[]), None, [], [Reply(Served, "")], [], Refused, Refused)
  }

  function Making(service: string, id: string): Inputs {
    Asking(service).(power := [Reply(Served, id), Reply(Served, "")])
  }

  // A machine of which nothing is stored.
  ghost predicate Unrecorded(w: World, name: string) {
    name in w.machines && w.machines[name] == Tracked(Spec(true, Unsupported, []), [BLANK], Idle)
  }

  lemma CheckFindsNone(w: World, name: string, service: string) returns (w': World)
    requires Unrecorded(w, name) && NoneNamed(VmsIn(w.vms, service), name)
    ensures Enabled(w, Check(name, 0, Asking(service))) && w' == Next(w, Check(name, 0, Asking(service)))
    ensures w' == SetPending(w, name, WillCreate(0, service))
  {
    FindNamedIs(VmsIn(w.vms, service), name);
    w' := Next(w, Check(name, 0, Asking(service)));
  }

  lemma StrayCreate(w: World, name: string, service: string, id: string) returns (w': World)
    requires Inv(w) && name in w.machines && id != "" && id !in w.issued
    requires w.machines[name].pending.WillCreate? && Unrecorded(SetPending(w, name, Idle), name)
    requires w.machines[name].pending.version == 0
    ensures Enabled(w, DoCreate(name, Making(service, id))) && w' == Next(w, DoCreate(name, Making(service, id)))
    ensures Unrecorded(w', name) && w'.issued == w.issued[id := name]
    ensures VmsIn(w'.vms, service) == VmsIn(w.vms, service) + [Vm(id, name, "", [])]
    ensures forall other :: other != service ==> VmsIn(w'.vms, other) == VmsIn(w.vms, other)
  {
    var step := DoCreate(name, Making(service, id));
    w' := Next(w, step);
    NextIs(w, step);
    BegunIsOk(w, step);
    LaunchServed(Begun(w, step).power, name, Making(service, id));
  }

  // A check that asks one service instance, and a Create in another or the same.
  lemma StrayReconcile(ws: seq<World>, steps: seq<Step>, name: string, asked: string, service: string, id: string)
    returns (ws': seq<World>, steps': seq<Step>)
    requires IsRun(ws, steps) && Inv(ws[0]) && id != "" && id !in ws[|steps|].issued
    requires Unrecorded(ws[|steps|], name) && NoneNamed(VmsIn(ws[|steps|].vms, asked), name)
    ensures IsRun(ws', steps') && |steps'| == |steps| + 2 && ws <= ws'
    ensures var w, w' := ws[|steps|], ws'[|steps'|];
            && Unrecorded(w', name) && w'.issued == w.issued[id := name]
            && VmsIn(w'.vms, service) == VmsIn(w.vms, service) + [Vm(id, name, "", [])]
            && forall other :: other != service ==> VmsIn(w'.vms, other) == VmsIn(w.vms, other)
  {
    var check, create := Check(name, 0, Asking(asked)), DoCreate(name, Making(service, id));
    var w := ws[|steps|];
    var w1 := CheckFindsNone(w, name, asked);
    RunKeepsInv(ws, steps, |steps|);
    StepKeepsInv(w, check);
    assert SetPending(w1, name, Idle).machines == w.machines;
    var w2 := StrayCreate(w1, name, service, id);
    RunExtends(ws, steps, check, w1);
    RunExtends(ws + [w1], steps + [check], create, w2);
    ws', steps' := ws + [w1] + [w2], steps + [check] + [create];
  }

  lemma Adopted(name: string) returns (ws: seq<World>, steps: seq<Step>)
    ensures IsRun(ws, steps) && |steps| == 1 && Initial(ws[0]) && Inv(ws[0])
    ensures Unrecorded(ws[1], name) && ws[1].issued == map[] && forall service :: VmsIn(ws[1].vms, service) == []
  {
    var w := World(map[], map[], Vpc(map[], 0, []), map[], 0, [], map[]);
    var adopt := Adopt(name, Spec(true, Unsupported, []));
    ws, steps := [w, Next(w, adopt)], [adopt];
  }

  /** Two VMs of one machine, without any stale read: the id of the service instance is not stored, and two
      lookups give different answers. */
  lemma TwoVmsOfOneMachine(name: string, a: string, b: string) returns (ws: seq<World>, steps: seq<Step>)
    requires a != b
    ensures IsRun(ws, steps) && Initial(ws[0]) && |steps| == 5
    ensures VmsIn(ws[5].vms, a) == [Vm("1", name, "", [])] && VmsIn(ws[5].vms, b) == [Vm("2", name, "", [])]
    ensures name in ws[1].machines && Alone(ws[1], name) && !Alone(ws[5], name)
  {
    ws, steps := Adopted(name);
    assert Alone(ws[1], name);
    ws, steps := StrayReconcile(ws, steps, name, a, a, "1");
    ws, steps := StrayReconcile(ws, steps, name, b, b, "2");
    assert Bears(ws[5], a, 0, name) && Bears(ws[5], b, 0, name);
  }

  /** Two VMs of one machine in one service instance: the checks ask another one. */
  lemma TwoVmsInOneService(name: string, a: string, b: string) returns (ws: seq<World>, steps: seq<Step>)
    requires a != b
    ensures IsRun(ws, steps) && Initial(ws[0]) && |steps| == 5
    ensures VmsIn(ws[5].vms, b) == [Vm("1", name, "", []), Vm("2", name, "", [])]
    ensures !OnePerService(ws[5], name)
  {
    ws, steps := Adopted(name);
    ws, steps := StrayReconcile(ws, steps, name, a, b, "1");
    ws, steps := StrayReconcile(ws, steps, name, a, b, "2");
    assert VmsIn(ws[5].vms, b)[0].name == name && VmsIn(ws[5].vms, b)[1].name == name;
    assert !AtMostOne(VmsIn(ws[5].vms, b), name);
  }

  /** A Delete that reports success and leaves the VM: it asked another service instance. */
  lemma DeleteMissesVm(name: string, a: string, b: string) returns (ws: seq<World>, steps: seq<Step>)
    requires a != b
    ensures IsRun(ws, steps) && Initial(ws[0]) && |steps| == 4 && steps[3] == DoDelete(name, 0, Asking(b))
    ensures Enabled(ws[3], steps[3]) && Opens(ws[3], steps[3])
    ensures Delete(Begun(ws[3], steps[3]), name, ws[3].machines[name].spec, Asking(b)).1 == Done
    ensures VmsIn(ws[4].vms, a) == [Vm("1", name, "", [])]
  {
    ws, steps := Adopted(name);
    ws, steps := StrayReconcile(ws, steps, name, a, a, "1");
    var step := DoDelete(name, 0, Asking(b));
    var w := ws[3];
    assert Enabled(w, step);
    NextIs(w, step);
    RunExtends(ws, steps, step, Next(w, step));
    ws, steps := ws + [Next(w, step)], steps + [step];
  }
}
