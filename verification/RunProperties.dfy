/** What holds in every world of every run, beyond the naming of VMs: the cache, the stored status,
    and the order of deletion. */
module RunProperties {
  import opened Calls
  import opened LoadBalancers
  import opened Addresses
  import opened Machines
  import opened Operations
  import opened Protocol
  import Outcomes
  import Conditions
  import Registration
  import Deregistration
  import ProviderId

  /******* VMs *******/

  /** In every run, no stored version of a Machine object, however old, records the id of another machine's
      VM, in whichever service instance that is. */
  lemma StoredIdsAreOwn(ws: seq<World>, steps: seq<Step>, n: nat, name: string, service: string)
    requires IsRun(ws, steps) && Initial(ws[0]) && n <= |steps| && name in ws[n].machines
    ensures forall m, vm :: m in ws[n].machines[name].history && vm in VmsIn(ws[n].vms, service) ==>
              (m.status.instance == Some(vm.id) && vm.id != "" ==> vm.name == name)
  {
    RunKeepsInv(ws, steps, n);
    assert PowerOk(PowerOf(ws[n], service, []));
    assert TrackedOk(ws[n].issued, name, ws[n].machines[name]);
  }

  /** Provider ids tell machines apart: no two machines ever store the same one, in any version, as long
      as VM ids contain no slash. */
  lemma ProviderIdsAreDistinct(ws: seq<World>, steps: seq<Step>, n: nat, a: string, b: string, m: Machine, m': Machine)
    requires IsRun(ws, steps) && Initial(ws[0]) && n <= |steps|
    requires a in ws[n].machines && b in ws[n].machines && a != b
    requires m in ws[n].machines[a].history && m' in ws[n].machines[b].history && m.providerId.Some?
    requires forall id :: id in ws[n].issued ==> '/' !in id
    ensures m.providerId != m'.providerId
  {
    RunKeepsInv(ws, steps, n);
    var p := ws[n].issued;
    assert OwnVersion(p, a, m) && OwnVersion(p, b, m');
    if m.providerId == m'.providerId {
      var r, z, s, v :| m.providerId.value == ProviderId.Format(r, z, s, v) && IssuedTo(p, v, a);
      var r', z', s', v' :| m'.providerId.value == ProviderId.Format(r', z', s', v') && IssuedTo(p, v', b);
      ProviderId.FormatNamesVm(r, z, s, v, r', z', s', v');
    }
  }

  /** A step of the controller touches VMs of its own machine only, and only in the service instance of its
      scope. Create removes at most stopped ones, Delete adds none, and every other step leaves them all
      alone. */
  lemma StepsTouchOwnVms(w: World, step: Step, service: string)
    requires Inv(w) && Enabled(w, step) && Patches(step)
    ensures var vms, vms' := VmsIn(w.vms, service), VmsIn(Next(w, step).vms, service);
            && (vms' != vms ==> Opens(w, step) && service == Scope(w, step))
            && (forall vm :: vm in vms && vm !in vms' ==>
                  vm.name == step.name && (step.DoDelete? || (step.DoCreate? && vm.status == SHUTOFF)))
            && (forall vm :: vm in vms' && vm !in vms ==> step.DoCreate? && vm.name == step.name)
  {
    NextIs(w, step);
    if Opens(w, step) && service == Scope(w, step) {
      EndedTouches(w, step);
    }
  }

  lemma EndedTouches(w: World, step: Step)
    requires Inv(w) && Enabled(w, step) && Patches(step) && Opens(w, step)
    ensures var vms, vms' := Begun(w, step).power.vms, Ended(w, step).power.vms;
            && (forall vm :: vm in vms && vm !in vms' ==>
                  vm.name == step.name && (step.DoDelete? || (step.DoCreate? && vm.status == SHUTOFF)))
            && (forall vm :: vm in vms' && vm !in vms ==> step.DoCreate? && vm.name == step.name)
  {
    BegunIsOk(w, step);
    var s, spec := Begun(w, step), w.machines[step.name].spec;
    match step {
      case DoCreate(name, inputs) => CreateTouches(s, name, spec, inputs, w.clock);
      case DoUpdate(name, inputs) => UpdateEffect(s, name, spec, inputs, w.clock);
      case DoDelete(name, _, inputs) => DeleteTouches(s, name, spec, inputs);
    }
  }

  lemma CreateTouches(s: Session, name: string, spec: Spec, inputs: Inputs, now: int)
    requires PowerOk(s.power)
    ensures var vms' := Create(s, name, spec, inputs, now).0.power.vms;
            && (forall vm :: vm in s.power.vms && vm !in vms' ==> vm.name == name && vm.status == SHUTOFF)
            && (forall vm :: vm in vms' && vm !in s.power.vms ==> vm.name == name)
  {
    var p, p' := Remaining(s.power, name, spec, inputs), Create(s, name, spec, inputs, now).0.power;
    RemainingIs(s.power, name, spec, inputs);
    CreateEffect(s, name, spec, inputs, now);
    if p'.vms != p.vms {
      assert p'.vms == p.vms + [p'.vms[|p.vms|]];
    }
  }

  lemma DeleteTouches(s: Session, name: string, spec: Spec, inputs: Inputs)
    requires PowerOk(s.power) && Owned(s.power.issued, name, s.status.instance) && Ordered(spec, inputs)
    ensures var vms' := Delete(s, name, spec, inputs).0.power.vms;
            && (forall vm :: vm in s.power.vms && vm !in vms' ==> vm.name == name)
            && (forall vm :: vm in vms' ==> vm in s.power.vms)
  {
    DeleteEffect(s, name, spec, inputs);
    var p' := Delete(s, name, spec, inputs).0.power;
    if p'.vms != s.power.vms {
      var gone :| gone in s.power.vms && gone.name == name && p'.vms == RemoveVm(s.power.vms, gone.id);
      RemoveVmIs(s.power.vms, gone.id);
      IdNamesOne(s.power.vms, gone);
    }
  }

  // The first calls to the Power VS service come through.
  ghost predicate CallsComeThrough(inputs: Inputs, calls: nat) {
    |inputs.power| >= calls && forall i :: 0 <= i < calls ==> inputs.power[i].fault == Served
  }

  /** No VM of the service instance is forgotten: whatever happened before, also a Create that made the VM
      but lost its id, a check whose calls come through leads to Update, not to another Create, exactly when
      the service instance of its scope holds a VM of the name. VMs elsewhere it does not see. */
  lemma ExistingVmIsFound(w: World, name: string, version: nat, inputs: Inputs)
    requires Inv(w) && Enabled(w, Check(name, version, inputs)) && CallsComeThrough(inputs, 3)
    requires OpenScope(w.machines[name].history[version], inputs).Some?
    ensures var service := OpenScope(w.machines[name].history[version], inputs).value.service.value;
            Next(w, Check(name, version, inputs)).machines[name].pending == WillUpdate(version)
            <==> !NoneNamed(VmsIn(w.vms, service), name)
  {
    var m := w.machines[name].history[version];
    assert m in w.machines[name].history;
    var st := OpenScope(m, inputs).value;
    assert PowerOk(PowerOf(w, st.service.value, []));
    LookupIsComplete(PowerOf(w, st.service.value, inputs.power), st.instance, name);
  }

  /******* The cache *******/

  ghost predicate Genuine(e: Leased, now: int) {
    e.machine == e.key && e.at <= now && DhcpIp(e.spec, e.networks, e.dhcp) == Some(e.ip)
  }

  ghost predicate Backs(e: Leased, key: string, entry: Entry) {
    e.key == key && e.ip == entry.ip && e.at == entry.at
  }

  /** Every logged lookup is one that DHCP answered for the machine itself, and every cache entry stems
      from a logged lookup, with its time. */
  ghost predicate CacheInv(w: World) {
    && (forall e :: e in w.lookups ==> Genuine(e, w.clock))
    && (forall k :: k in w.cache ==> exists e :: e in w.lookups && Backs(e, k, w.cache[k]))
  }

  lemma CacheAfter(w: World, w': World, name: string)
    requires CacheInv(w) && w'.clock >= w.clock
    requires || (w'.lookups == w.lookups && (w'.cache == w.cache || w'.cache == w.cache - {name} || w'.cache == map[]))
             || (&& |w'.lookups| == |w.lookups| + 1 && w'.lookups[..|w.lookups|] == w.lookups
                 && Genuine(w'.lookups[|w.lookups|], w'.clock)
                 && w'.lookups[|w.lookups|].key == name
                 && w'.cache == w.cache[name := Entry(w'.lookups[|w.lookups|].ip, w'.lookups[|w.lookups|].at)])
    ensures CacheInv(w')
  {
    if w'.lookups != w.lookups {
      var e := w'.lookups[|w.lookups|];
      assert w'.lookups == w.lookups + [e];
      assert e in w'.lookups && Backs(e, name, w'.cache[name]);
    }
    forall k | k in w'.cache && k != name ensures exists e :: e in w'.lookups && Backs(e, k, w'.cache[k]) {
      var e :| e in w.lookups && Backs(e, k, w.cache[k]);
      assert e in w'.lookups;
    }
    if name in w'.cache && w'.lookups == w.lookups {
      var e :| e in w.lookups && Backs(e, name, w.cache[name]);
      assert e in w'.lookups && Backs(e, name, w'.cache[name]);
    }
  }

  lemma StepKeepsCacheInv(w: World, step: Step)
    requires Inv(w) && CacheInv(w) && Enabled(w, step)
    ensures CacheInv(Next(w, step))
  {
    if Patches(step) {
      PatchKeepsCacheInv(w, step);
    } else {
      OtherStepCache(w, step);
      CacheAfter(w, Next(w, step), "");
    }
  }

  lemma OtherStepCache(w: World, step: Step)
    requires Enabled(w, step) && !Patches(step)
    ensures var w' := Next(w, step);
            w'.lookups == w.lookups && (w'.cache == w.cache || w'.cache == map[]) && w'.clock >= w.clock
  {
  }

  lemma PatchKeepsCacheInv(w: World, step: Step)
    requires Inv(w) && CacheInv(w) && Enabled(w, step) && Patches(step)
    ensures CacheInv(Next(w, step))
  {
    NextIs(w, step);
    if Opens(w, step) {
      CacheStep(w, step);
    }
    CacheAfter(w, Next(w, step), step.name);
  }

  lemma CacheStep(w: World, step: Step)
    requires Inv(w) && Enabled(w, step)
    requires Patches(step) && Opens(w, step)
    ensures var s' := Ended(w, step);
            || (s'.lookups == w.lookups && (s'.cache == w.cache || s'.cache == w.cache - {step.name}))
            || LoggedLookup(Begun(w, step), s', step.name, w.clock)
  {
    BegunIsOk(w, step);
    var s, spec := Begun(w, step), w.machines[step.name].spec;
    match step {
      case DoCreate(name, inputs) => CreateEffect(s, name, spec, inputs, w.clock);
      case DoUpdate(name, inputs) => UpdateCaches(s, name, spec, inputs, w.clock);
      case DoDelete(name, version, inputs) => DeleteEffect(s, name, spec, inputs);
    }
  }

  lemma {:induction false} RunKeepsCacheInv(ws: seq<World>, steps: seq<Step>, n: nat)
    requires IsRun(ws, steps) && Inv(ws[0]) && CacheInv(ws[0]) && n <= |steps|
    ensures CacheInv(ws[n])
  {
    if n > 0 {
      RunKeepsCacheInv(ws, steps, n - 1);
      RunKeepsInv(ws, steps, n - 1);
      StepKeepsCacheInv(ws[n - 1], steps[n - 1]);
      assert ws[n - 1 + 1] == Next(ws[n - 1], steps[n - 1]);
    }
  }

  /** Bounded staleness, in every world of every run: an IP that the cache yields for a machine was
      leased to a VM of that name, as DHCP answered for that very machine, at most the cache's lifetime
      ago. As long as the lookup would still have the same answer, the addresses are those that an
      empty cache would give. */
  lemma CacheIsBoundedlyStale(ws: seq<World>, steps: seq<Step>, n: nat, name: string) returns (e: Leased)
    requires IsRun(ws, steps) && Inv(ws[0]) && CacheInv(ws[0]) && n <= |steps|
    requires Cached(ws[n].cache, name, ws[n].clock).Some?
    ensures e in ws[n].lookups && e.machine == name && e.key == name
    ensures Cached(ws[n].cache, name, ws[n].clock) == Some(e.ip) == DhcpIp(e.spec, e.networks, e.dhcp)
    ensures ws[n].clock - CACHE_TTL <= e.at <= ws[n].clock
    ensures forall networks, dhcp :: DhcpIp(e.spec, networks, dhcp) == DhcpIp(e.spec, e.networks, e.dhcp) ==>
              Resolve(name, networks, e.spec, dhcp, ws[n].cache, ws[n].clock).addresses
              == Resolve(name, networks, e.spec, dhcp, map[], ws[n].clock).addresses
  {
    RunKeepsCacheInv(ws, steps, n);
    e :| e in ws[n].lookups && Backs(e, name, ws[n].cache[name]);
    forall networks, dhcp | DhcpIp(e.spec, networks, dhcp) == DhcpIp(e.spec, e.networks, e.dhcp)
      ensures Resolve(name, networks, e.spec, dhcp, ws[n].cache, ws[n].clock).addresses
              == Resolve(name, networks, e.spec, dhcp, map[], ws[n].clock).addresses
    {
      CacheIsTransparent(name, networks, e.spec, dhcp, ws[n].cache, ws[n].clock);
    }
  }

  /******* The stored status *******/

  /** A step that patches the status as well. */
  ghost predicate StoresStatus(w: World, step: Step)
    requires Enabled(w, step) && Patches(step)
  {
    Opens(w, step) && step.inputs.patch == Served && step.inputs.patchStatus != Refused
  }

  ghost predicate Carries(id: string, service: string) {
    exists region, zone, vm :: id == ProviderId.Format(region, zone, service, vm)
  }

  /** What the status part of an operation on copy `m` amounts to. */
  ghost predicate Outgrown(m: Machine, s: Session, inputs: Inputs) {
    && OpenScope(m, inputs).Some?
    && s.status.service == OpenScope(m, inputs).value.service
    && (Conditions.OneReport(m.status.conditions) ==> Conditions.OneReport(s.status.conditions))
    && (|| s.machine.providerId == m.providerId
        || (&& m.status.service.Some? && s.machine.providerId.Some?
            && Carries(s.machine.providerId.value, m.status.service.value)))
  }

  lemma CreateOutgrows(s: Session, name: string, spec: Spec, inputs: Inputs, now: int)
    ensures var s' := Create(s, name, spec, inputs, now).0;
            && s'.machine == s.machine && s'.status.service == s.status.service
            && (Conditions.OneReport(s.status.conditions) ==> Conditions.OneReport(s'.status.conditions))
  {
  }

  lemma UpdateFoundOutgrows(s: Session, name: string, vm: Vm, spec: Spec, inputs: Inputs, now: int)
    requires Ordered(spec, inputs) && s.machine.status.service.Some?
    ensures var s' := UpdateFound(s, name, vm, spec, inputs, now).0;
            var id := ProviderId.Format(inputs.region, inputs.zone, s.machine.status.service.value, vm.id);
            && s'.status.service == s.status.service && s'.machine.providerId == Some(id)
            && (Conditions.OneReport(s.status.conditions) ==> Conditions.OneReport(s'.status.conditions))
  {
    if Conditions.OneReport(s.status.conditions) {
      Conditions.SetConditionReports(Conditions.Success(), s.status.conditions, now);
      var once := Conditions.SetCondition(Conditions.Success(), s.status.conditions, now);
      Conditions.SetConditionReports(Conditions.Build(), once, now);
    }
  }

  lemma UpdateOutgrows(s: Session, name: string, spec: Spec, inputs: Inputs, now: int)
    requires Ordered(spec, inputs)
    ensures var s' := Update(s, name, spec, inputs, now).0;
            && s'.status.service == s.status.service
            && (Conditions.OneReport(s.status.conditions) ==> Conditions.OneReport(s'.status.conditions))
            && (|| s'.machine.providerId == s.machine.providerId
                || (&& s.machine.status.service.Some? && s'.machine.providerId.Some?
                    && Carries(s'.machine.providerId.value, s.machine.status.service.value)))
  {
    var (p, found) := GetMachineInstance(s.power, s.status.instance, name);
    if found.Found? && s.machine.status.service.Some? {
      UpdateFoundOutgrows(s.(power := p), name, found.vm, spec, inputs, now);
    }
  }

  lemma DeleteOutgrows(s: Session, name: string, spec: Spec, inputs: Inputs)
    requires Ordered(spec, inputs)
    ensures var s' := Delete(s, name, spec, inputs).0; s'.machine == s.machine && s'.status == s.status
  {
  }

  lemma EndedOutgrows(w: World, step: Step)
    requires Enabled(w, step) && Patches(step) && Opens(w, step)
    ensures Outgrown(ReadBy(w, step), Ended(w, step), step.inputs)
  {
    var s, spec := Begun(w, step), w.machines[step.name].spec;
    match step {
      case DoCreate(name, inputs) => CreateOutgrows(s, name, spec, inputs, w.clock);
      case DoUpdate(name, inputs) => UpdateOutgrows(s, name, spec, inputs, w.clock);
      case DoDelete(name, version, inputs) => DeleteOutgrows(s, name, spec, inputs);
    }
  }

  // The history of a machine after a step that patches its object.
  lemma HistoryOfPatch(w: World, step: Step) returns (base: Machine, s: Session, history: seq<Machine>)
    requires Enabled(w, step) && Patches(step) && Opens(w, step)
    ensures base == ReadBy(w, step) && base in w.machines[step.name].history && Outgrown(base, s, step.inputs)
    ensures s == Ended(w, step)
    ensures history == w.machines[step.name].history
              + Patch(Current(w.machines[step.name]), base, s, step.inputs.patch, step.inputs.patchStatus)
    ensures step.name in Next(w, step).machines && Next(w, step).machines[step.name].history == history
  {
    NextIs(w, step);
    EndedOutgrows(w, step);
    base, s := ReadBy(w, step), Ended(w, step);
    history := Next(w, step).machines[step.name].history;
  }

  // A reconcile of this machine that gets as far as patching.
  ghost predicate Reconciles(w: World, step: Step, name: string)
    requires Enabled(w, step)
  {
    Patches(step) && step.name == name && Opens(w, step)
  }

  // What any other step may do to the history of a machine.
  lemma OtherStep(w: World, step: Step, name: string)
    requires Enabled(w, step) && name in w.machines && step != Forget(name) && !Reconciles(w, step, name)
    ensures name in Next(w, step).machines
    ensures Touched(w.machines[name].history, Next(w, step).machines[name].history)
  {
    if Patches(step) {
      NextIs(w, step);
    }
  }

  lemma HistoryGrows(w: World, step: Step, name: string)
    requires Enabled(w, step) && name in w.machines && step != Forget(name)
    ensures name in Next(w, step).machines && w.machines[name].history <= Next(w, step).machines[name].history
  {
    if Reconciles(w, step, name) {
      NextIs(w, step);
    } else {
      OtherStep(w, step, name);
    }
  }

  lemma {:induction false} HistoryGrowsInRun(ws: seq<World>, steps: seq<Step>, i: nat, j: nat, name: string)
    requires IsRun(ws, steps) && i <= j <= |steps| && name in ws[i].machines && Lives(steps, i, j, name)
    ensures name in ws[j].machines && ws[i].machines[name].history <= ws[j].machines[name].history
  {
    if i < j {
      HistoryGrowsInRun(ws, steps, i, j - 1, name);
      HistoryGrows(ws[j - 1], steps[j - 1], name);
      assert ws[j - 1 + 1] == Next(ws[j - 1], steps[j - 1]);
    }
  }

  /******* The service instance id is never unset, and the conditions hold one report *******/

  ghost predicate RecordsOk(history: seq<Machine>) {
    && history != []
    && (forall i, j :: 0 <= i <= j < |history| && history[i].status.service.Some? ==> history[j].status.service.Some?)
    && (forall i :: 0 <= i < |history| ==> Conditions.OneReport(history[i].status.conditions))
  }

  ghost predicate RecordsInv(w: World) {
    forall name :: name in w.machines ==> RecordsOk(w.machines[name].history)
  }

  lemma AppendKeepsRecords(history: seq<Machine>, m: Machine)
    requires RecordsOk(history) && Conditions.OneReport(m.status.conditions)
    requires history[|history| - 1].status.service.Some? ==> m.status.service.Some?
    ensures RecordsOk(history + [m])
  {
    assert forall i :: 0 <= i < |history| && history[i].status.service.Some? ==>
      history[|history| - 1].status.service.Some?;
  }

  lemma PatchKeepsRecords(history: seq<Machine>, base: Machine, s: Session, inputs: Inputs)
    requires RecordsOk(history) && base in history && Outgrown(base, s, inputs)
    ensures RecordsOk(history + Patch(history[|history| - 1], base, s, inputs.patch, inputs.patchStatus))
  {
    var more := Patch(history[|history| - 1], base, s, inputs.patch, inputs.patchStatus);
    if more == [] {
      assert history + more == history;
    } else {
      AppendKeepsRecords(history, more[0]);
      if |more| == 1 {
        assert more == [more[0]];
      } else {
        AppendKeepsRecords(history + [more[0]], more[1]);
        assert history + more == history + [more[0]] + [more[1]];
      }
    }
  }

  lemma PatchFromKeepsRecords(t: Tracked, base: Machine, s: Session, inputs: Inputs, history: seq<Machine>)
    requires RecordsOk(t.history) && base in t.history && Outgrown(base, s, inputs)
    requires history == t.history + Patch(Current(t), base, s, inputs.patch, inputs.patchStatus)
    ensures RecordsOk(history)
  {
    PatchKeepsRecords(t.history, base, s, inputs);
  }

  lemma TouchKeepsRecords(h: seq<Machine>, h': seq<Machine>)
    requires RecordsOk(h) && Touched(h, h')
    ensures RecordsOk(h')
  {
    if h' != h {
      var at :| h' == h + [h[|h| - 1].(lastUpdated := Some(at))];
      AppendKeepsRecords(h, h[|h| - 1].(lastUpdated := Some(at)));
    }
  }

  lemma OwnStepKeepsRecords(w: World, step: Step)
    requires Enabled(w, step) && Patches(step) && Opens(w, step) && RecordsOk(w.machines[step.name].history)
    ensures step.name in Next(w, step).machines && RecordsOk(Next(w, step).machines[step.name].history)
  {
    var base, s, history := HistoryOfPatch(w, step);
    PatchFromKeepsRecords(w.machines[step.name], base, s, step.inputs, history);
  }

  lemma StepKeepsRecordsOf(w: World, step: Step, name: string)
    requires Enabled(w, step) && (name in w.machines ==> RecordsOk(w.machines[name].history))
    ensures name in Next(w, step).machines ==> RecordsOk(Next(w, step).machines[name].history)
  {
    if name in w.machines && step != Forget(name) {
      if Reconciles(w, step, name) {
        OwnStepKeepsRecords(w, step);
      } else {
        OtherStep(w, step, name);
        TouchKeepsRecords(w.machines[name].history, Next(w, step).machines[name].history);
      }
    }
  }

  lemma StepKeepsRecords(w: World, step: Step)
    requires RecordsInv(w) && Enabled(w, step)
    ensures RecordsInv(Next(w, step))
  {
    forall name | name in Next(w, step).machines ensures RecordsOk(Next(w, step).machines[name].history) {
      StepKeepsRecordsOf(w, step, name);
    }
  }

  lemma {:induction false} RunKeepsRecords(ws: seq<World>, steps: seq<Step>, n: nat)
    requires IsRun(ws, steps) && RecordsInv(ws[0]) && n <= |steps|
    ensures RecordsInv(ws[n])
  {
    if n > 0 {
      RunKeepsRecords(ws, steps, n - 1);
      StepKeepsRecords(ws[n - 1], steps[n - 1]);
      assert ws[n - 1 + 1] == Next(ws[n - 1], steps[n - 1]);
    }
  }

  /** Self-healing, in every run: a reconcile whose status patch gets through, on whatever copy, leaves a
      recorded service instance id, and it is recorded in all versions from then on, so that no Update on
      any of them lacks one. */
  lemma ServiceIsRecorded(ws: seq<World>, steps: seq<Step>, n: nat, j: nat, k: nat)
    requires IsRun(ws, steps) && Initial(ws[0]) && n < j <= |steps|
    requires Patches(steps[n]) && StoresStatus(ws[n], steps[n]) && Lives(steps, n, j, steps[n].name)
    ensures steps[n].name in ws[n + 1].machines && steps[n].name in ws[j].machines
    ensures var name := steps[n].name;
            |ws[n + 1].machines[name].history| <= k + 1 && k < |ws[j].machines[name].history| ==>
              ws[j].machines[name].history[k].status.service.Some?
  {
    var w, step, name := ws[n], steps[n], steps[n].name;
    assert Enabled(w, step) && ws[n + 1] == Next(w, step);
    RunKeepsRecords(ws, steps, n);
    RunKeepsRecords(ws, steps, j);
    StatusPatchRecords(w, step);
    HistoryGrowsInRun(ws, steps, n + 1, j, name);
    var a, b := ws[n + 1].machines[name].history, ws[j].machines[name].history;
    assert a[|a| - 1] == b[|a| - 1];
  }

  lemma StatusPatchRecords(w: World, step: Step)
    requires Enabled(w, step) && Patches(step) && StoresStatus(w, step) && RecordsOk(w.machines[step.name].history)
    ensures step.name in Next(w, step).machines
    ensures var t := Next(w, step).machines[step.name];
            t.history != [] && Current(t).status.service.Some?
  {
    var m, s, history := HistoryOfPatch(w, step);
    var t := w.machines[step.name];
    var i :| 0 <= i < |t.history| && t.history[i] == m;
    assert m.status.service.Some? ==> Current(t).status.service.Some?;
  }

  /******* The service instance id is sticky *******/

  lemma PatchSticksExactly(stored: Machine, base: Machine, s: Session, inputs: Inputs, service: string)
    requires stored.status.service == Some(service) && Outgrown(base, s, inputs)
    ensures var vs := [stored] + Patch(stored, base, s, inputs.patch, inputs.patchStatus);
            vs[|vs| - 1].status.service == Some(service) <==>
              || !(inputs.patch == Served && inputs.patchStatus != Refused)
              || base.status.service.Some? || inputs.service == Some(service)
  {
  }

  lemma LastOfPatch(history: seq<Machine>, more: seq<Machine>)
    requires history != []
    ensures (history + more)[|history + more| - 1] == ([history[|history| - 1]] + more)[|more|]
  {
  }

  /** Exactly when a step keeps a recorded service instance id: its status patch does not get through, the
      copy it read had one, or the lookup it made instead gave the same. */
  lemma StickyExactly(w: World, step: Step, service: string)
    requires Enabled(w, step) && Patches(step)
    requires Current(w.machines[step.name]).status.service == Some(service)
    ensures step.name in Next(w, step).machines
    ensures var t := Next(w, step).machines[step.name];
            && t.history != []
            && (Current(t).status.service == Some(service) <==>
                  || !StoresStatus(w, step)
                  || ReadBy(w, step).status.service.Some?
                  || step.inputs.service == Some(service))
  {
    if Opens(w, step) {
      var base, s, history := HistoryOfPatch(w, step);
      PatchSticksExactly(Current(w.machines[step.name]), base, s, step.inputs, service);
      LastOfPatch(w.machines[step.name].history, Patch(Current(w.machines[step.name]), base, s,
                                                       step.inputs.patch, step.inputs.patchStatus));
    } else {
      OtherStep(w, step, step.name);
    }
  }

  /** The condition of StickyExactly, for a step on machine `name`. */
  ghost predicate ReadsService(w: World, step: Step, name: string)
    requires Enabled(w, step)
  {
    Patches(step) && step.name == name && Current(w.machines[name]).status.service.Some? ==>
      || !StoresStatus(w, step)
      || ReadBy(w, step).status.service.Some?
      || step.inputs.service == Current(w.machines[name]).status.service
  }

  ghost predicate VersionOk(m: Machine) {
    m.providerId.Some? ==> m.status.service.Some? && Carries(m.providerId.value, m.status.service.value)
  }

  /** Once a version records the service instance id, all later ones record the same, and a stored provider
      id carries the service instance id stored beside it. */
  ghost predicate HistoryOk(history: seq<Machine>) {
    && history != []
    && (forall i, j :: 0 <= i <= j < |history| && history[i].status.service.Some? ==>
          history[j].status.service == history[i].status.service)
    && (forall i :: 0 <= i < |history| ==> VersionOk(history[i]))
  }

  lemma AppendKeepsHistory(history: seq<Machine>, m: Machine)
    requires HistoryOk(history) && VersionOk(m)
    requires history[|history| - 1].status.service.Some? ==> m.status.service == history[|history| - 1].status.service
    ensures HistoryOk(history + [m])
  {
    assert forall i :: 0 <= i < |history| && history[i].status.service.Some? ==>
      history[|history| - 1].status.service == history[i].status.service;
  }

  lemma PatchKeepsHistory(history: seq<Machine>, base: Machine, s: Session, inputs: Inputs)
    requires HistoryOk(history) && base in history && Outgrown(base, s, inputs)
    requires history[|history| - 1].status.service.Some? ==>
               || !(inputs.patch == Served && inputs.patchStatus != Refused)
               || base.status.service.Some? || inputs.service == history[|history| - 1].status.service
    ensures HistoryOk(history + Patch(history[|history| - 1], base, s, inputs.patch, inputs.patchStatus))
  {
    var stored := history[|history| - 1];
    var more := Patch(stored, base, s, inputs.patch, inputs.patchStatus);
    var i :| 0 <= i < |history| && history[i] == base;
    assert base.status.service.Some? ==> stored.status.service == base.status.service;
    assert VersionOk(stored) && VersionOk(base);
    if more == [] {
      assert history + more == history;
    } else {
      AppendKeepsHistory(history, more[0]);
      if |more| == 1 {
        assert more == [more[0]];
      } else {
        AppendKeepsHistory(history + [more[0]], more[1]);
        assert history + more == history + [more[0]] + [more[1]];
      }
    }
  }

  lemma PatchFromKeepsHistory(w: World, step: Step, base: Machine, s: Session, history: seq<Machine>)
    requires Enabled(w, step) && Patches(step) && Opens(w, step) && ReadsService(w, step, step.name)
    requires HistoryOk(w.machines[step.name].history) && base in w.machines[step.name].history
    requires base == ReadBy(w, step) && Outgrown(base, s, step.inputs)
    requires history == w.machines[step.name].history
               + Patch(Current(w.machines[step.name]), base, s, step.inputs.patch, step.inputs.patchStatus)
    ensures HistoryOk(history)
  {
    PatchKeepsHistory(w.machines[step.name].history, base, s, step.inputs);
  }

  lemma OwnStepKeepsHistory(w: World, step: Step)
    requires Enabled(w, step) && Patches(step) && Opens(w, step) && ReadsService(w, step, step.name)
    requires HistoryOk(w.machines[step.name].history)
    ensures step.name in Next(w, step).machines && HistoryOk(Next(w, step).machines[step.name].history)
  {
    var base, s, history := HistoryOfPatch(w, step);
    PatchFromKeepsHistory(w, step, base, s, history);
  }

  lemma StepKeepsHistory(w: World, step: Step, name: string)
    requires Enabled(w, step) && ReadsService(w, step, name)
    requires name in w.machines ==> HistoryOk(w.machines[name].history)
    ensures name in Next(w, step).machines ==> HistoryOk(Next(w, step).machines[name].history)
  {
    if name in w.machines && step != Forget(name) {
      if Reconciles(w, step, name) {
        OwnStepKeepsHistory(w, step);
      } else {
        OtherStep(w, step, name);
        TouchKeepsHistory(w.machines[name].history, Next(w, step).machines[name].history);
      }
    }
  }

  lemma TouchKeepsHistory(h: seq<Machine>, h': seq<Machine>)
    requires HistoryOk(h) && Touched(h, h')
    ensures HistoryOk(h')
  {
    if h' != h {
      var at :| h' == h + [h[|h| - 1].(lastUpdated := Some(at))];
      assert VersionOk(h[|h| - 1]);
      AppendKeepsHistory(h, h[|h| - 1].(lastUpdated := Some(at)));
    }
  }

  ghost predicate HistoryFine(w: World, name: string) {
    name in w.machines ==> HistoryOk(w.machines[name].history)
  }

  ghost predicate StaysFine(ws: seq<World>, k: nat, name: string) {
    k + 1 < |ws| && (HistoryFine(ws[k], name) ==> HistoryFine(ws[k + 1], name))
  }

  lemma StepStaysFine(ws: seq<World>, steps: seq<Step>, k: nat, name: string)
    requires IsRun(ws, steps) && k < |steps| && ReadsService(ws[k], steps[k], name)
    ensures StaysFine(ws, k, name)
  {
    assert Enabled(ws[k], steps[k]) && ws[k + 1] == Next(ws[k], steps[k]);
    if HistoryFine(ws[k], name) {
      StepKeepsHistory(ws[k], steps[k], name);
    }
  }

  lemma {:induction false} FineAlong(ws: seq<World>, b: nat, n: nat, name: string)
    requires b <= n < |ws| && HistoryFine(ws[b], name) && forall k :: b <= k < n ==> StaysFine(ws, k, name)
    ensures HistoryFine(ws[n], name)
    decreases n
  {
    if b < n {
      FineAlong(ws, b, n - 1, name);
      assert StaysFine(ws, n - 1, name);
    }
  }

  // From a world without the machine on.
  lemma RunKeepsHistory(ws: seq<World>, steps: seq<Step>, b: nat, n: nat, name: string)
    requires IsRun(ws, steps) && b <= n <= |steps| && name !in ws[b].machines
    requires forall i :: b <= i < n ==> ReadsService(ws[i], steps[i], name)
    ensures HistoryFine(ws[n], name)
  {
    forall k | b <= k < n ensures StaysFine(ws, k, name) {
      StepStaysFine(ws, steps, k, name);
    }
    FineAlong(ws, b, n, name);
  }

  // All versions from `from` on record `service`.
  ghost predicate Records(history: seq<Machine>, from: nat, service: Option<string>) {
    && 0 <= from < |history|
    && forall k :: from <= k < |history| ==> history[k].status.service == service
  }

  lemma OwnStepSticks(w: World, step: Step, from: nat, service: Option<string>)
    requires Enabled(w, step) && Patches(step) && Opens(w, step) && ReadsService(w, step, step.name)
    requires service.Some? && Records(w.machines[step.name].history, from, service)
    ensures step.name in Next(w, step).machines && Records(Next(w, step).machines[step.name].history, from, service)
  {
    var base, s, history := HistoryOfPatch(w, step);
  }

  lemma StepSticks(w: World, step: Step, name: string, from: nat, service: Option<string>)
    requires Enabled(w, step) && name in w.machines && step != Forget(name) && ReadsService(w, step, name)
    requires service.Some? && Records(w.machines[name].history, from, service)
    ensures name in Next(w, step).machines && Records(Next(w, step).machines[name].history, from, service)
  {
    if Reconciles(w, step, name) {
      OwnStepSticks(w, step, from, service);
    } else {
      OtherStep(w, step, name);
    }
  }

  ghost predicate RecordsIn(w: World, name: string, from: nat, service: Option<string>) {
    name in w.machines && Records(w.machines[name].history, from, service)
  }

  ghost predicate StaysRecorded(ws: seq<World>, k: nat, name: string, from: nat, service: Option<string>) {
    k + 1 < |ws| && (RecordsIn(ws[k], name, from, service) ==> RecordsIn(ws[k + 1], name, from, service))
  }

  lemma StepStaysRecorded(ws: seq<World>, steps: seq<Step>, k: nat, name: string, from: nat, service: Option<string>)
    requires IsRun(ws, steps) && k < |steps| && steps[k] != Forget(name) && service.Some?
    requires ReadsService(ws[k], steps[k], name)
    ensures StaysRecorded(ws, k, name, from, service)
  {
    assert Enabled(ws[k], steps[k]) && ws[k + 1] == Next(ws[k], steps[k]);
    if RecordsIn(ws[k], name, from, service) {
      StepSticks(ws[k], steps[k], name, from, service);
    }
  }

  lemma {:induction false} RecordedAlong(ws: seq<World>, i: nat, j: nat, name: string, from: nat,
                                         service: Option<string>)
    requires i <= j < |ws| && RecordsIn(ws[i], name, from, service)
    requires forall k :: i <= k < j ==> StaysRecorded(ws, k, name, from, service)
    ensures RecordsIn(ws[j], name, from, service)
    decreases j
  {
    if i < j {
      RecordedAlong(ws, i, j - 1, name, from, service);
      assert StaysRecorded(ws, j - 1, name, from, service);
    }
  }

  /** The service instance id is sticky over runs: once recorded, it is the same in every version stored as
      long as every step of this machine meets the exact condition. */
  lemma ServiceIsSticky(ws: seq<World>, steps: seq<Step>, i: nat, j: nat, name: string)
    requires IsRun(ws, steps) && i <= j <= |steps| && name in ws[i].machines && ws[i].machines[name].history != []
    requires Current(ws[i].machines[name]).status.service.Some? && Lives(steps, i, j, name)
    requires forall n :: i <= n < j ==> ReadsService(ws[n], steps[n], name)
    ensures var t := ws[i].machines[name];
            && name in ws[j].machines
            && Records(ws[j].machines[name].history, |t.history| - 1, Current(t).status.service)
  {
    var from, service := |ws[i].machines[name].history| - 1, Current(ws[i].machines[name]).status.service;
    forall k | i <= k < j ensures StaysRecorded(ws, k, name, from, service) {
      StepStaysRecorded(ws, steps, k, name, from, service);
    }
    RecordedAlong(ws, i, j, name, from, service);
  }

  /** Under the same condition since the object came into being, every provider id ever stored carries the
      service instance id stored beside it, even where only the first of the two patches got through. */
  lemma ProviderIdCarriesService(ws: seq<World>, steps: seq<Step>, b: nat, j: nat, name: string, m: Machine)
    requires IsRun(ws, steps) && b <= j <= |steps| && name !in ws[b].machines && name in ws[j].machines
    requires forall n :: b <= n < j ==> ReadsService(ws[n], steps[n], name)
    requires m in ws[j].machines[name].history && m.providerId.Some?
    ensures m.status.service.Some? && Carries(m.providerId.value, m.status.service.value)
  {
    RunKeepsHistory(ws, steps, b, j, name);
    var k :| 0 <= k < |ws[j].machines[name].history| && ws[j].machines[name].history[k] == m;
    assert VersionOk(ws[j].machines[name].history[k]);
  }

  /******* Provider ids and service instance ids, exactly *******/

  ghost predicate AllCarry(history: seq<Machine>) {
    history != [] && forall i :: 0 <= i < |history| ==> VersionOk(history[i])
  }

  /** Patching from copy `base`: a new provider id carries the stored service instance id, and a service
      instance id that was looked up for want of one replaces a stored one only if there is no stored provider
      id, or that carries the new one too. */
  ghost predicate CarriesOn(stored: Machine, base: Machine, s: Session, inputs: Inputs) {
    && (inputs.patch != Refused && s.machine.providerId.Some? && s.machine.providerId != base.providerId ==>
          stored.status.service.Some? && Carries(s.machine.providerId.value, stored.status.service.value))
    && (inputs.patch == Served && inputs.patchStatus != Refused && base.status.service.None? && inputs.service.Some?
        && inputs.service != stored.status.service && stored.providerId.Some? ==>
          Carries(stored.providerId.value, inputs.service.value))
  }

  lemma PatchCarriesExactly(stored: Machine, base: Machine, s: Session, inputs: Inputs)
    requires VersionOk(stored) && Outgrown(base, s, inputs)
    ensures (forall m :: m in Patch(stored, base, s, inputs.patch, inputs.patchStatus) ==> VersionOk(m)) <==>
            CarriesOn(stored, base, s, inputs)
  {
    var more := Patch(stored, base, s, inputs.patch, inputs.patchStatus);
    assert |more| > 0 ==> more[0] in more;
    assert |more| > 1 ==> more[1] in more;
  }

  lemma AllCarryAppend(history: seq<Machine>, more: seq<Machine>)
    requires history != []
    ensures AllCarry(history + more) <==> AllCarry(history) && forall m :: m in more ==> VersionOk(m)
  {
    var all := history + more;
    if AllCarry(all) {
      forall i | 0 <= i < |history| ensures VersionOk(history[i]) {
        assert all[i] == history[i];
      }
      forall m | m in more ensures VersionOk(m) {
        var i :| 0 <= i < |more| && more[i] == m;
        assert all[|history| + i] == m;
      }
    }
  }

  /** The condition for a step on machine `name`. */
  ghost predicate CarriesStep(w: World, step: Step, name: string)
    requires Enabled(w, step)
  {
    Reconciles(w, step, name) ==>
      CarriesOn(Current(w.machines[name]), ReadBy(w, step), Ended(w, step), step.inputs)
  }

  lemma OwnStepCarriesExactly(w: World, step: Step)
    requires Enabled(w, step) && Patches(step) && Opens(w, step) && AllCarry(w.machines[step.name].history)
    ensures step.name in Next(w, step).machines
    ensures AllCarry(Next(w, step).machines[step.name].history) <==>
            CarriesOn(Current(w.machines[step.name]), ReadBy(w, step), Ended(w, step), step.inputs)
  {
    var base, s, history := HistoryOfPatch(w, step);
    var t, inputs := w.machines[step.name], step.inputs;
    assert VersionOk(Current(t));
    PatchCarriesExactly(Current(t), base, s, inputs);
    AllCarryAppend(t.history, Patch(Current(t), base, s, inputs.patch, inputs.patchStatus));
  }

  lemma TouchCarries(h: seq<Machine>, h': seq<Machine>)
    requires AllCarry(h) && Touched(h, h')
    ensures AllCarry(h')
  {
    if h' != h {
      var at :| h' == h + [h[|h| - 1].(lastUpdated := Some(at))];
      assert VersionOk(h[|h| - 1]);
      AllCarryAppend(h, [h[|h| - 1].(lastUpdated := Some(at))]);
    }
  }

  lemma StepCarriesExactly(w: World, step: Step, name: string)
    requires Enabled(w, step) && name in w.machines && step != Forget(name) && AllCarry(w.machines[name].history)
    ensures name in Next(w, step).machines
    ensures AllCarry(Next(w, step).machines[name].history) <==> CarriesStep(w, step, name)
  {
    if Reconciles(w, step, name) {
      OwnStepCarriesExactly(w, step);
    } else {
      OtherStep(w, step, name);
      TouchCarries(w.machines[name].history, Next(w, step).machines[name].history);
    }
  }

  ghost predicate CarriedIn(w: World, name: string) {
    name in w.machines && AllCarry(w.machines[name].history)
  }

  ghost predicate StaysCarried(ws: seq<World>, k: nat, name: string) {
    k + 1 < |ws| && (CarriedIn(ws[k], name) ==> CarriedIn(ws[k + 1], name))
  }

  lemma StepStaysCarried(ws: seq<World>, steps: seq<Step>, k: nat, name: string)
    requires IsRun(ws, steps) && k < |steps| && steps[k] != Forget(name) && CarriesStep(ws[k], steps[k], name)
    ensures StaysCarried(ws, k, name)
  {
    assert Enabled(ws[k], steps[k]) && ws[k + 1] == Next(ws[k], steps[k]);
    if CarriedIn(ws[k], name) {
      StepCarriesExactly(ws[k], steps[k], name);
    }
  }

  lemma {:induction false} CarriedAlong(ws: seq<World>, b: nat, e: nat, name: string)
    requires b <= e < |ws| && CarriedIn(ws[b], name) && forall k :: b <= k < e ==> StaysCarried(ws, k, name)
    ensures CarriedIn(ws[e], name)
    decreases e
  {
    if b < e {
      CarriedAlong(ws, b, e - 1, name);
      assert StaysCarried(ws, e - 1, name);
    }
  }

  lemma RunCarries(ws: seq<World>, steps: seq<Step>, b: nat, e: nat, name: string)
    requires IsRun(ws, steps) && b <= e <= |steps| && Lives(steps, b, e, name)
    requires name in ws[b].machines && AllCarry(ws[b].machines[name].history)
    requires forall n :: b <= n < e ==> CarriesStep(ws[n], steps[n], name)
    ensures name in ws[e].machines && AllCarry(ws[e].machines[name].history)
  {
    forall k | b <= k < e ensures StaysCarried(ws, k, name) {
      StepStaysCarried(ws, steps, k, name);
    }
    CarriedAlong(ws, b, e, name);
  }

  lemma CarriedBefore(h: seq<Machine>, h': seq<Machine>)
    requires h != [] && h <= h' && AllCarry(h')
    ensures AllCarry(h)
  {
    assert forall i :: 0 <= i < |h| ==> h[i] == h'[i];
  }

  /** Over any stretch of any run, every provider id stored carries the service instance id stored beside it
      if and only if every step meets the condition. */
  lemma ProviderIdCarriesExactly(ws: seq<World>, steps: seq<Step>, b: nat, e: nat, name: string)
    requires IsRun(ws, steps) && b <= e <= |steps| && Lives(steps, b, e, name)
    requires name in ws[b].machines && AllCarry(ws[b].machines[name].history)
    ensures name in ws[e].machines
    ensures AllCarry(ws[e].machines[name].history) <==>
            forall n :: b <= n < e ==> CarriesStep(ws[n], steps[n], name)
  {
    HistoryGrowsInRun(ws, steps, b, e, name);
    if forall n :: b <= n < e ==> CarriesStep(ws[n], steps[n], name) {
      RunCarries(ws, steps, b, e, name);
    }
    if AllCarry(ws[e].machines[name].history) {
      forall n | b <= n < e ensures CarriesStep(ws[n], steps[n], name) {
        CarriedAt(ws, steps, b, n, e, name);
      }
    }
  }

  lemma CarriedAt(ws: seq<World>, steps: seq<Step>, b: nat, n: nat, e: nat, name: string)
    requires IsRun(ws, steps) && b <= n < e <= |steps| && Lives(steps, b, e, name)
    requires name in ws[b].machines && ws[b].machines[name].history != []
    requires name in ws[e].machines && AllCarry(ws[e].machines[name].history)
    ensures CarriesStep(ws[n], steps[n], name)
  {
    HistoryGrowsInRun(ws, steps, b, n, name);
    HistoryGrowsInRun(ws, steps, b, n + 1, name);
    HistoryGrowsInRun(ws, steps, n, e, name);
    HistoryGrowsInRun(ws, steps, n + 1, e, name);
    CarriedBefore(ws[n].machines[name].history, ws[e].machines[name].history);
    CarriedBefore(ws[n + 1].machines[name].history, ws[e].machines[name].history);
    assert Enabled(ws[n], steps[n]) && ws[n + 1] == Next(ws[n], steps[n]);
    StepCarriesExactly(ws[n], steps[n], name);
  }

  /******* A run that replaces the service instance id *******/

  // The inputs of a check and of a Create that both come to nothing, with a service instance id.
  function Idling(service: string): Inputs {
    Inputs(Some(service), true, "", "", Some(false), false, false, Vm("", "", "", []), false, "",
           Dhcp(None, None, map[]), None, [], [Reply(Served, "")], [], Served, Served)
  }

  // What the two steps need, and leave for the next two.
  ghost predicate Unlaunched(w: World, name: string) {
    && (forall service :: VmsIn(w.vms, service) == []) && name in w.machines
    && var t := w.machines[name];
       !t.spec.labelled && t.pending.Idle? && t.history != [] && t.history[0] == BLANK
  }

  lemma IdleCheck(w: World, name: string, service: string) returns (w': World)
    requires Unlaunched(w, name)
    ensures Enabled(w, Check(name, 0, Idling(service))) && w' == Next(w, Check(name, 0, Idling(service)))
    ensures w' == SetPending(w, name, WillCreate(0, service))
  {
    w' := Next(w, Check(name, 0, Idling(service)));
    assert VmsIn(w.vms, service) == [];
  }

  lemma IdleCreate(w: World, name: string, service: string) returns (w': World)
    requires name in w.machines && w.machines[name].pending == WillCreate(0, service)
    requires Unlaunched(SetPending(w, name, Idle), name)
    ensures Enabled(w, DoCreate(name, Idling(service))) && w' == Next(w, DoCreate(name, Idling(service)))
    ensures Unlaunched(w', name) && Current(w'.machines[name]).status.service == Some(service)
  {
    var step, t := DoCreate(name, Idling(service)), w.machines[name];
    w' := Next(w, step);
    NextIs(w, step);
    forall other ensures VmsIn(w'.vms, other) == [] {
      assert VmsIn(w.vms, other) == [] && Ended(w, step).power.vms == VmsIn(w.vms, service);
    }
    var more := Patch(Current(t), BLANK, Ended(w, step), Served, Served);
    assert w'.machines[name].history == t.history + more && |more| == 2;
  }

  lemma IdleReconcileInRun(ws: seq<World>, steps: seq<Step>, name: string, service: string)
    returns (ws': seq<World>, steps': seq<Step>)
    requires IsRun(ws, steps) && Unlaunched(ws[|steps|], name)
    ensures IsRun(ws', steps') && |steps'| == |steps| + 2 && ws <= ws'
    ensures var w := ws'[|steps'|]; Unlaunched(w, name) && Current(w.machines[name]).status.service == Some(service)
  {
    var w1 := IdleCheck(ws[|steps|], name, service);
    assert SetPending(w1, name, Idle).machines == ws[|steps|].machines;
    var w2 := IdleCreate(w1, name, service);
    ws' := ws + [w1] + [w2];
    steps' := steps + [Check(name, 0, Idling(service))] + [DoCreate(name, Idling(service))];
    RunExtends(ws, steps, Check(name, 0, Idling(service)), w1);
    RunExtends(ws + [w1], steps + [Check(name, 0, Idling(service))], DoCreate(name, Idling(service)), w2);
  }

  /** The condition is needed: a run in which a reconcile reads a copy from before the service instance id
      was stored, looks the id up anew, and replaces the stored one. */
  lemma StaleReadLosesService(name: string, a: string, b: string) returns (ws: seq<World>, steps: seq<Step>)
    ensures IsRun(ws, steps) && Initial(ws[0]) && |steps| == 5
    ensures name in ws[3].machines && ws[3].machines[name].history != []
    ensures name in ws[5].machines && ws[5].machines[name].history != []
    ensures Current(ws[3].machines[name]).status.service == Some(a)
    ensures Current(ws[5].machines[name]).status.service == Some(b)
  {
    var w0 := World(map[], map[], Vpc(map[], 0, []), map[], 0, [], map[]);
    var adopt := Adopt(name, Spec(false, Unsupported, []));
    ws, steps := [w0, Next(w0, adopt)], [adopt];
    ws, steps := IdleReconcileInRun(ws, steps, name, a);
    ws, steps := IdleReconcileInRun(ws, steps, name, b);
  }

  /******* Deletion *******/

  lemma StepKeepsPoolsValid(w: World, step: Step)
    requires Valid(w.vpc) && Enabled(w, step)
    ensures Valid(Next(w, step).vpc)
  {
    if Patches(step) {
      NextIs(w, step);
      if Opens(w, step) {
        EndedPoolsValid(w, step);
      }
    }
  }

  lemma EndedPoolsValid(w: World, step: Step)
    requires Valid(w.vpc) && Enabled(w, step)
    requires Patches(step) && Opens(w, step)
    ensures Valid(Ended(w, step).vpc)
  {
    var s, spec := Begun(w, step), w.machines[step.name].spec;
    var (p, found) := GetMachineInstance(s.power, s.status.instance, step.name);
    assert Valid(s.vpc);
    match step {
      case DoCreate(name, inputs) => CreateLeavesPools(s, name, spec, inputs, w.clock);
      case DoUpdate(name, inputs) =>
        if found.Found? && s.machine.status.service.Some? {
          UpdateFoundFrame(s.(power := p), name, found.vm, spec, inputs, w.clock);
          PoolsUpdatedValid(s.vpc, Ended(w, step).machine.addresses, spec, inputs);
        }
      case DoDelete(name, version, inputs) =>
        if found.Found? {
          DeleteFoundFrame(s.(power := p), name, found.vm, spec, inputs);
          if InternalIpOf(s.machine.addresses) != "" {
            PoolsCleanedEffect(s.vpc, s.machine.addresses, spec, inputs);
          }
        }
    }
  }

  lemma CreateLeavesPools(s: Session, name: string, spec: Spec, inputs: Inputs, now: int)
    ensures Create(s, name, spec, inputs, now).0.vpc == s.vpc
  {
  }

  lemma PoolsUpdatedValid(v: Vpc, addresses: seq<NodeAddress>, spec: Spec, inputs: Inputs)
    requires Ordered(spec, inputs) && Valid(v)
    ensures Valid(PoolsUpdated(v, addresses, spec, inputs).0)
  {
    if Selected(spec, inputs).Some? {
      var plan := Plan(Selected(spec, inputs).value, inputs.order);
      Registration.RegisterExact(v, plan, InternalIpOf(addresses), Targets(plan));
    }
  }

  lemma {:induction false} RunKeepsPoolsValid(ws: seq<World>, steps: seq<Step>, n: nat)
    requires IsRun(ws, steps) && Valid(ws[0].vpc) && n <= |steps|
    ensures Valid(ws[n].vpc)
  {
    if n > 0 {
      RunKeepsPoolsValid(ws, steps, n - 1);
      StepKeepsPoolsValid(ws[n - 1], steps[n - 1]);
      assert ws[n - 1 + 1] == Next(ws[n - 1], steps[n - 1]);
    }
  }

  /** Deletion in a run: when a Delete step makes a VM disappear, that VM bore the machine's name, and
      the internal IP recorded in the copy that was read is in no pool of the machine's application load
      balancers. Whatever the outcome, only members with that IP have left pools. */
  lemma DeletionIsOrdered(ws: seq<World>, steps: seq<Step>, n: nat, service: string)
    requires IsRun(ws, steps) && Initial(ws[0]) && n < |steps| && steps[n].DoDelete?
    requires InternalIpOf(ReadBy(ws[n], steps[n]).addresses) != ""
    ensures var w, w', name := ws[n], ws[n + 1], steps[n].name;
            var ip := InternalIpOf(ReadBy(w, steps[n]).addresses);
            var keys := DeletionKeys(w.machines[name].spec, steps[n].inputs);
            var vms, vms' := VmsIn(w.vms, service), VmsIn(w'.vms, service);
            && Shrank(w.vpc, w'.vpc, keys, ip)
            && (forall vm :: vm in vms && vm !in vms' ==> vm.name == name)
            && (vms' != vms ==>
                  && (ApplicationNames(w.machines[name].spec.loadBalancers) != [] ==>
                        Selected(w.machines[name].spec, steps[n].inputs).Some?)
                  && Deregistration.NoneHave(w'.vpc, keys, ip))
  {
    RunKeepsInv(ws, steps, n);
    RunKeepsPoolsValid(ws, steps, n);
    var w, step := ws[n], steps[n];
    assert Enabled(w, step);
    NextIs(w, step);
    StepsTouchOwnVms(w, step, service);
    if Opens(w, step) {
      DeleteOrdering(Begun(w, step), step.name, w.machines[step.name].spec, step.inputs);
    }
  }

  /** In every run, while the VM with the id in the copy that was read exists in the service instance of the
      scope, and the first call is served, a Delete removes no other VM. */
  lemma DeletionTakesRecorded(ws: seq<World>, steps: seq<Step>, n: nat, vm: Vm, service: string, other: Vm)
    requires IsRun(ws, steps) && Initial(ws[0]) && n < |steps| && steps[n].DoDelete? && Opens(ws[n], steps[n])
    requires ReadBy(ws[n], steps[n]).status.instance == Some(vm.id) && vm.id != ""
    requires vm in VmsIn(ws[n].vms, Scope(ws[n], steps[n])) && Answer(steps[n].inputs.power).fault == Served
    requires other in VmsIn(ws[n].vms, service) && !(service == Scope(ws[n], steps[n]) && other == vm)
    ensures other in VmsIn(ws[n + 1].vms, service)
  {
    RunKeepsInv(ws, steps, n);
    var w, step := ws[n], steps[n];
    assert Enabled(w, step) && ws[n + 1] == Next(w, step);
    NextIs(w, step);
    BegunIsOk(w, step);
    Outcomes.DeleteTakesRecorded(Begun(w, step), step.name, vm, w.machines[step.name].spec, step.inputs);
  }

  // How a Delete step reports, whether it finds a VM, and whether it takes an IP out of the pools.
  function Reported(w: World, step: Step): Outcome
    requires Enabled(w, step) && step.DoDelete? && Opens(w, step)
  {
    Delete(Begun(w, step), step.name, w.machines[step.name].spec, step.inputs).1
  }

  ghost predicate FindsVm(w: World, step: Step)
    requires Enabled(w, step) && step.DoDelete? && Opens(w, step)
  {
    GetMachineInstance(Begun(w, step).power, Begun(w, step).status.instance, step.name).1.Found?
  }

  ghost predicate Removes(w: World, step: Step, ip: string)
    requires Enabled(w, step) && step.DoDelete? && Opens(w, step)
  {
    FindsVm(w, step) && ip != "" && ip == InternalIpOf(ReadBy(w, step).addresses)
  }

  /** Exactly what a Delete that reports success leaves in the pools, in every run, for every IP, be it the
      one the stored object records or any other, and every set of pools: they are clean of the IP if and
      only if they were before, not counting the pools of the machine's load balancers in case the lookup
      found a VM and the IP is the one in the copy that was read. */
  lemma DeletionCleansExactly(ws: seq<World>, steps: seq<Step>, n: nat, ip: string, keys: set<PoolKey>)
    requires IsRun(ws, steps) && Initial(ws[0]) && n < |steps| && steps[n].DoDelete?
    requires Opens(ws[n], steps[n]) && Reported(ws[n], steps[n]) == Done
    ensures var cleaned := DeletionKeys(ws[n].machines[steps[n].name].spec, steps[n].inputs);
            Clean(ws[n + 1].vpc, keys, ip) <==>
            Clean(ws[n].vpc, if Removes(ws[n], steps[n], ip) then keys - cleaned else keys, ip)
  {
    RunKeepsPoolsValid(ws, steps, n);
    assert Enabled(ws[n], steps[n]) && ws[n + 1] == Next(ws[n], steps[n]);
    DeleteStepCleansExactly(ws[n], steps[n], ip, keys);
  }

  lemma DeleteStepCleansExactly(w: World, step: Step, ip: string, keys: set<PoolKey>)
    requires Enabled(w, step) && step.DoDelete? && Opens(w, step) && Valid(w.vpc) && Reported(w, step) == Done
    ensures var cleaned := DeletionKeys(w.machines[step.name].spec, step.inputs);
            Clean(Next(w, step).vpc, keys, ip) <==>
            Clean(w.vpc, if Removes(w, step, ip) then keys - cleaned else keys, ip)
  {
    NextIs(w, step);
    DeleteCleansExactly(Begun(w, step), step.name, w.machines[step.name].spec, step.inputs, ip, keys);
  }
}
