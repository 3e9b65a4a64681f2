/** Which of the IPs that were ever registered for a machine its object records, and which of them stay
    in the pools when the machine is deleted. */
module Recording {
  import opened Calls
  import opened LoadBalancers
  import opened Addresses
  import opened Machines
  import opened Operations
  import opened Protocol
  import opened RunProperties
  import opened Stabilization
  import Registration
  import Listing
  import ProviderId

  function RecordedIp(w: World, name: string): string
    requires name in w.machines && w.machines[name].history != []
  {
    InternalIpOf(Current(w.machines[name]).addresses)
  }

  /** The step stores the addresses it ended with: its status patch gets through, and they differ from those
      of the copy it read. */
  ghost predicate StoresAddresses(w: World, step: Step)
    requires Enabled(w, step) && Patches(step) && Opens(w, step)
  {
    StoresStatus(w, step) && Ended(w, step).machine.addresses != ReadBy(w, step).addresses
  }

  lemma PatchAddresses(stored: Machine, base: Machine, s: Session, first: Fault, second: Fault)
    ensures var vs := [stored] + Patch(stored, base, s, first, second);
            vs[|vs| - 1].addresses ==
            if first == Served && second != Refused && s.machine.addresses != base.addresses
            then s.machine.addresses else stored.addresses
  {
  }

  lemma AddressesAfter(w: World, step: Step)
    requires Enabled(w, step) && Patches(step) && Opens(w, step)
    ensures step.name in Next(w, step).machines && Next(w, step).machines[step.name].history != []
    ensures Current(Next(w, step).machines[step.name]).addresses ==
            if StoresAddresses(w, step) then Ended(w, step).machine.addresses
            else Current(w.machines[step.name]).addresses
  {
    var base, s, history := HistoryOfPatch(w, step);
    var stored, inputs := Current(w.machines[step.name]), step.inputs;
    PatchAddresses(stored, base, s, inputs.patch, inputs.patchStatus);
    LastOfPatch(w.machines[step.name].history, Patch(stored, base, s, inputs.patch, inputs.patchStatus));
  }

  // Update gets as far as the load balancers.
  ghost predicate Reaches(s: Session, name: string, spec: Spec) {
    && spec.labelled && s.machine.status.service.Some?
    && GetMachineInstance(s.power, s.status.instance, name).1.Found?
  }

  /** The step is an Update of the machine that registers this IP. */
  ghost predicate Registers(w: World, step: Step, name: string, ip: string)
    requires Enabled(w, step)
  {
    && step.DoUpdate? && step.name == name && Opens(w, step) && Reaches(Begun(w, step), name, w.machines[name].spec)
    && ip != "" && ip == InternalIpOf(Ended(w, step).machine.addresses)
  }

  /** What an Update adds to the pools is members for the IP it registers. */
  lemma OnlyRegisteredJoins(w: World, step: Step)
    requires Enabled(w, step) && step.DoUpdate? && Next(w, step).vpc.pools != w.vpc.pools
    ensures Opens(w, step)
    ensures var ip := InternalIpOf(Ended(w, step).machine.addresses);
            && Registers(w, step, step.name, ip)
            && Selected(w.machines[step.name].spec, step.inputs).Some?
            && Grew(w.vpc, Next(w, step).vpc, MapTargets(Selected(w.machines[step.name].spec, step.inputs).value), ip)
  {
    NextIs(w, step);
    if Opens(w, step) {
      UpdateRegisters(Begun(w, step), step.name, w.machines[step.name].spec, step.inputs, w.clock);
    }
  }

  /** Exactly when the object records the IP that an Update has just registered. */
  lemma RegisteredIsRecordedExactly(w: World, step: Step, ip: string)
    requires Enabled(w, step) && Patches(step) && Registers(w, step, step.name, ip)
    ensures step.name in Next(w, step).machines && Next(w, step).machines[step.name].history != []
    ensures RecordedIp(Next(w, step), step.name) == ip <==>
            StoresAddresses(w, step) || RecordedIp(w, step.name) == ip
  {
    AddressesAfter(w, step);
  }

  // The machine is there before step i.
  ghost predicate Holds(ws: seq<World>, i: nat, name: string) {
    i < |ws| && name in ws[i].machines && ws[i].machines[name].history != []
  }

  // The internal IP among the addresses that step k stores for the machine, if it does.
  ghost function Written(ws: seq<World>, steps: seq<Step>, k: nat, name: string): Option<string> {
    if && k < |steps| < |ws| && Enabled(ws[k], steps[k])
       && Reconciles(ws[k], steps[k], name) && StoresAddresses(ws[k], steps[k])
    then Some(InternalIpOf(Ended(ws[k], steps[k]).machine.addresses)) else None
  }

  lemma RecordedNext(ws: seq<World>, steps: seq<Step>, k: nat, name: string)
    requires IsRun(ws, steps) && k < |steps| && Holds(ws, k, name) && steps[k] != Forget(name)
    ensures Holds(ws, k + 1, name)
    ensures RecordedIp(ws[k + 1], name) == Latest(Written(ws, steps, k, name), RecordedIp(ws[k], name))
  {
    assert Enabled(ws[k], steps[k]) && ws[k + 1] == Next(ws[k], steps[k]);
    if Reconciles(ws[k], steps[k], name) {
      AddressesAfter(ws[k], steps[k]);
    } else {
      OtherStep(ws[k], steps[k], name);
    }
  }

  function Latest(written: Option<string>, before: string): string {
    if written.Some? then written.value else before
  }

  // The last entry of a trail of writes is `ip`; or there is none, and it was `ip` before.
  ghost predicate EndsIn(trail: seq<Option<string>>, before: string, ip: string) {
    || (exists k :: 0 <= k < |trail| && trail[k] == Some(ip) && forall l :: k < l < |trail| ==> trail[l] == None)
    || ((forall k :: 0 <= k < |trail| ==> trail[k] == None) && before == ip)
  }

  lemma EndsInAppend(trail: seq<Option<string>>, w: Option<string>, before: string, ip: string)
    ensures EndsIn(trail + [w], before, ip) <==> if w.Some? then w.value == ip else EndsIn(trail, before, ip)
  {
    var all, n := trail + [w], |trail|;
    assert all[n] == w && forall k :: 0 <= k < n ==> all[k] == trail[k];
    if w.None? && EndsIn(trail, before, ip) && !(forall k :: 0 <= k < n ==> trail[k] == None) {
      var k :| 0 <= k < n && trail[k] == Some(ip) && forall l :: k < l < n ==> trail[l] == None;
      assert all[k] == Some(ip) && forall l :: k < l < |all| ==> all[l] == None;
    }
  }

  ghost function Trail(ws: seq<World>, steps: seq<Step>, i: nat, n: nat, name: string): seq<Option<string>>
    requires i <= n
    decreases n
  {
    if i == n then [] else Trail(ws, steps, i, n - 1, name) + [Written(ws, steps, n - 1, name)]
  }

  /** Which IP the object records, over any stretch of any run: it is `ip` if and only if the last step that
      stored addresses stored `ip`, or none did and it was `ip` before. */
  lemma {:induction false} RecordedIpExactly(ws: seq<World>, steps: seq<Step>, i: nat, n: nat, name: string, ip: string)
    requires IsRun(ws, steps) && i <= n <= |steps| && Holds(ws, i, name) && Lives(steps, i, n, name)
    ensures Holds(ws, n, name)
    ensures RecordedIp(ws[n], name) == ip <==> EndsIn(Trail(ws, steps, i, n, name), RecordedIp(ws[i], name), ip)
    decreases n
  {
    if i < n {
      RecordedIpExactly(ws, steps, i, n - 1, name, ip);
      RecordedNext(ws, steps, n - 1, name);
      EndsInAppend(Trail(ws, steps, i, n - 1, name), Written(ws, steps, n - 1, name), RecordedIp(ws[i], name), ip);
    }
  }

  /** Exactly when a Delete leaves nothing behind. A Delete that reports success, on the current version, and
      that found the VM leaves all pools clean of an IP registered at any time if and only if they were clean
      of it before, not counting those of the machine's load balancers if the IP is the one recorded. Pools of
      load balancers that the spec no longer names, or that could not be listed, keep it. */
  lemma DeleteLeavesNothingExactly(ws: seq<World>, steps: seq<Step>, n: nat, i: nat, x: string)
    requires IsRun(ws, steps) && Initial(ws[0]) && i < n < |steps| && steps[n].DoDelete? && Opens(ws[n], steps[n])
    requires steps[n].version == |ws[n].machines[steps[n].name].history| - 1
    requires FindsVm(ws[n], steps[n]) && Reported(ws[n], steps[n]) == Done
    requires Registers(ws[i], steps[i], steps[n].name, x)
    ensures var all, own := ws[n].vpc.pools.Keys, DeletionKeys(ws[n].machines[steps[n].name].spec, steps[n].inputs);
            Clean(ws[n + 1].vpc, all, x) <==>
            Clean(ws[n].vpc, if x == RecordedIp(ws[n], steps[n].name) then all - own else all, x)
  {
    DeletionCleansExactly(ws, steps, n, x, ws[n].vpc.pools.Keys);
    RemovesRecorded(ws[n], steps[n], x);
  }

  lemma RemovesRecorded(w: World, step: Step, x: string)
    requires Enabled(w, step) && step.DoDelete? && Opens(w, step) && FindsVm(w, step) && x != ""
    requires step.version == |w.machines[step.name].history| - 1
    ensures Removes(w, step, x) <==> x == RecordedIp(w, step.name)
  {
  }

  /******* Runs that leave an IP behind *******/

  const KEY := PoolKey("l", "p")
  const BALANCED := Spec(true, Unsupported, [LbRef(APPLICATION, "lb")])
  const OPTIONS := LbOptions("l", [PoolRef("p", "p")], ACTIVE)

  function Server(name: string, ip: string): Vm {
    Vm("1", name, "ACTIVE", [Network("n", ip, "", "")])
  }

  function Answers(second: Fault): Inputs {
    var served := Reply(Served, ACTIVE);
    Inputs(Some("s"), true, "", "", None, true, true, Vm("", "", "", []), true, "", Dhcp(None, None, map[]),
           Some([Listing.LoadBalancer("l", "lb", ACTIVE, [PoolRef("p", "p")])]), ["lb"],
           [served, served, served, served], [served, served, served], Served, second)
  }

  lemma AnswersSelect(second: Fault)
    ensures Selected(BALANCED, Answers(second)) == Some(map["lb" := OPTIONS])
    ensures Ordered(BALANCED, Answers(second)) && ApplicationNames(BALANCED.loadBalancers) == ["lb"]
    ensures MapTargets(map["lb" := OPTIONS]) == {KEY}
  {
    var refs := BALANCED.loadBalancers;
    assert refs[..0] == [] && ApplicationNames(refs[..0]) == [];
    assert ApplicationNames(refs) == ["lb"];
    var listed := Answers(second).listing.value;
    assert listed[..0] == [];
    assert Listing.Collect(listed, Listing.NameSet(["lb"])) == map["lb" := OPTIONS] by {
      assert "lb" in ["lb"];
      assert Listing.Collect(listed[..0], Listing.NameSet(["lb"])) == map[];
    }
    assert map["lb" := OPTIONS].Keys == {"lb"};
  }

  // The machine's own VM is up, its pool is there, and the controller is idle.
  ghost predicate Stage(w: World, name: string, ip: string, history: seq<Machine>) {
    && VmsIn(w.vms, "s") == [Server(name, ip)] && PowerOk(PowerOf(w, "s", []))
    && (forall other :: other != "s" ==> VmsIn(w.vms, other) == [])
    && name in w.machines && w.machines[name] == Tracked(BALANCED, history, Idle)
    && KEY in w.vpc.pools
  }

  // A version without addresses and without an instance id.
  ghost predicate Bare(m: Machine) {
    m.addresses == [] && m.status.instance == None && (m.status.service == None || m.status.service == Some("s"))
  }

  const STORED := BLANK.(status := BLANK.status.(service := Some("s")))

  lemma FindsServer(w: World, name: string, ip: string, script: seq<Reply>)
    requires VmsIn(w.vms, "s") == [Server(name, ip)]
    requires |script| >= 3 && script[0].fault == Served && script[1].fault == Served && script[2].fault == Served
    ensures var (p, r) := GetMachineInstance(PowerOf(w, "s", script), None, name);
            r == Found(Server(name, ip)) && p == PowerOf(w, "s", script[2..])
  {
    var p := PowerOf(w, "s", script);
    assert FindNamed(p.vms, name) == Some(Server(name, ip)) && FindVm(p.vms, "1") == Some(Server(name, ip));
    assert Rest(script)[0] == script[1] && Rest(Rest(script)) == script[2..];
  }

  lemma CheckFinds(w: World, name: string, ip: string, history: seq<Machine>, version: nat) returns (w': World)
    requires Stage(w, name, ip, history) && version < |history| && Bare(history[version])
    ensures Enabled(w, Check(name, version, Answers(Served))) && w' == Next(w, Check(name, version, Answers(Served)))
    ensures w' == SetPending(w, name, WillUpdate(version))
  {
    w' := Next(w, Check(name, version, Answers(Served)));
    FindsServer(w, name, ip, Answers(Served).power);
  }

  lemma UnstoredUpdate(s: Session, name: string, spec: Spec, inputs: Inputs, now: int)
    requires Ordered(spec, inputs) && s.machine.status.service.None?
    ensures var s' := Update(s, name, spec, inputs, now).0;
            s' == s.(power := s'.power) && s'.power.vms == s.power.vms && s'.power.issued == s.power.issued
  {
  }

  lemma StageAfter(w: World, step: Step, name: string, ip: string, history: seq<Machine>)
    requires name in w.machines && Stage(SetPending(w, name, Idle), name, ip, history)
    requires Enabled(w, step) && Patches(step) && step.name == name && Opens(w, step) && Scope(w, step) == "s"
    requires Ended(w, step).power.vms == VmsIn(w.vms, "s") && Ended(w, step).power.issued == w.issued
    requires KEY in Ended(w, step).vpc.pools
    ensures history != []
    ensures var more := Patch(history[|history| - 1], ReadBy(w, step), Ended(w, step),
                              step.inputs.patch, step.inputs.patchStatus);
            Stage(Next(w, step), name, ip, history + more)
    ensures Next(w, step).vpc == Ended(w, step).vpc
  {
    NextIs(w, step);
    forall other | other != "s" ensures VmsIn(Next(w, step).vms, other) == [] {
      assert VmsIn(SetPending(w, name, Idle).vms, other) == [];
    }
  }

  // The first Update finds no stored service instance id, and stores it.
  lemma FirstUpdate(w: World, name: string, ip: string, step: Step)
    requires name in w.machines && w.machines[name].pending == WillUpdate(0)
    requires Stage(SetPending(w, name, Idle), name, ip, [BLANK])
    requires step == DoUpdate(name, Answers(Served)) && Enabled(w, step)
    ensures Stage(Next(w, step), name, ip, [BLANK, BLANK, STORED])
  {
    UnstoredUpdate(Begun(w, step), name, BALANCED, step.inputs, w.clock);
    StageAfter(w, step, name, ip, [BLANK]);
    assert Patch(BLANK, BLANK, Ended(w, step), Served, Served) == [BLANK, STORED];
  }

  lemma AnswersServe(v: Vpc, second: Fault)
    requires KEY in v.pools
    ensures BalancersServed(v, BALANCED, Answers(second))
  {
    AnswersSelect(second);
    var plan := Plan(map["lb" := OPTIONS], ["lb"]);
    assert plan == [OPTIONS] && plan[1..] == [];
    assert Registration.PoolCount(plan) == 1 + Registration.PoolCount(plan[1..]);
    assert AllKeys(plan) == {KEY};
  }

  lemma RegistersServer(s: Session, name: string, ip: string, inputs: Inputs, now: int, second: Fault)
    requires s.power.vms == [Server(name, ip)] && PowerOk(s.power) && s.machine == STORED && s.status == STORED.status
    requires inputs == Answers(second) && s.power.script == inputs.power && s.vpc.script == inputs.vpc
    requires KEY in s.vpc.pools && ip != "" && TrimSpace(ip) == ip && Ordered(BALANCED, inputs)
    ensures var s' := Update(s, name, BALANCED, inputs, now).0;
            && InternalIpOf(s'.machine.addresses) == ip && s'.machine.lastUpdated == None
            && s'.machine.providerId == Some(SERVER_ID) && s'.status.service == Some("s")
            && s'.power.vms == s.power.vms && s'.power.issued == s.power.issued
            && KEY in s'.vpc.pools && Has(s'.vpc.pools[KEY], ip)
  {
    AnswersSelect(second);
    AnswersServe(s.vpc, second);
    assert Server(name, ip) in s.power.vms;
    var vm := UpdateSettles(s, name, BALANCED, inputs, now);
    assert vm == Server(name, ip);
    var s' := Update(s, name, BALANCED, inputs, now).0;
    ServerIp(vm, ip, inputs.dhcp, s'.cache, now);
    UpdateEffect(s, name, BALANCED, inputs, now);
    assert Registration.AllHave(s'.vpc, {KEY}, ip);
    UpdateRegisters(s, name, BALANCED, inputs, now);
  }

  // The pool holds the IP, which the object records if the status patch got through.
  ghost predicate Loaded(w: World, name: string, ip: string, second: Fault) {
    && name in w.machines
    && var t := w.machines[name];
       && t.history != [] && t.history[0] == BLANK && Stage(w, name, ip, t.history) && Has(w.vpc.pools[KEY], ip)
       && (if second == Served then Complete(Current(t), ip) else Bare(Current(t)))
  }

  const SERVER_ID := ProviderId.Format("", "", "s", "1")

  // A version with all that the Update found out.
  ghost predicate Complete(m: Machine, ip: string) {
    InternalIpOf(m.addresses) == ip && m.providerId == Some(SERVER_ID) && m.status.service == Some("s")
  }

  // Where the second Update ends. It registers the IP; its status patch may be refused.
  lemma SecondEnds(w: World, name: string, ip: string, step: Step, second: Fault)
    requires name in w.machines && w.machines[name].pending == WillUpdate(2)
    requires Stage(SetPending(w, name, Idle), name, ip, [BLANK, BLANK, STORED])
    requires ip != "" && TrimSpace(ip) == ip && step == DoUpdate(name, Answers(second)) && Enabled(w, step)
    ensures ReadBy(w, step) == STORED && Opens(w, step) && Scope(w, step) == "s"
    ensures var s := Ended(w, step);
            && InternalIpOf(s.machine.addresses) == ip && s.power.vms == VmsIn(w.vms, "s") && s.power.issued == w.issued
            && s.machine.providerId == Some(SERVER_ID) && s.status.service == Some("s")
            && KEY in s.vpc.pools && Has(s.vpc.pools[KEY], ip)
    ensures Registers(w, step, name, ip)
  {
    FindsServer(w, name, ip, step.inputs.power);
    RegistersServer(Begun(w, step), name, ip, step.inputs, w.clock, second);
  }

  lemma SecondUpdate(w: World, name: string, ip: string, step: Step, second: Fault)
    requires name in w.machines && w.machines[name].pending == WillUpdate(2) && second != Lost
    requires Stage(SetPending(w, name, Idle), name, ip, [BLANK, BLANK, STORED])
    requires ip != "" && TrimSpace(ip) == ip && step == DoUpdate(name, Answers(second)) && Enabled(w, step)
    ensures Loaded(Next(w, step), name, ip, second)
  {
    SecondEnds(w, name, ip, step, second);
    StageAfter(w, step, name, ip, [BLANK, BLANK, STORED]);
    StoredBySecond(Ended(w, step), second, ip);
    LoadedFrom(Next(w, step), name, ip, second, Patch(STORED, STORED, Ended(w, step), Served, second));
  }

  lemma LoadedFrom(w: World, name: string, ip: string, second: Fault, more: seq<Machine>)
    requires Stage(w, name, ip, [BLANK, BLANK, STORED] + more) && more != [] && Has(w.vpc.pools[KEY], ip)
    requires if second == Served then Complete(more[|more| - 1], ip) else Bare(more[|more| - 1])
    ensures Loaded(w, name, ip, second)
  {
  }

  lemma StoredBySecond(s: Session, second: Fault, ip: string)
    requires InternalIpOf(s.machine.addresses) == ip != "" && second != Lost
    requires s.machine.providerId == Some(SERVER_ID) && s.status.service == Some("s")
    ensures var more := Patch(STORED, STORED, s, Served, second);
            && more != []
            && if second == Served then Complete(more[|more| - 1], ip) else Bare(more[|more| - 1])
  {
  }

  lemma ServerIp(vm: Vm, ip: string, dhcp: Dhcp, cache: Cache, now: int)
    requires vm.networks == [Network("n", ip, "", "")] && ip != "" && TrimSpace(ip) == ip
    ensures InternalIpOf(Resolve(vm.name, vm.networks, Unsupported, dhcp, cache, now).addresses) == ip
  {
    ResolveSpec(vm.name, vm.networks, Unsupported, dhcp, cache, now);
    assert FirstIp(vm.networks) == Some(ip);
  }

  lemma DeletesServer(s: Session, name: string, ip: string)
    requires s.power.vms == [Server(name, ip)] && s.power.script == Answers(Served).power
    requires InternalIpOf(s.machine.addresses) == "" && s.status.instance == None && Ordered(BALANCED, Answers(Served))
    ensures var (s', o) := Delete(s, name, BALANCED, Answers(Served));
            o == Done && s'.power.vms == [] && s'.vpc == s.vpc
  {
    assert FindNamed(s.power.vms, name) == Some(Server(name, ip)) && FindVm(s.power.vms, "1") == Some(Server(name, ip));
    assert [Server(name, ip)][1..] == [];
    var script := s.power.script;
    assert Rest(script)[0] == script[1] && Rest(Rest(script))[0] == script[2];
    var (p, found) := GetMachineInstance(s.power, s.status.instance, name);
    assert found == Found(Server(name, ip)) && p.vms == s.power.vms && Answer(p.script).fault == Served;
    assert RemoveVm(p.vms, "1") == [];
  }

  // A Delete that removes the VM, reports success and leaves the IP in the pool. It worked on a stale copy,
  // or on the current version.
  ghost predicate LeavesIp(w: World, step: Step, w': World, name: string, ip: string, stale: bool) {
    && name in w.machines && w.machines[name].history != [] && step.DoDelete? && step.name == name
    && Enabled(w, step) && Opens(w, step) && Reported(w, step) == Done
    && (if stale then RecordedIp(w, name) == ip else step.version == |w.machines[name].history| - 1)
    && VmsIn(w.vms, "s") == [Server(name, ip)] && VmsIn(w'.vms, "s") == []
    && KEY in w'.vpc.pools && Has(w'.vpc.pools[KEY], ip)
  }

  lemma DeletesBare(w: World, name: string, ip: string, step: Step) returns (w': World)
    requires name in w.machines && Stage(w, name, ip, w.machines[name].history)
    requires step.DoDelete? && step.name == name && step.inputs == Answers(Served)
    requires step.version < |w.machines[name].history| && Bare(w.machines[name].history[step.version])
    ensures Enabled(w, step) && w' == Next(w, step) && Opens(w, step) && Reported(w, step) == Done
    ensures VmsIn(w'.vms, "s") == [] && w'.vpc.pools == w.vpc.pools
  {
    AnswersSelect(Served);
    w' := Next(w, step);
    NextIs(w, step);
    DeletesServer(Begun(w, step), name, ip);
  }

  lemma BareDelete(w: World, name: string, ip: string, stale: bool) returns (step: Step, w': World)
    requires Loaded(w, name, ip, if stale then Served else Refused)
    ensures Enabled(w, step) && w' == Next(w, step) && LeavesIp(w, step, w', name, ip, stale)
  {
    step := DoDelete(name, if stale then 0 else |w.machines[name].history| - 1, Answers(Served));
    w' := DeletesBare(w, name, ip, step);
  }

  lemma AdoptedServer(name: string, ip: string) returns (ws: seq<World>, steps: seq<Step>)
    ensures IsRun(ws, steps) && |steps| == 1 && Initial(ws[0]) && Stage(ws[1], name, ip, [BLANK])
  {
    var w := World(map["s" := [Server(name, ip)]], map["1" := name], Vpc(map[KEY := []], 0, []), map[], 0, [], map[]);
    ws, steps := [w, Next(w, Adopt(name, BALANCED))], [Adopt(name, BALANCED)];
    assert PowerOk(PowerOf(w, "s", []));
  }

  lemma FirstRound(w: World, name: string, ip: string) returns (w1: World, w2: World)
    requires Stage(w, name, ip, [BLANK])
    ensures Enabled(w, Check(name, 0, Answers(Served))) && w1 == Next(w, Check(name, 0, Answers(Served)))
    ensures Enabled(w1, DoUpdate(name, Answers(Served))) && w2 == Next(w1, DoUpdate(name, Answers(Served)))
    ensures Stage(w2, name, ip, [BLANK, BLANK, STORED])
  {
    w1 := CheckFinds(w, name, ip, [BLANK], 0);
    assert SetPending(w1, name, Idle).machines == w.machines;
    AnswersSelect(Served);
    var step := DoUpdate(name, Answers(Served));
    w2 := Next(w1, step);
    FirstUpdate(w1, name, ip, step);
  }

  lemma SecondRound(w: World, name: string, ip: string, second: Fault) returns (w1: World, w2: World)
    requires Stage(w, name, ip, [BLANK, BLANK, STORED]) && ip != "" && TrimSpace(ip) == ip && second != Lost
    ensures Enabled(w, Check(name, 2, Answers(Served))) && w1 == Next(w, Check(name, 2, Answers(Served)))
    ensures Enabled(w1, DoUpdate(name, Answers(second))) && w2 == Next(w1, DoUpdate(name, Answers(second)))
    ensures Registers(w1, DoUpdate(name, Answers(second)), name, ip) && Loaded(w2, name, ip, second)
  {
    w1 := CheckFinds(w, name, ip, [BLANK, BLANK, STORED], 2);
    assert SetPending(w1, name, Idle).machines == w.machines;
    AnswersSelect(second);
    var step := DoUpdate(name, Answers(second));
    w2 := Next(w1, step);
    SecondEnds(w1, name, ip, step, second);
    SecondUpdate(w1, name, ip, step, second);
  }

  lemma StagedRun(name: string, ip: string) returns (ws: seq<World>, steps: seq<Step>)
    ensures IsRun(ws, steps) && |steps| == 3 && Initial(ws[0]) && Stage(ws[3], name, ip, [BLANK, BLANK, STORED])
  {
    ws, steps := AdoptedServer(name, ip);
    var w1, w2 := FirstRound(ws[1], name, ip);
    RunExtendsTwice(ws, steps, Check(name, 0, Answers(Served)), w1, DoUpdate(name, Answers(Served)), w2);
    ws, steps := ws + [w1, w2], steps + [Check(name, 0, Answers(Served)), DoUpdate(name, Answers(Served))];
  }

  // The run up to the Delete.
  lemma RegisteredRun(name: string, ip: string, second: Fault) returns (ws: seq<World>, steps: seq<Step>)
    requires ip != "" && TrimSpace(ip) == ip && second != Lost
    ensures IsRun(ws, steps) && |steps| == 5 && Initial(ws[0])
    ensures Registers(ws[4], steps[4], name, ip) && Loaded(ws[5], name, ip, second)
  {
    ws, steps := StagedRun(name, ip);
    var w1, w2 := SecondRound(ws[3], name, ip, second);
    RunExtendsTwice(ws, steps, Check(name, 2, Answers(Served)), w1, DoUpdate(name, Answers(second)), w2);
    ws, steps := ws + [w1, w2], steps + [Check(name, 2, Answers(Served)), DoUpdate(name, Answers(second))];
  }

  /** A run in which a Delete reports success and removes the VM while the IP registered for it stays in the
      pool. With `stale`, the IP was recorded, and the Delete worked on a copy from before that; otherwise
      the status patch of the Update that registered it was refused, and the Delete worked on the current
      version. */
  lemma DeleteLeavesIp(name: string, ip: string, stale: bool) returns (ws: seq<World>, steps: seq<Step>)
    requires ip != "" && TrimSpace(ip) == ip
    ensures IsRun(ws, steps) && |steps| == 6 && Initial(ws[0])
    ensures Registers(ws[4], steps[4], name, ip) && LeavesIp(ws[5], steps[5], ws[6], name, ip, stale)
  {
    ws, steps := RegisteredRun(name, ip, if stale then Served else Refused);
    var step, w := BareDelete(ws[5], name, ip, stale);
    RunExtends(ws, steps, step, w);
    ws, steps := ws + [w], steps + [step];
  }

  /******* A run that leaves a provider id behind *******/

  // The provider id of the server beside another service instance id.
  ghost predicate Mismatched(w: World, name: string, service: string) {
    && name in w.machines && w.machines[name].history != []
    && var m := Current(w.machines[name]); m.providerId == Some(SERVER_ID) && m.status.service == Some(service)
  }

  lemma LateCheck(w: World, name: string, ip: string, service: string) returns (w': World)
    requires Loaded(w, name, ip, Served) && service != "s"
    ensures Enabled(w, Check(name, 0, Idling(service))) && w' == Next(w, Check(name, 0, Idling(service)))
    ensures w' == SetPending(w, name, WillCreate(0, service))
  {
    w' := Next(w, Check(name, 0, Idling(service)));
    assert VmsIn(w.vms, service) == [];
  }

  lemma LateCreate(w: World, name: string, ip: string, service: string) returns (w': World)
    requires name in w.machines && w.machines[name].pending == WillCreate(0, service) && service != "s"
    requires Loaded(SetPending(w, name, Idle), name, ip, Served)
    ensures Enabled(w, DoCreate(name, Idling(service))) && w' == Next(w, DoCreate(name, Idling(service)))
    ensures Mismatched(w', name, service)
  {
    var step, t := DoCreate(name, Idling(service)), w.machines[name];
    w' := Next(w, step);
    NextIs(w, step);
    CreateOutgrows(Begun(w, step), name, t.spec, step.inputs, w.clock);
    var more := Patch(Current(t), BLANK, Ended(w, step), Served, Served);
    assert w'.machines[name].history == t.history + more && |more| == 2;
  }

  lemma LateRound(w: World, name: string, ip: string, service: string) returns (w1: World, w2: World)
    requires Loaded(w, name, ip, Served) && service != "s"
    ensures Enabled(w, Check(name, 0, Idling(service))) && w1 == Next(w, Check(name, 0, Idling(service)))
    ensures Enabled(w1, DoCreate(name, Idling(service))) && w2 == Next(w1, DoCreate(name, Idling(service)))
    ensures Mismatched(w2, name, service)
  {
    w1 := LateCheck(w, name, ip, service);
    assert SetPending(w1, name, Idle).machines == w.machines;
    w2 := LateCreate(w1, name, ip, service);
  }

  lemma TooLongToCarry(service: string)
    requires |service| >= |SERVER_ID|
    ensures !Carries(SERVER_ID, service)
  {
    forall region, zone, vm ensures SERVER_ID != ProviderId.Format(region, zone, service, vm) {
      assert |ProviderId.Format(region, zone, service, vm)| > |service|;
    }
  }

  /** A run in which a reconcile on a copy from before anything was stored replaces the service instance id and
      leaves the provider id, which names the old one. */
  lemma StaleReadLeavesProviderId(name: string, ip: string, service: string) returns (ws: seq<World>, steps: seq<Step>)
    requires ip != "" && TrimSpace(ip) == ip && service != "s"
    ensures IsRun(ws, steps) && |steps| == 7 && Initial(ws[0])
    ensures Loaded(ws[5], name, ip, Served) && Mismatched(ws[7], name, service)
    ensures |service| >= |SERVER_ID| ==> !Carries(SERVER_ID, service)
  {
    ws, steps := RegisteredRun(name, ip, Served);
    var w1, w2 := LateRound(ws[5], name, ip, service);
    RunExtendsTwice(ws, steps, Check(name, 0, Idling(service)), w1, DoCreate(name, Idling(service)), w2);
    ws, steps := ws + [w1, w2], steps + [Check(name, 0, Idling(service)), DoCreate(name, Idling(service))];
    if |service| >= |SERVER_ID| {
      TooLongToCarry(service);
    }
  }
}
