/** Runs of the machine controller: any number of machines, reconciled in any interleaving, against
    services that may fail at every call, with a Machine object that may be read stale, and an
    environment that changes VMs, pools and the clock in between. */
module Protocol {
  import opened Calls
  import opened LoadBalancers
  import opened Addresses
  import opened Machines
  import opened Operations
  import ProviderId

  /** What the controller decided to do with a machine after asking whether its VM exists. `version`
      is the stored version of the Machine object it works on, `service` the service instance in which no
      VM was found. */
  datatype Pending = Idle | WillCreate(version: nat, service: string) | WillUpdate(version: nat)

  /** `history` holds every version of the Machine object that was ever stored; the last is current. */
  datatype Tracked = Tracked(spec: Spec, history: seq<Machine>, pending: Pending)

  /** `vms` holds the VMs of each service instance; `issued` the ids given out in all of them. */
  datatype World = World(
    vms: map<string, seq<Vm>>, issued: map<string, string>, vpc: Vpc, cache: Cache, clock: int,
    lookups: seq<Leased>, machines: map<string, Tracked>)

  const BLANK := Machine(None, ProviderStatus(None, None, None, []), [], None)

  datatype Step =
    // The controller asks Exists, then calls Create or Update on the same copy, or gives up.
    | Check(name: string, version: nat, inputs: Inputs)
    | DoCreate(name: string, inputs: Inputs)
    | DoUpdate(name: string, inputs: Inputs)
    | GiveUp(name: string)
    | DoDelete(name: string, version: nat, inputs: Inputs)
    // The controller starts anew: what it keeps in memory is gone.
    | Restart
    // The environment.
    | Adopt(name: string, spec: Spec)
    | Forget(name: string)
    | EditSpec(name: string, spec: Spec)
    | Touch(name: string, lastUpdated: int)
    | LoseVm(service: string, id: string)
    | ChangeVm(service: string, id: string, status: string, networks: seq<Network>)
    | ForeignVm(service: string, vm: Vm)
    | ChangePools(vpc: Vpc)
    | Tick(elapsed: nat)

  function Current(t: Tracked): Machine
    requires t.history != []
  {
    t.history[|t.history| - 1]
  }

  function SetVm(vms: seq<Vm>, id: string, status: string, networks: seq<Network>): seq<Vm> {
    seq(|vms|, i requires 0 <= i < |vms| =>
      if vms[i].id == id then vms[i].(status := status, networks := networks) else vms[i])
  }

  ghost predicate Enabled(w: World, step: Step) {
    match step
    case Check(name, version, inputs) =>
      name in w.machines && w.machines[name].pending.Idle? && version < |w.machines[name].history|
    case DoCreate(name, inputs) =>
      && name in w.machines && w.machines[name].pending.WillCreate?
      && w.machines[name].pending.version < |w.machines[name].history|
    case DoUpdate(name, inputs) =>
      && name in w.machines && w.machines[name].pending.WillUpdate?
      && w.machines[name].pending.version < |w.machines[name].history|
      && Ordered(w.machines[name].spec, inputs)
    case GiveUp(name) => name in w.machines
    case DoDelete(name, version, inputs) =>
      && name in w.machines && w.machines[name].pending.Idle? && version < |w.machines[name].history|
      && Ordered(w.machines[name].spec, inputs)
    case Restart => true
    case Adopt(name, spec) => name !in w.machines
    case Forget(name) => name in w.machines
    case EditSpec(name, spec) => name in w.machines
    case Touch(name, lastUpdated) => name in w.machines && w.machines[name].history != []
    case LoseVm(service, id) => true
    case ChangeVm(service, id, status, networks) => true
    case ForeignVm(service, vm) => vm.name !in w.machines && vm.id !in w.issued
    case ChangePools(vpc) => Valid(vpc)
    case Tick(elapsed) => true
  }

  // One service instance, as a client bound to it sees it.
  function PowerOf(w: World, service: string, script: seq<Reply>): Power {
    Power(VmsIn(w.vms, service), w.issued, script)
  }

  function SessionOf(w: World, m: Machine, st: ProviderStatus, inputs: Inputs): Session
    requires st.service.Some?
  {
    Session(PowerOf(w, st.service.value, inputs.power), w.vpc.(script := inputs.vpc), w.cache, w.lookups, m, st)
  }

  /** The world after an operation that worked on `base`, in a service instance, ended in session `s` and
      was patched. */
  function Commit(w: World, name: string, service: string, base: Machine, s: Session, inputs: Inputs): World
    requires name in w.machines && w.machines[name].history != []
  {
    var t := w.machines[name];
    var stored := Patch(Current(t), base, s, inputs.patch, inputs.patchStatus);
    w.(vms := w.vms[service := s.power.vms], issued := s.power.issued,
       vpc := s.vpc, cache := s.cache, lookups := s.lookups,
       machines := w.machines[name := t.(history := t.history + stored, pending := Idle)])
  }

  function SetPending(w: World, name: string, pending: Pending): World
    requires name in w.machines
  {
    w.(machines := w.machines[name := w.machines[name].(pending := pending)])
  }

  function Next(w: World, step: Step): World
    requires Enabled(w, step)
  {
    match step
    case Check(name, version, inputs) =>
      var m := w.machines[name].history[version];
      var st := OpenScope(m, inputs);
      if st.None? then w
      else
        var service := st.value.service.value;
        var e := Exists(PowerOf(w, service, inputs.power), m, st.value, name, w.clock).1;
        SetPending(w, name,
                   match e
                   case Absent => WillCreate(version, service)
                   case Present => WillUpdate(version)
                   case Unknown => Idle)
    case DoCreate(name, inputs) =>
      var m := w.machines[name].history[w.machines[name].pending.version];
      var st := OpenScope(m, inputs);
      if st.None? then SetPending(w, name, Idle)
      else
        var s := SessionOf(w, m, st.value, inputs);
        Commit(w, name, st.value.service.value, m,
               Create(s, name, w.machines[name].spec, inputs, w.clock).0, inputs)
    case DoUpdate(name, inputs) =>
      var m := w.machines[name].history[w.machines[name].pending.version];
      var st := OpenScope(m, inputs);
      if st.None? then SetPending(w, name, Idle)
      else
        var s := SessionOf(w, m, st.value, inputs);
        Commit(w, name, st.value.service.value, m,
               Update(s, name, w.machines[name].spec, inputs, w.clock).0, inputs)
    case GiveUp(name) => SetPending(w, name, Idle)
    case DoDelete(name, version, inputs) =>
      var m := w.machines[name].history[version];
      var st := OpenScope(m, inputs);
      if st.None? then w
      else
        var s := SessionOf(w, m, st.value, inputs);
        Commit(w, name, st.value.service.value, m, Delete(s, name, w.machines[name].spec, inputs).0, inputs)
    case Restart =>
      w.(cache := map[], machines := map name | name in w.machines :: w.machines[name].(pending := Idle))
    case Adopt(name, spec) => w.(machines := w.machines[name := Tracked(spec, [BLANK], Idle)])
    case Forget(name) => w.(machines := w.machines - {name})
    case EditSpec(name, spec) => w.(machines := w.machines[name := w.machines[name].(spec := spec)])
    case Touch(name, lastUpdated) =>
      var t := w.machines[name];
      w.(machines := w.machines[name := t.(history := t.history + [Current(t).(lastUpdated := Some(lastUpdated))])])
    case LoseVm(service, id) => SetVms(w, service, RemoveVm(VmsIn(w.vms, service), id))
    case ChangeVm(service, id, status, networks) =>
      SetVms(w, service, SetVm(VmsIn(w.vms, service), id, status, networks))
    case ForeignVm(service, vm) =>
      SetVms(w, service, VmsIn(w.vms, service) + [vm]).(issued := w.issued[vm.id := vm.name])
    case ChangePools(vpc) => w.(vpc := vpc)
    case Tick(elapsed) => w.(clock := w.clock + elapsed)
  }

  function SetVms(w: World, service: string, vms: seq<Vm>): World {
    w.(vms := w.vms[service := vms])
  }

  /** `ws` is the sequence of worlds that `steps` lead through. */
  ghost predicate IsRun(ws: seq<World>, steps: seq<Step>) {
    && |ws| == |steps| + 1
    && forall i :: 0 <= i < |steps| ==> Enabled(ws[i], steps[i]) && ws[i + 1] == Next(ws[i], steps[i])
  }

  /** A world in which the controller has not seen any machine yet. */
  ghost predicate Initial(w: World) {
    CloudOk(w) && Valid(w.vpc) && w.machines == map[] && w.cache == map[] && w.lookups == []
  }

  lemma RunExtends(ws: seq<World>, steps: seq<Step>, step: Step, w: World)
    requires IsRun(ws, steps) && Enabled(ws[|steps|], step) && w == Next(ws[|steps|], step)
    ensures IsRun(ws + [w], steps + [step])
  {
  }

  lemma RunExtendsTwice(ws: seq<World>, steps: seq<Step>, step: Step, w: World, step': Step, w': World)
    requires IsRun(ws, steps) && Enabled(ws[|steps|], step) && w == Next(ws[|steps|], step)
    requires Enabled(w, step') && w' == Next(w, step')
    ensures IsRun(ws + [w, w'], steps + [step, step'])
  {
    RunExtends(ws, steps, step, w);
    RunExtends(ws + [w], steps + [step], step', w');
    assert ws + [w] + [w'] == ws + [w, w'] && steps + [step] + [step'] == steps + [step, step'];
  }

  // The Machine object is not removed between worlds i and j.
  ghost predicate Lives(steps: seq<Step>, i: nat, j: nat, name: string) {
    forall n :: i <= n < j && n < |steps| ==> steps[n] != Forget(name)
  }

  /******* The steps that patch *******/

  // The steps that patch a Machine object.
  ghost predicate Patches(step: Step) {
    step.DoCreate? || step.DoUpdate? || step.DoDelete?
  }

  /** The stored version of the Machine object that a step works on. */
  function ReadBy(w: World, step: Step): Machine
    requires Enabled(w, step)
    requires Patches(step)
  {
    var t := w.machines[step.name];
    t.history[if step.DoDelete? then step.version else t.pending.version]
  }

  // A step that gets as far as opening a scope.
  ghost predicate Opens(w: World, step: Step)
    requires Enabled(w, step) && Patches(step)
  {
    OpenScope(ReadBy(w, step), step.inputs).Some?
  }

  /** The service instance that the scope of a step is bound to. */
  function Scope(w: World, step: Step): string
    requires Enabled(w, step) && Patches(step) && Opens(w, step)
  {
    OpenScope(ReadBy(w, step), step.inputs).value.service.value
  }

  /** The session in which a step begins, and the one in which it ends. */
  function Begun(w: World, step: Step): Session
    requires Enabled(w, step) && Patches(step) && Opens(w, step)
  {
    SessionOf(w, ReadBy(w, step), OpenScope(ReadBy(w, step), step.inputs).value, step.inputs)
  }

  function Ended(w: World, step: Step): Session
    requires Enabled(w, step) && Patches(step) && Opens(w, step)
  {
    var s, spec := Begun(w, step), w.machines[step.name].spec;
    match step
    case DoCreate(name, inputs) => Create(s, name, spec, inputs, w.clock).0
    case DoUpdate(name, inputs) => Update(s, name, spec, inputs, w.clock).0
    case DoDelete(name, _, inputs) => Delete(s, name, spec, inputs).0
  }

  lemma NextIs(w: World, step: Step)
    requires Enabled(w, step)
    requires Patches(step)
    ensures ReadBy(w, step) in w.machines[step.name].history
    ensures Next(w, step) ==
            if Opens(w, step)
            then Commit(w, step.name, Scope(w, step), ReadBy(w, step), Ended(w, step), step.inputs)
            else if step.DoDelete? then w
            else SetPending(w, step.name, Idle)
  {
  }

  /******* VM ids and names, in every run *******/

  /** A version of a machine's object refers to VMs of the machine's own name only. */
  ghost predicate OwnVersion(issued: map<string, string>, name: string, m: Machine) {
    Owned(issued, name, m.status.instance) && Identifies(issued, name, m.providerId)
  }

  /** A provider id was made for a VM of this name. */
  ghost predicate Identifies(issued: map<string, string>, name: string, providerId: Option<string>) {
    providerId.Some? ==>
      exists region, zone, service, id ::
        providerId.value == ProviderId.Format(region, zone, service, id) && IssuedTo(issued, id, name)
  }

  ghost predicate TrackedOk(issued: map<string, string>, name: string, t: Tracked) {
    t.history != [] && forall m :: m in t.history ==> OwnVersion(issued, name, m)
  }

  ghost predicate CloudOk(w: World) {
    forall service :: PowerOk(PowerOf(w, service, []))
  }

  /** In every reachable world: VM ids are unique and stay with the names they were given to, and no
      stored version of a Machine object, however old, refers to a VM of another name. */
  ghost predicate Inv(w: World) {
    CloudOk(w) && forall name :: name in w.machines ==> TrackedOk(w.issued, name, w.machines[name])
  }

  // Ids stay with the names they were given to.
  ghost predicate Grows(issued: map<string, string>, issued': map<string, string>) {
    forall id :: id in issued ==> IssuedTo(issued', id, issued[id])
  }

  lemma TrackedStays(issued: map<string, string>, issued': map<string, string>, name: string, t: Tracked)
    requires TrackedOk(issued, name, t) && Grows(issued, issued')
    ensures TrackedOk(issued', name, t)
  {
  }

  // The VMs of one service instance changed, and ids may have been given out.
  lemma CloudAfter(w: World, w': World, service: string)
    requires CloudOk(w) && Grows(w.issued, w'.issued) && PowerOk(PowerOf(w', service, []))
    requires forall other :: other != service ==> VmsIn(w'.vms, other) == VmsIn(w.vms, other)
    ensures CloudOk(w')
  {
    forall other ensures PowerOk(PowerOf(w', other, [])) {
      assert PowerOk(PowerOf(w, other, []));
    }
  }

  lemma SameCloud(w: World, w': World)
    requires CloudOk(w) && w'.vms == w.vms && w'.issued == w.issued
    ensures CloudOk(w')
  {
    forall service ensures PowerOk(PowerOf(w', service, [])) {
      assert PowerOk(PowerOf(w, service, []));
    }
  }

  // Merging a patch takes each reference from the stored version or from the session.
  lemma PatchOwn(issued: map<string, string>, name: string, stored: Machine, base: Machine, s: Session,
                 first: Fault, second: Fault)
    requires OwnVersion(issued, name, stored)
    requires Owned(issued, name, s.status.instance) && Identifies(issued, name, s.machine.providerId)
    ensures forall m :: m in Patch(stored, base, s, first, second) ==> OwnVersion(issued, name, m)
  {
  }

  lemma CommitTracked(t: Tracked, name: string, base: Machine, s: Session, inputs: Inputs, issued: map<string, string>)
    requires TrackedOk(issued, name, t)
    requires Owned(issued, name, s.status.instance) && Identifies(issued, name, s.machine.providerId)
    ensures var more := Patch(Current(t), base, s, inputs.patch, inputs.patchStatus);
            TrackedOk(issued, name, t.(history := t.history + more, pending := Idle))
  {
    var more := Patch(Current(t), base, s, inputs.patch, inputs.patchStatus);
    PatchOwn(issued, name, Current(t), base, s, inputs.patch, inputs.patchStatus);
    assert forall m :: m in t.history + more <==> m in t.history || m in more;
  }

  // What an operation leaves in its session.
  ghost predicate SessionOk(s: Session, s': Session, name: string) {
    && PowerOk(s'.power) && Grows(s.power.issued, s'.power.issued)
    && Owned(s'.power.issued, name, s'.status.instance)
    && Identifies(s'.power.issued, name, s'.machine.providerId)
  }

  lemma CommitKeepsInv(w: World, name: string, service: string, base: Machine, s: Session, s': Session, inputs: Inputs)
    requires Inv(w) && name in w.machines && s.power.issued == w.issued && SessionOk(s, s', name)
    ensures Inv(Commit(w, name, service, base, s', inputs))
  {
    var w' := Commit(w, name, service, base, s', inputs);
    CloudAfter(w, w', service);
    forall other | other in w.machines ensures TrackedOk(w'.issued, other, w.machines[other]) {
      TrackedStays(w.issued, w'.issued, other, w.machines[other]);
    }
    CommitTracked(w.machines[name], name, base, s', inputs, w'.issued);
  }

  lemma LaunchedIsOk(p: Power, p': Power, name: string)
    requires PowerOk(p) && Launched(p, p', name)
    ensures PowerOk(p') && Grows(p.issued, p'.issued)
    ensures |p'.vms| == |p.vms| + 1 ==> IssuedTo(p'.issued, p'.vms[|p.vms|].id, name)
  {
  }

  lemma CreateSessionOk(s: Session, name: string, spec: Spec, inputs: Inputs, now: int)
    requires PowerOk(s.power)
    requires Owned(s.power.issued, name, s.status.instance) && Identifies(s.power.issued, name, s.machine.providerId)
    ensures SessionOk(s, Create(s, name, spec, inputs, now).0, name)
  {
    var p, s' := Remaining(s.power, name, spec, inputs), Create(s, name, spec, inputs, now).0;
    RemainingIs(s.power, name, spec, inputs);
    CreateEffect(s, name, spec, inputs, now);
    LaunchedIsOk(p, s'.power, name);
  }

  lemma UpdateSessionOk(s: Session, name: string, spec: Spec, inputs: Inputs, now: int)
    requires PowerOk(s.power) && Ordered(spec, inputs)
    requires Owned(s.power.issued, name, s.status.instance) && Identifies(s.power.issued, name, s.machine.providerId)
    ensures SessionOk(s, Update(s, name, spec, inputs, now).0, name)
  {
    UpdateEffect(s, name, spec, inputs, now);
    RecordedOwned(s, Update(s, name, spec, inputs, now).0, name, inputs);
  }

  lemma RecordedOwned(s: Session, s': Session, name: string, inputs: Inputs)
    requires PowerOk(s.power) && s'.power.vms == s.power.vms && s'.power.issued == s.power.issued
    requires Owned(s.power.issued, name, s.status.instance) && Identifies(s.power.issued, name, s.machine.providerId)
    requires || (s'.status.instance == s.status.instance && s'.machine.providerId == s.machine.providerId)
             || exists vm :: Recorded(s, s', name, vm, inputs)
    ensures SessionOk(s, s', name)
  {
  }

  lemma DeleteSessionOk(s: Session, name: string, spec: Spec, inputs: Inputs)
    requires PowerOk(s.power) && Ordered(spec, inputs)
    requires Owned(s.power.issued, name, s.status.instance) && Identifies(s.power.issued, name, s.machine.providerId)
    ensures SessionOk(s, Delete(s, name, spec, inputs).0, name)
  {
    DeleteEffect(s, name, spec, inputs);
    var s' := Delete(s, name, spec, inputs).0;
    if s'.power.vms != s.power.vms {
      var vm :| vm in s.power.vms && vm.name == name && s'.power.vms == RemoveVm(s.power.vms, vm.id);
      RemovedIsOk(s.power, s'.power, vm);
    }
  }

  // The session in which a step on one machine begins meets what the operations ask for.
  lemma BegunIsOk(w: World, step: Step)
    requires Inv(w) && Enabled(w, step) && Patches(step) && Opens(w, step)
    ensures var s := Begun(w, step);
            && PowerOk(s.power) && s.power.issued == w.issued
            && Owned(s.power.issued, step.name, s.status.instance)
            && Identifies(s.power.issued, step.name, s.machine.providerId)
  {
    assert ReadBy(w, step) in w.machines[step.name].history;
    assert PowerOk(PowerOf(w, Scope(w, step), []));
  }

  lemma PatchKeepsInv(w: World, step: Step)
    requires Inv(w) && Enabled(w, step) && Patches(step)
    ensures Inv(Next(w, step))
  {
    NextIs(w, step);
    if Opens(w, step) {
      BegunIsOk(w, step);
      EndedSessionOk(w, step);
      CommitKeepsInv(w, step.name, Scope(w, step), ReadBy(w, step), Begun(w, step), Ended(w, step), step.inputs);
    } else {
      SameCloud(w, Next(w, step));
    }
  }

  lemma EndedSessionOk(w: World, step: Step)
    requires Inv(w) && Enabled(w, step) && Patches(step) && Opens(w, step)
    ensures SessionOk(Begun(w, step), Ended(w, step), step.name)
  {
    BegunIsOk(w, step);
    var s, spec := Begun(w, step), w.machines[step.name].spec;
    match step {
      case DoCreate(name, inputs) => CreateSessionOk(s, name, spec, inputs, w.clock);
      case DoUpdate(name, inputs) => UpdateSessionOk(s, name, spec, inputs, w.clock);
      case DoDelete(name, _, inputs) => DeleteSessionOk(s, name, spec, inputs);
    }
  }

  lemma ChangedIsOk(p: Power, id: string, status: string, networks: seq<Network>)
    requires PowerOk(p)
    ensures PowerOk(p.(vms := SetVm(p.vms, id, status, networks)))
  {
  }

  lemma JoinedIsOk(p: Power, vm: Vm)
    requires PowerOk(p) && vm.id !in p.issued
    ensures PowerOk(p.(vms := p.vms + [vm], issued := p.issued[vm.id := vm.name]))
  {
  }

  lemma RemovedStaysOk(p: Power, id: string)
    requires PowerOk(p)
    ensures PowerOk(p.(vms := RemoveVm(p.vms, id)))
  {
    RemoveVmIs(p.vms, id);
    RemoveVmKeeps(p.vms, id, "");
  }

  lemma OtherStepKeepsCloud(w: World, step: Step)
    requires CloudOk(w) && Enabled(w, step) && !Patches(step)
    ensures CloudOk(Next(w, step)) && Grows(w.issued, Next(w, step).issued)
  {
    var w' := Next(w, step);
    if step.LoseVm? || step.ChangeVm? || step.ForeignVm? {
      var p := PowerOf(w, step.service, []);
      assert PowerOk(p);
      if step.LoseVm? {
        RemovedStaysOk(p, step.id);
      } else if step.ChangeVm? {
        ChangedIsOk(p, step.id, step.status, step.networks);
      } else {
        JoinedIsOk(p, step.vm);
      }
      CloudAfter(w, w', step.service);
    } else {
      SameCloud(w, w');
    }
  }

  // A version of the object may be stored again with another time.
  ghost predicate Touched(h: seq<Machine>, h': seq<Machine>) {
    h' == h || (h != [] && exists at :: h' == h + [h[|h| - 1].(lastUpdated := Some(at))])
  }

  lemma OtherStepHistory(w: World, step: Step, name: string)
    requires Enabled(w, step) && !Patches(step) && name in Next(w, step).machines
    ensures var t' := Next(w, step).machines[name];
            if name in w.machines then Touched(w.machines[name].history, t'.history) else t'.history == [BLANK]
  {
  }

  lemma TouchedTracked(issued: map<string, string>, name: string, t: Tracked, t': Tracked)
    requires TrackedOk(issued, name, t) && Touched(t.history, t'.history)
    ensures TrackedOk(issued, name, t')
  {
    if t'.history != t.history {
      var at :| t'.history == t.history + [Current(t).(lastUpdated := Some(at))];
      var touched := Current(t).(lastUpdated := Some(at));
      assert OwnVersion(issued, name, Current(t));
      assert OwnVersion(issued, name, touched);
      assert forall m :: m in t'.history <==> m in t.history || m == touched;
    }
  }

  lemma OtherStepKeepsInv(w: World, step: Step)
    requires Inv(w) && Enabled(w, step) && !Patches(step)
    ensures Inv(Next(w, step))
  {
    var w' := Next(w, step);
    OtherStepKeepsCloud(w, step);
    forall name | name in w'.machines ensures TrackedOk(w'.issued, name, w'.machines[name]) {
      OtherStepHistory(w, step, name);
      if name in w.machines {
        TrackedStays(w.issued, w'.issued, name, w.machines[name]);
        TouchedTracked(w'.issued, name, w.machines[name], w'.machines[name]);
      }
    }
  }

  lemma StepKeepsInv(w: World, step: Step)
    requires Inv(w) && Enabled(w, step)
    ensures Inv(Next(w, step))
  {
    if Patches(step) {
      PatchKeepsInv(w, step);
    } else {
      OtherStepKeepsInv(w, step);
    }
  }

  /** The invariant holds in every world of every run. */
  lemma {:induction false} RunKeepsInv(ws: seq<World>, steps: seq<Step>, n: nat)
    requires IsRun(ws, steps) && Inv(ws[0]) && n <= |steps|
    ensures Inv(ws[n])
  {
    if n > 0 {
      RunKeepsInv(ws, steps, n - 1);
      StepKeepsInv(ws[n - 1], steps[n - 1]);
      assert ws[n - 1 + 1] == Next(ws[n - 1], steps[n - 1]);
    }
  }
}
