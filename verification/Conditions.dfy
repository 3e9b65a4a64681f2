/** The condition list of a machine's provider status. */
module Conditions {
  const CREATION := "MachineCreation"

  datatype Condition = Condition(kind: string, status: string, reason: string, message: string, lastTransition: int)

  // The three conditions the reconciler reports. The time is filled in when they are stored.
  function Success(): Condition {
    Condition(CREATION, "True", "MachineCreationSucceeded", "Machine successfully created", 0)
  }

  function Failure(message: string): Condition {
    Condition(CREATION, "False", "MachineCreationFailed", message, 0)
  }

  function Build(): Condition {
    Condition(CREATION, "BUILD", "InstanceBuildState", "Machine is in build state", 0)
  }

  /** Index of the first condition of a kind; the length of the list when there is none. */
  function IndexOf(conditions: seq<Condition>, kind: string): nat {
    if conditions == [] || conditions[0].kind == kind then 0 else 1 + IndexOf(conditions[1..], kind)
  }

  predicate ShouldUpdate(new_: Condition, existing: Condition) {
    new_.reason != existing.reason || new_.message != existing.message
  }

  function UpdateExisting(new_: Condition, existing: Condition, now: int): Condition {
    if !ShouldUpdate(new_, existing) then existing
    else
      existing.(status := new_.status, reason := new_.reason, message := new_.message,
                lastTransition := if existing.status != new_.status then now else existing.lastTransition)
  }

  function SetCondition(condition: Condition, conditions: seq<Condition>, now: int): seq<Condition> {
    var i := IndexOf(conditions, condition.kind);
    if i >= |conditions| then conditions + [condition.(lastTransition := now)]
    else conditions[i := UpdateExisting(condition, conditions[i], now)]
  }

  /** Storing a condition over an existing one takes over its status exactly when the two do not
      differ in the status alone. */
  lemma UpdateFaithfulExactly(new_: Condition, existing: Condition, now: int)
    ensures var r := UpdateExisting(new_, existing, now);
            r.status == new_.status && r.reason == new_.reason && r.message == new_.message
            <==> !(new_.status != existing.status && new_.reason == existing.reason && new_.message == existing.message)
  {
  }

  lemma {:induction false} IndexOfIs(conditions: seq<Condition>, kind: string)
    ensures var i := IndexOf(conditions, kind);
            && i <= |conditions|
            && (i < |conditions| ==> conditions[i].kind == kind)
            && (forall j :: 0 <= j < i ==> conditions[j].kind != kind)
  {
    if conditions != [] && conditions[0].kind != kind {
      IndexOfIs(conditions[1..], kind);
      forall j | 0 <= j < IndexOf(conditions, kind) ensures conditions[j].kind != kind {
        if j > 0 {
          assert conditions[j] == conditions[1..][j - 1];
        }
      }
    }
  }

  /******* A log of reports *******/

  datatype Report = Report(condition: Condition, time: int)

  ghost predicate Reportable(c: Condition) {
    c == Success() || c == Build() || exists m :: c == Failure(m)
  }

  function Log(base: seq<Condition>, reports: seq<Report>): seq<Condition> {
    if reports == [] then base
    else
      var n := |reports| - 1;
      SetCondition(reports[n].condition, Log(base, reports[..n]), reports[n].time)
  }

  /** The time of the report since which the status has been the same. */
  ghost function LastChange(reports: seq<Report>): int
    requires reports != []
  {
    var n := |reports| - 1;
    if n > 0 && reports[n - 1].condition.status == reports[n].condition.status then LastChange(reports[..n])
    else reports[n].time
  }

  /** Over any sequence of success, failure and build reports, the list gains exactly one entry:
      the last report, stamped with the time of the last change of status. The conditions of other
      kinds stay as they were, in order. Skipped writes lose nothing, because among these reports
      equal reasons come with equal statuses. */
  lemma {:induction false} LogKeepsLastReport(base: seq<Condition>, reports: seq<Report>)
    requires forall i :: 0 <= i < |base| ==> base[i].kind != CREATION
    requires forall i :: 0 <= i < |reports| ==> Reportable(reports[i].condition)
    requires reports != []
    ensures Log(base, reports)
            == base + [reports[|reports| - 1].condition.(lastTransition := LastChange(reports))]
  {
    var n := |reports| - 1;
    var before := Log(base, reports[..n]);
    if n == 0 {
      IndexOfIs(base, CREATION);
    } else {
      LogKeepsLastReport(base, reports[..n]);
      IndexOfIs(before, CREATION);
      assert IndexOf(before, CREATION) == |base| by {
        assert before[|base|].kind == CREATION;
      }
      assert before[..|base|] == base;
    }
  }

  /** At most one condition, and it is one of the reports. */
  ghost predicate OneReport(conditions: seq<Condition>) {
    |conditions| <= 1 && forall c :: c in conditions ==> Reportable(c.(lastTransition := 0))
  }

  /** The one condition is the creation condition with this status, reason and message. */
  ghost predicate Shows(conditions: seq<Condition>, status: string, reason: string, message: string) {
    && |conditions| == 1 && conditions[0].kind == "MachineCreation" && conditions[0].status == status
    && conditions[0].reason == reason && conditions[0].message == message
  }

  /** The one condition is the report `c`. */
  ghost predicate Reports(conditions: seq<Condition>, c: Condition) {
    |conditions| == 1 && conditions[0].(lastTransition := 0) == c
  }

  lemma SetConditionReports(c: Condition, conditions: seq<Condition>, now: int)
    requires Reportable(c) && OneReport(conditions)
    ensures Reports(SetCondition(c, conditions, now), c) && OneReport(SetCondition(c, conditions, now))
  {
  }

  /******* The loop over the list *******/

  method FindProviderCondition(conditions: seq<Condition>, kind: string) returns (i: nat)
    ensures i == IndexOf(conditions, kind)
  {
    i := 0;
    while i < |conditions|
      invariant i <= |conditions|
      invariant IndexOf(conditions, kind) == i + IndexOf(conditions[i..], kind)
    {
      if conditions[i].kind == kind {
        return;
      }
      i := i + 1;
    }
  }

  method SetProviderCondition(condition: Condition, conditions: seq<Condition>, now: int) returns (r: seq<Condition>)
    ensures r == SetCondition(condition, conditions, now)
  {
    var i := FindProviderCondition(conditions, condition.kind);
    r := conditions;
    if i == |conditions| {
      r := r + [condition.(lastTransition := now)];
    } else {
      IndexOfIs(conditions, condition.kind);
      if ShouldUpdate(condition, r[i]) {
        var transition := if r[i].status != condition.status then now else r[i].lastTransition;
        r := r[i := r[i].(status := condition.status, reason := condition.reason,
                          message := condition.message, lastTransition := transition)];
      }
    }
  }
}
