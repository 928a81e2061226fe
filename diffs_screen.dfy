/**
 * The snapshot/diff screen (src/features/dataHealth/screens/Diffs.tsx): the
 * plan-run picker and the advisory "re-plan" recommendation computed from a
 * list of per-entity diffs.
 */
module DiffsScreen {
  import opened Seqs
  import opened Text
  import opened Types

  const WorkOrdersChanged: string := "Work orders changed"
  const MachineAvailabilityChanged: string := "Machine availability changed"

  datatype Recommendation = Recommendation(yes: bool, reasons: seq<string>)

  /** The predicate handed to `diff.find`: the item describes objects of type `t`. */
  function OfType(t: ObjectType): DiffItem -> bool {
    (d: DiffItem) => d.objectType == t
  }

  /** `diff.find(d => d.objectType === t)`. */
  function FindItem(diff: seq<DiffItem>, t: ObjectType): Option<DiffItem> {
    Find(diff, OfType(t))
  }

  /** The work-order condition: only membership changes count, never field modifications. */
  predicate WorkOrderChange(wo: Option<DiffItem>) {
    wo.Some? && |wo.value.added| + |wo.value.removed| > 0
  }

  /**
   * A field name mentions availability, compared case-insensitively: the
   * lower-cased name has "availability" at some position, so it is at least
   * twelve characters long.
   */
  predicate MentionsAvailability(field: string)
    ensures MentionsAvailability(field) <==> exists k :: 0 <= k <= |field| && "availability" <= Lower(field)[k..]
    ensures MentionsAvailability(field) ==> |field| >= 12
  {
    ContainsIffOccursAt(Lower(field), "availability");
    if Contains(Lower(field), "availability") then
      ContainsFits(Lower(field), "availability");
      true
    else false
  }

  /** Some modified record has a change to a field that mentions availability. */
  predicate MachineChange(machine: Option<DiffItem>) {
    machine.Some? &&
    exists m, c :: m in machine.value.modified && c in m.changes && MentionsAvailability(c.field)
  }

  /** `diff[k]` is the first item of type `t`, the one `find` returns. */
  ghost predicate IsFirstOfType(diff: seq<DiffItem>, k: int, t: ObjectType) {
    0 <= k < |diff| && diff[k].objectType == t && forall j :: 0 <= j < k ==> diff[j].objectType != t
  }

  /** The first WorkOrder item has a non-empty added or removed list. */
  ghost predicate FirstWorkOrderMembershipChanged(diff: seq<DiffItem>) {
    exists k :: IsFirstOfType(diff, k, WorkOrder) && (diff[k].added != [] || diff[k].removed != [])
  }

  /** The first Machine item has a change to a field whose name, lower-cased, contains "availability". */
  ghost predicate FirstMachineAvailabilityChanged(diff: seq<DiffItem>) {
    exists k :: IsFirstOfType(diff, k, Machine) &&
      exists m, c :: m in diff[k].modified && c in m.changes && MentionsAvailability(c.field)
  }

  /** `find` returns the first item of its type, when there is one. */
  lemma FindItemIsFirst(diff: seq<DiffItem>, t: ObjectType)
    requires FindItem(diff, t).Some?
    ensures exists k :: IsFirstOfType(diff, k, t) && diff[k] == FindItem(diff, t).value
  {
    var i :| 0 <= i < |diff| && diff[i] == FindItem(diff, t).value && OfType(t)(diff[i]) &&
             forall j :: 0 <= j < i ==> !OfType(t)(diff[j]);
    assert IsFirstOfType(diff, i, t);
  }

  lemma WorkOrderConditionIff(diff: seq<DiffItem>)
    ensures WorkOrderChange(FindItem(diff, WorkOrder)) <==> FirstWorkOrderMembershipChanged(diff)
  {
    if FirstWorkOrderMembershipChanged(diff) {
      var k :| IsFirstOfType(diff, k, WorkOrder) && (diff[k].added != [] || diff[k].removed != []);
      FindFirst(diff, OfType(WorkOrder), k);
    }
    if WorkOrderChange(FindItem(diff, WorkOrder)) {
      FindItemIsFirst(diff, WorkOrder);
    }
  }

  lemma MachineConditionIff(diff: seq<DiffItem>)
    ensures MachineChange(FindItem(diff, Machine)) <==> FirstMachineAvailabilityChanged(diff)
  {
    if FirstMachineAvailabilityChanged(diff) {
      var k :| IsFirstOfType(diff, k, Machine) &&
        exists m, c :: m in diff[k].modified && c in m.changes && MentionsAvailability(c.field);
      FindFirst(diff, OfType(Machine), k);
    }
    if MachineChange(FindItem(diff, Machine)) {
      FindItemIsFirst(diff, Machine);
    }
  }

  /**
   * `replanRecommendation`: re-plan is recommended exactly when the first
   * WorkOrder item changed membership or the first Machine item changed an
   * availability field; the reasons name the conditions that hold, work
   * orders first, and are empty exactly when re-planning is not recommended.
   */
  function Replan(diff: seq<DiffItem>): (r: Recommendation)
    ensures r.yes <==> FirstWorkOrderMembershipChanged(diff) || FirstMachineAvailabilityChanged(diff)
    ensures WorkOrdersChanged in r.reasons <==> FirstWorkOrderMembershipChanged(diff)
    ensures MachineAvailabilityChanged in r.reasons <==> FirstMachineAvailabilityChanged(diff)
    ensures r.reasons == [] <==> !r.yes
    ensures |r.reasons| <= 2
    ensures |r.reasons| == 2 ==> r.reasons == [WorkOrdersChanged, MachineAvailabilityChanged]
  {
    WorkOrderConditionIff(diff);
    MachineConditionIff(diff);
    var woChange := WorkOrderChange(FindItem(diff, WorkOrder));
    var machineChange := MachineChange(FindItem(diff, Machine));
    Recommendation(
      woChange || machineChange,
      (if woChange then [WorkOrdersChanged] else []) + (if machineChange then [MachineAvailabilityChanged] else []))
  }

  /** An empty diff list recommends nothing. */
  lemma EmptyDiffKeepsPlan()
    ensures Replan([]) == Recommendation(false, [])
  {
  }

  /** Field modifications on work orders never trigger the work-order condition. */
  lemma WorkOrderModificationsIgnored(diff: seq<DiffItem>, k: nat, mods: seq<ModifiedRecord>)
    requires k < |diff| && diff[k].objectType == WorkOrder
    ensures Replan(diff[k := diff[k].(modified := mods)]) == Replan(diff)
  {
    var d := diff[k := diff[k].(modified := mods)];
    SameFirstItem(diff, d, WorkOrder);
    SameFirstItem(diff, d, Machine);
    assert WorkOrderChange(FindItem(d, WorkOrder)) == WorkOrderChange(FindItem(diff, WorkOrder));
    assert MachineChange(FindItem(d, Machine)) == MachineChange(FindItem(diff, Machine));
  }

  /** Two lists with the same types position by position have their first item of each type at the same position. */
  lemma SameFirstItem(a: seq<DiffItem>, b: seq<DiffItem>, t: ObjectType)
    requires |a| == |b|
    requires forall k :: 0 <= k < |a| ==> a[k].objectType == b[k].objectType
    ensures FindItem(a, t).None? <==> FindItem(b, t).None?
    ensures FindItem(a, t).Some? ==> exists i :: IsFirstOfType(a, i, t) && FindItem(a, t) == Some(a[i]) && FindItem(b, t) == Some(b[i])
  {
    if FindItem(a, t).Some? {
      FindItemIsFirst(a, t);
      var i :| IsFirstOfType(a, i, t) && a[i] == FindItem(a, t).value;
      assert IsFirstOfType(b, i, t);
      FindFirst(b, OfType(t), i);
    }
  }

  /** Items for products, routes and operations never affect the recommendation, wherever they sit. */
  lemma OtherItemsIgnored(a: seq<DiffItem>, x: DiffItem, b: seq<DiffItem>)
    requires x.objectType != WorkOrder && x.objectType != Machine
    ensures Replan(a + [x] + b) == Replan(a + b)
  {
    FindSkips(a, x, b, OfType(WorkOrder));
    FindSkips(a, x, b, OfType(Machine));
  }

  /** Only the first WorkOrder and the first Machine item are inspected: later items change nothing. */
  lemma LaterItemsIgnored(diff: seq<DiffItem>, extra: seq<DiffItem>)
    requires exists k :: 0 <= k < |diff| && diff[k].objectType == WorkOrder
    requires exists k :: 0 <= k < |diff| && diff[k].objectType == Machine
    ensures Replan(diff + extra) == Replan(diff)
  {
    FindPrefix(diff, extra, OfType(WorkOrder));
    FindPrefix(diff, extra, OfType(Machine));
  }

  /** Availability detection ignores the case of the field name. */
  lemma AvailabilityIgnoresCase(field: string, variant: string)
    requires |variant| == |field|
    requires forall k :: 0 <= k < |field| ==> LowerChar(variant[k]) == LowerChar(field[k])
    ensures MentionsAvailability(variant) == MentionsAvailability(field)
  {
    assert Lower(variant) == Lower(field);
  }

  predicate IsPlanRun(s: Snapshot) {
    s.kind == PlanRun
  }

  /** `planRuns`: the PLAN_RUN snapshots, each as often as it occurs, in their original order. */
  function PlanRuns(snapshots: seq<Snapshot>): (r: seq<Snapshot>)
    ensures |r| == CountIf(snapshots, IsPlanRun)
    ensures forall k :: 0 <= k < |r| ==> r[k].kind == PlanRun && r[k] in snapshots
    ensures forall k :: 0 <= k < |snapshots| && snapshots[k].kind == PlanRun ==> snapshots[k] in r
    ensures SubsequenceOf(r, snapshots)
    ensures (forall k :: 0 <= k < |snapshots| ==> snapshots[k].kind != PlanRun) ==> r == []
  {
    FilterIsSubsequence(snapshots, IsPlanRun);
    assert (forall k :: 0 <= k < |snapshots| ==> snapshots[k].kind != PlanRun) ==> Filter(snapshots, IsPlanRun) == [] by {
      if forall k :: 0 <= k < |snapshots| ==> snapshots[k].kind != PlanRun {
        FilterDropsAll(snapshots, IsPlanRun);
      }
    }
    Filter(snapshots, IsPlanRun)
  }

  /** `snapshots[k]` is the first PLAN_RUN snapshot. */
  ghost predicate IsFirstPlanRun(snapshots: seq<Snapshot>, k: int) {
    0 <= k < |snapshots| && snapshots[k].kind == PlanRun && forall j :: 0 <= j < k ==> snapshots[j].kind != PlanRun
  }

  /**
   * The initial `selectedPlan`: the id of the first PLAN_RUN snapshot, or the
   * empty string when there is none.
   */
  function DefaultSelectedPlan(snapshots: seq<Snapshot>): (r: string)
    ensures (forall k :: 0 <= k < |snapshots| ==> snapshots[k].kind != PlanRun) ==> r == ""
    ensures forall k :: IsFirstPlanRun(snapshots, k) ==> r == snapshots[k].id
  {
    var runs := PlanRuns(snapshots);
    assert forall k :: IsFirstPlanRun(snapshots, k) ==> runs != [] && runs[0] == snapshots[k] by {
      forall k | IsFirstPlanRun(snapshots, k) ensures runs != [] && runs[0] == snapshots[k]
      {
        FindFirst(snapshots, IsPlanRun, k);
      }
    }
    if |runs| > 0 then runs[0].id else ""
  }
}
