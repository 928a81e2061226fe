/**
 * Concrete checks on the demo data of src/data/dataHealth.mock.ts and on
 * small hand-made inputs: the readiness of the demo issues before and after a
 * sync, the demo diff's recommendation, the plan-run picker's default, and
 * the severity filter.
 */
module MockVectors {
  import opened Seqs
  import opened Text
  import opened Types
  import opened DataHealth
  import opened IssuesScreen
  import opened DiffsScreen

  const MockIssues: seq<Issue> := [
    Issue("ISS-001", Blocker, Dependency, Open, WorkOrder, "WO-1042", "WO must reference existing product",
          "Work order references product PROD-88, but that product does not exist.",
          "2026-01-27 09:14", "2026-01-27 12:02", true),
    Issue("ISS-002", Major, Null, Open, Operation, "OP-3301", "Operation cycle_time must be > 0",
          "Operation cycle_time is null.", "2026-01-27 08:41", "2026-01-27 12:02", false),
    Issue("ISS-003", Major, Logical, Open, WorkOrder, "WO-1039", "Last operation scanned but WO still In Progress",
          "End scan received for last operation, but work order status is still In Progress.",
          "2026-01-26 17:12", "2026-01-27 12:02", false),
    Issue("ISS-004", Minor, Null, Acknowledged, Machine, "M-12", "Machine must have capability group",
          "Machine capability_group is missing.", "2026-01-25 10:22", "2026-01-27 12:02", false),
    Issue("ISS-005", Minor, Logical, Suppressed, Route, "ROUTE-7", "Route should include packaging step",
          "Route missing packaging step (suppressed for this route).", "2026-01-22 11:03", "2026-01-27 12:02", false)
  ]

  const MockSnapshots: seq<Snapshot> := [
    Snapshot("SNAP-CURRENT", Current, "2026-01-27 12:00", "Current (latest sync)"),
    Snapshot("SNAP-PLAN-20260127-0905", PlanRun, "2026-01-27 09:05", "Plan Run — 2026-01-27 09:05"),
    Snapshot("SNAP-PLAN-20260126-1600", PlanRun, "2026-01-26 16:00", "Plan Run — 2026-01-26 16:00")
  ]

  const MockDiff: seq<DiffItem> := [
    DiffItem(WorkOrder, ["WO-1044"], [], [ModifiedRecord("WO-1040", [FieldChange("due_date", "2026-01-29", "2026-01-28")])]),
    DiffItem(Machine, [], [], [ModifiedRecord("M-5", [FieldChange("availability", "Up", "Down")])])
  ]

  /** The demo issues hold an OPEN blocker: FAIL, with 3 open issues (1 blocker, 2 majors). */
  lemma MockIssuesFail()
    ensures Counts(MockIssues).open == 3 && Counts(MockIssues).blockers == 1
    ensures Counts(MockIssues).majors == 2 && Counts(MockIssues).minors == 0
    ensures Readiness(MockIssues) == Fail
  {
    CountsOfDemoShape(MockIssues);
  }

  /**
   * Any five issues with the demo's statuses and severities: one OPEN
   * blocker, two OPEN majors, one ACKNOWLEDGED and one SUPPRESSED minor.
   */
  lemma CountsOfDemoShape(s: seq<Issue>)
    requires |s| == 5
    requires s[0].status == Open && s[0].severity == Blocker
    requires s[1].status == Open && s[1].severity == Major
    requires s[2].status == Open && s[2].severity == Major
    requires s[3].status == Acknowledged && s[4].status == Suppressed
    ensures Counts(s).open == 3 && Counts(s).blockers == 1 && Counts(s).majors == 2 && Counts(s).minors == 0
    ensures Readiness(s) == Fail
  {
    CountOpenOfDemoShape(s);
    CountsAreOpenCounts(s);
    assert HasOpen(s, Blocker) by {
      assert s[0].status == Open && s[0].severity == Blocker;
    }
  }

  lemma CountOpenOfDemoShape(s: seq<Issue>)
    requires |s| == 5
    requires s[0].status == Open && s[0].severity == Blocker
    requires s[1].status == Open && s[1].severity == Major
    requires s[2].status == Open && s[2].severity == Major
    requires s[3].status == Acknowledged && s[4].status == Suppressed
    ensures CountOpen(s, Blocker) == 1 && CountOpen(s, Major) == 2 && CountOpen(s, Minor) == 0
  {
    assert s[4..][1..] == [];
    assert s[3..][1..] == s[4..];
    assert s[2..][1..] == s[3..];
    assert s[1..][1..] == s[2..];
    forall sev ensures CountOpen(s[3..], sev) == 0 {
      assert CountOpen(s[4..][1..], sev) == 0;
      assert s[4..][0] == s[4] && s[3..][0] == s[3];
    }
    assert CountOpen(s[2..], Major) == 1 && CountOpen(s[2..], Blocker) == 0 && CountOpen(s[2..], Minor) == 0;
    assert CountOpen(s[1..], Major) == 2 && CountOpen(s[1..], Blocker) == 0 && CountOpen(s[1..], Minor) == 0;
  }

  /** After the demo sync resolves ISS-001 only the two OPEN majors remain: WARN. */
  lemma MockIssuesAfterSyncWarn(now: string)
    ensures Readiness(SyncIssues(MockIssues, now)) == Warn
  {
    var after := SyncIssues(MockIssues, now);
    assert after[1].status == Open && after[1].severity == Major;
    forall k | 0 <= k < |after| ensures !(after[k].status == Open && after[k].severity == Blocker) {
      assert k == 0 || MockIssues[k].severity != Blocker;
    }
  }

  /** The demo diff recommends re-planning for both reasons, work orders first. */
  lemma MockDiffReplans()
    ensures Replan(MockDiff) == Recommendation(true, [WorkOrdersChanged, MachineAvailabilityChanged])
  {
    ReplanOfPair(MockDiff[0], MockDiff[1]);
    assert MockDiff == [MockDiff[0], MockDiff[1]];
    AvailabilityMentioned();
    assert MockDiff[1].modified[0].changes[0].field == "availability";
    assert MachineChange(Some(MockDiff[1]));
  }

  /** A diff of one WorkOrder item followed by one Machine item is judged on those two items. */
  lemma ReplanOfPair(wo: DiffItem, m: DiffItem)
    requires wo.objectType == WorkOrder && m.objectType == Machine
    ensures Replan([wo, m]) ==
      Recommendation(WorkOrderChange(Some(wo)) || MachineChange(Some(m)),
                     (if WorkOrderChange(Some(wo)) then [WorkOrdersChanged] else []) +
                     (if MachineChange(Some(m)) then [MachineAvailabilityChanged] else []))
  {
    FindFirst([wo, m], OfType(WorkOrder), 0);
    FindFirst([wo, m], OfType(Machine), 1);
  }

  lemma AvailabilityMentioned()
    ensures MentionsAvailability("availability")
  {
    assert Lower("availability") == "availability";
    assert "availability" <= Lower("availability")[0..];
  }

  /** An added work order with an unrelated machine change: work orders only. */
  lemma AddedWorkOrderOnly()
    ensures Replan([
      DiffItem(WorkOrder, ["WO-9"], [], []),
      DiffItem(Machine, [], [], [ModifiedRecord("M-5", [FieldChange("status", "Up", "Down")])])
    ]) == Recommendation(true, [WorkOrdersChanged])
  {
    var m := DiffItem(Machine, [], [], [ModifiedRecord("M-5", [FieldChange("status", "Up", "Down")])]);
    ReplanOfPair(DiffItem(WorkOrder, ["WO-9"], [], []), m);
    assert !MentionsAvailability("status");
    assert !MachineChange(Some(m));
  }

  /** An availability change with no work-order membership change: machine only. */
  lemma MachineAvailabilityOnly()
    ensures Replan([
      DiffItem(WorkOrder, [], [], []),
      DiffItem(Machine, [], [], [ModifiedRecord("M-5", [FieldChange("availability", "Up", "Down")])])
    ]) == Recommendation(true, [MachineAvailabilityChanged])
  {
    var m := DiffItem(Machine, [], [], [ModifiedRecord("M-5", [FieldChange("availability", "Up", "Down")])]);
    ReplanOfPair(DiffItem(WorkOrder, [], [], []), m);
    AvailabilityMentioned();
    assert m.modified[0].changes[0].field == "availability";
    assert MachineChange(Some(m));
  }

  /** A work order whose due date moved, and nothing else: the plan stays valid. */
  lemma DueDateOnlyKeepsPlan()
    ensures Replan([
      DiffItem(WorkOrder, [], [], [ModifiedRecord("WO-1040", [FieldChange("due_date", "2026-01-29", "2026-01-28")])])
    ]) == Recommendation(false, [])
  {
  }

  /** The plan-run picker starts on the newest plan run of the demo snapshots. */
  lemma MockDefaultPlan()
    ensures DefaultSelectedPlan(MockSnapshots) == "SNAP-PLAN-20260127-0905"
  {
    assert IsFirstPlanRun(MockSnapshots, 1);
  }

  /** Filtering {BLOCKER, MAJOR, MINOR, MAJOR} by MAJOR returns the two MAJOR issues, whatever their status. */
  lemma SeverityFilterExample(a: Issue, b: Issue, c: Issue, d: Issue)
    requires a.severity == Blocker && b.severity == Major && c.severity == Minor && d.severity == Major
    ensures Filtered([a, b, c, d], NoFilters.(severity := Some(Major))) == [b, d]
  {
    var f := NoFilters.(severity := Some(Major));
    OnlySeverityFilter(a, Major);
    OnlySeverityFilter(b, Major);
    OnlySeverityFilter(c, Major);
    OnlySeverityFilter(d, Major);
    assert [a, b, c, d][1..] == [b, c, d];
    assert [b, c, d][1..] == [c, d];
    assert [c, d][1..] == [d];
    assert [d][1..] == [];
    assert Filtered([d], f) == [d];
    assert Filtered([c, d], f) == [d];
    assert Filtered([b, c, d], f) == [b, d];
  }

  /** With only a severity chosen, an issue is shown exactly when it has that severity. */
  lemma OnlySeverityFilter(i: Issue, sev: Severity)
    ensures Matches(i, NoFilters.(severity := Some(sev))) <==> i.severity == sev
  {
    var f := NoFilters.(severity := Some(sev));
    assert f.q == [];
    assert TrimStart(f.q) == [];
    assert Trim(f.q) == [];
    assert Lower(Trim(f.q)) == [];
    assert MatchesQuery(i, f);
  }

  /** A run of the page: a sync puts the new run first, resolves ISS-001 and closes the drawer. */
  method SyncScenario()
  {
    var store := new DataHealthStore(MockIssues, []);
    store.SelectIssue(Some("ISS-002"));
    assert store.issues[1].id == "ISS-002";
    assert store.SelectedIssue().Some?;
    store.SyncNow(1);
    SyncRunIdExample();
    assert store.LastSync().Some? && store.LastSync().value.id == "SYNC-181";
    assert store.SelectedIssue().None?;
    assert store.issues[0].status == Resolved && store.issues[0].isNewSinceLastSync;
  }

  lemma SyncRunIdExample()
    ensures SyncRunId(1) == "SYNC-181"
  {
  }

  /** Acknowledging a selection updates the listed issues and skips an id no issue carries. */
  method BulkScenario()
  {
    var store := new DataHealthStore(MockIssues, []);
    store.ApplyBulk(["ISS-002", "ISS-999"], Ack);
    assert MockIssues[1].id in ["ISS-002", "ISS-999"];
    assert MockIssues[2].id !in ["ISS-002", "ISS-999"];
    assert store.issues[1].status == Acknowledged && store.issues[2].status == Open;
  }
}
