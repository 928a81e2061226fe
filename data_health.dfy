/**
 * The state held by the data-health page (src/features/dataHealth/DataHealthPage.tsx):
 * the issue list with its derived counts and readiness signal, the sync history,
 * and the status-changing commands that the screens and the issue drawer call.
 */
module DataHealth {
  import opened Seqs
  import opened Types

  datatype IssueCounts = IssueCounts(open: nat, blockers: nat, majors: nat, minors: nat)

  /** The readiness label shown in the header and on the overview. */
  datatype ReadinessLabel = Fail | Warn | Pass

  /** The three bulk actions offered for a selection of issues. */
  datatype BulkAction = Ack | Suppress | Resolve

  predicate IsOpen(i: Issue) {
    i.status == Open
  }

  /** The OPEN issues, each as often as it occurs, in list order. */
  function OpenIssues(issues: seq<Issue>): (r: seq<Issue>)
    ensures |r| == CountIf(issues, IsOpen)
    ensures forall k :: 0 <= k < |r| ==> r[k] in issues && IsOpen(r[k])
    ensures forall k :: 0 <= k < |issues| && IsOpen(issues[k]) ==> issues[k] in r
    ensures SubsequenceOf(r, issues)
  {
    FilterIsSubsequence(issues, IsOpen);
    Filter(issues, IsOpen)
  }

  /** The issues of severity `sev`, each as often as it occurs, in list order. */
  function OfSeverity(issues: seq<Issue>, sev: Severity): (r: seq<Issue>)
    ensures |r| == CountIf(issues, (i: Issue) => i.severity == sev)
    ensures forall k :: 0 <= k < |r| ==> r[k] in issues && r[k].severity == sev
    ensures forall k :: 0 <= k < |issues| && issues[k].severity == sev ==> issues[k] in r
    ensures SubsequenceOf(r, issues)
  {
    FilterIsSubsequence(issues, (i: Issue) => i.severity == sev);
    Filter(issues, (i: Issue) => i.severity == sev)
  }

  /** Some OPEN issue has severity `sev`. */
  ghost predicate HasOpen(issues: seq<Issue>, sev: Severity) {
    exists k :: 0 <= k < |issues| && issues[k].status == Open && issues[k].severity == sev
  }

  /** Independent reference count: the OPEN issues of severity `sev`, counted one by one. */
  function CountOpen(issues: seq<Issue>, sev: Severity): nat
    decreases |issues|
  {
    if issues == [] then 0
    else (if issues[0].status == Open && issues[0].severity == sev then 1 else 0) + CountOpen(issues[1..], sev)
  }

  /** Every issue has exactly one severity, so the three severity filters partition a list. */
  lemma {:induction false} SeverityPartition(issues: seq<Issue>)
    ensures |OfSeverity(issues, Blocker)| + |OfSeverity(issues, Major)| + |OfSeverity(issues, Minor)| == |issues|
    decreases |issues|
  {
    if issues != [] {
      SeverityPartition(issues[1..]);
      OfSeverityStep(issues, Blocker);
      OfSeverityStep(issues, Major);
      OfSeverityStep(issues, Minor);
    }
  }

  lemma OfSeverityStep(issues: seq<Issue>, sev: Severity)
    requires issues != []
    ensures |OfSeverity(issues, sev)| == (if issues[0].severity == sev then 1 else 0) + |OfSeverity(issues[1..], sev)|
  {
  }

  /** `counts`: OPEN issues, then those split by severity. */
  function Counts(issues: seq<Issue>): (c: IssueCounts)
    ensures c.open == c.blockers + c.majors + c.minors
    ensures c.open <= |issues|
  {
    var open := OpenIssues(issues);
    SeverityPartition(open);
    IssueCounts(|open|, |OfSeverity(open, Blocker)|, |OfSeverity(open, Major)|, |OfSeverity(open, Minor)|)
  }

  /**
   * `readiness`, strict precedence: FAIL iff some OPEN issue is a BLOCKER;
   * WARN iff there is no OPEN BLOCKER but some OPEN MAJOR; PASS otherwise.
   */
  function Readiness(issues: seq<Issue>): (r: ReadinessLabel)
    ensures r == Fail <==> HasOpen(issues, Blocker)
    ensures r == Warn <==> !HasOpen(issues, Blocker) && HasOpen(issues, Major)
    ensures r == Pass <==> !HasOpen(issues, Blocker) && !HasOpen(issues, Major)
  {
    CountsAreOpenCounts(issues);
    CountOpenPositive(issues, Blocker);
    CountOpenPositive(issues, Major);
    var c := Counts(issues);
    if c.blockers > 0 then Fail
    else if c.majors > 0 then Warn
    else Pass
  }

  /** Each severity count counts exactly the OPEN issues of that severity. */
  lemma {:induction false} SeverityCountIsOpenCount(issues: seq<Issue>, sev: Severity)
    ensures |OfSeverity(OpenIssues(issues), sev)| == CountOpen(issues, sev)
    decreases |issues|
  {
    if issues != [] {
      SeverityCountIsOpenCount(issues[1..], sev);
      var rest := OpenIssues(issues[1..]);
      if IsOpen(issues[0]) {
        assert OpenIssues(issues) == [issues[0]] + rest;
        assert ([issues[0]] + rest)[1..] == rest;
      }
    }
  }

  lemma CountsAreOpenCounts(issues: seq<Issue>)
    ensures Counts(issues).blockers == CountOpen(issues, Blocker)
    ensures Counts(issues).majors == CountOpen(issues, Major)
    ensures Counts(issues).minors == CountOpen(issues, Minor)
    ensures Counts(issues).open == CountOpen(issues, Blocker) + CountOpen(issues, Major) + CountOpen(issues, Minor)
  {
    SeverityCountIsOpenCount(issues, Blocker);
    SeverityCountIsOpenCount(issues, Major);
    SeverityCountIsOpenCount(issues, Minor);
  }

  /** A reference count is positive exactly when one such OPEN issue exists. */
  lemma {:induction false} CountOpenPositive(issues: seq<Issue>, sev: Severity)
    ensures CountOpen(issues, sev) > 0 <==> HasOpen(issues, sev)
    decreases |issues|
  {
    if issues != [] {
      CountOpenPositive(issues[1..], sev);
      if HasOpen(issues[1..], sev) {
        var k :| 0 <= k < |issues[1..]| && issues[1..][k].status == Open && issues[1..][k].severity == sev;
        assert issues[k + 1] == issues[1..][k];
      }
      if HasOpen(issues, sev) && !(issues[0].status == Open && issues[0].severity == sev) {
        var k :| 0 <= k < |issues| && issues[k].status == Open && issues[k].severity == sev;
        assert issues[1..][k - 1] == issues[k];
      }
    }
  }

  /** An issue that is not an OPEN issue of severity `sev` does not decide `HasOpen(_, sev)`. */
  lemma HasOpenIgnores(a: seq<Issue>, x: Issue, b: seq<Issue>, sev: Severity)
    requires !(x.status == Open && x.severity == sev)
    ensures HasOpen(a + [x] + b, sev) <==> HasOpen(a + b, sev)
  {
    var s, t := a + [x] + b, a + b;
    if HasOpen(t, sev) {
      var k :| 0 <= k < |t| && t[k].status == Open && t[k].severity == sev;
      if k < |a| { assert s[k] == t[k]; } else { assert s[k + 1] == t[k]; }
    }
    if HasOpen(s, sev) {
      var k :| 0 <= k < |s| && s[k].status == Open && s[k].severity == sev;
      if k < |a| { assert s[k] == t[k]; } else { assert s[k] == t[k - 1]; }
    }
  }

  /** MINOR issues and issues that are not OPEN never affect readiness, wherever they sit. */
  lemma ReadinessIgnores(a: seq<Issue>, x: Issue, b: seq<Issue>)
    requires x.status != Open || x.severity == Minor
    ensures Readiness(a + [x] + b) == Readiness(a + b)
  {
    HasOpenIgnores(a, x, b, Blocker);
    HasOpenIgnores(a, x, b, Major);
  }

  /** `updateIssueStatus(id, status)`: the new status on every issue carrying that id. */
  function SetStatus(issues: seq<Issue>, id: string, status: IssueStatus): (r: seq<Issue>)
    ensures |r| == |issues|
  {
    seq(|issues|, k requires 0 <= k < |issues| =>
      if issues[k].id == id then issues[k].(status := status) else issues[k])
  }

  /**
   * Exactly the issues carrying `id` take the new status; every other field of
   * every issue, the length and the order are kept.
   */
  lemma SetStatusIsLocal(issues: seq<Issue>, id: string, status: IssueStatus)
    ensures forall k :: 0 <= k < |issues| ==>
      && SetStatus(issues, id, status)[k].status == (if issues[k].id == id then status else issues[k].status)
      && SetStatus(issues, id, status)[k] == issues[k].(status := SetStatus(issues, id, status)[k].status)
  {
  }

  /** Setting the same status twice is the same as setting it once. */
  lemma SetStatusIdempotent(issues: seq<Issue>, id: string, status: IssueStatus)
    ensures SetStatus(SetStatus(issues, id, status), id, status) == SetStatus(issues, id, status)
  {
  }

  /** An id that no issue carries leaves the list as it was. */
  lemma SetStatusUnknownId(issues: seq<Issue>, id: string, status: IssueStatus)
    requires forall k :: 0 <= k < |issues| ==> issues[k].id != id
    ensures SetStatus(issues, id, status) == issues
  {
  }

  /** Any status may follow any other: the last status set wins. */
  lemma SetStatusLastWins(issues: seq<Issue>, id: string, s1: IssueStatus, s2: IssueStatus)
    ensures SetStatus(SetStatus(issues, id, s1), id, s2) == SetStatus(issues, id, s2)
  {
  }

  function Rank(r: ReadinessLabel): nat {
    match r
    case Pass => 0
    case Warn => 1
    case Fail => 2
  }

  /** Moving an issue to a status other than OPEN can only improve readiness. */
  lemma CloseNeverWorsens(issues: seq<Issue>, id: string, status: IssueStatus)
    requires status != Open
    ensures Rank(Readiness(SetStatus(issues, id, status))) <= Rank(Readiness(issues))
  {
    var r := SetStatus(issues, id, status);
    forall sev | HasOpen(r, sev) ensures HasOpen(issues, sev) {
      var k :| 0 <= k < |r| && r[k].status == Open && r[k].severity == sev;
      assert issues[k] == r[k];
    }
    FewerOpenNeverWorsens(issues, r);
  }

  /** Readiness only looks at which severities have an OPEN issue, so dropping some can only improve it. */
  lemma FewerOpenNeverWorsens(before: seq<Issue>, after: seq<Issue>)
    requires forall sev :: HasOpen(after, sev) ==> HasOpen(before, sev)
    ensures Rank(Readiness(after)) <= Rank(Readiness(before))
  {
    assert HasOpen(after, Blocker) ==> HasOpen(before, Blocker);
    assert HasOpen(after, Major) ==> HasOpen(before, Major);
  }

  function ClearNewFlags(issues: seq<Issue>): (r: seq<Issue>)
    ensures |r| == |issues|
  {
    seq(|issues|, k requires 0 <= k < |issues| => issues[k].(isNewSinceLastSync := false))
  }

  /** "Refresh checks" only clears flags, so the counts and the readiness signal stay put. */
  lemma ClearNewFlagsKeepsCounts(issues: seq<Issue>)
    ensures Counts(ClearNewFlags(issues)) == Counts(issues)
  {
    var r := ClearNewFlags(issues);
    CountOpenUnderSameStatusAndSeverity(r, issues, Blocker);
    CountOpenUnderSameStatusAndSeverity(r, issues, Major);
    CountOpenUnderSameStatusAndSeverity(r, issues, Minor);
    SameOpenCountsSameCounts(r, issues);
  }

  /** `Counts` depends only on how many OPEN issues of each severity a list has. */
  lemma SameOpenCountsSameCounts(a: seq<Issue>, b: seq<Issue>)
    requires CountOpen(a, Blocker) == CountOpen(b, Blocker)
    requires CountOpen(a, Major) == CountOpen(b, Major)
    requires CountOpen(a, Minor) == CountOpen(b, Minor)
    ensures Counts(a) == Counts(b)
  {
    CountsAreOpenCounts(a);
    CountsAreOpenCounts(b);
    var c, d := Counts(a), Counts(b);
    assert c.blockers == d.blockers && c.majors == d.majors && c.minors == d.minors && c.open == d.open;
  }

  lemma {:induction false} CountOpenUnderSameStatusAndSeverity(a: seq<Issue>, b: seq<Issue>, sev: Severity)
    requires |a| == |b|
    requires forall k :: 0 <= k < |a| ==> a[k].status == b[k].status && a[k].severity == b[k].severity
    ensures CountOpen(a, sev) == CountOpen(b, sev)
    decreases |a|
  {
    if a != [] {
      CountOpenUnderSameStatusAndSeverity(a[1..], b[1..], sev);
    }
  }

  /** The issue that the demo sync always resolves. */
  const DemoResolvedId: string := "ISS-001"
  const DemoDurationSec: int := 49
  const DemoRowsUpdated: int := 312
  /** The fixed time stamp the demo sync records. */
  const DemoSyncTime: string := "2026-01-27 13:00"

  /** The id of a demo sync run: `SYNC-` and the number 180 + `roll`, where `roll` stands for the random digit. */
  function SyncRunId(roll: nat): (r: string)
    requires roll < 10
    ensures |r| == 8 && r[..7] == "SYNC-18"
    ensures r[7] as int - '0' as int == roll
  {
    "SYNC-18" + [('0' as int + roll) as char]
  }

  /** The issue list after a simulated sync at time `now`. */
  function SyncIssues(issues: seq<Issue>, now: string): (r: seq<Issue>)
    ensures |r| == |issues|
  {
    seq(|issues|, k requires 0 <= k < |issues| =>
      if issues[k].id == DemoResolvedId then issues[k].(status := Resolved, lastSeenAt := now)
      else issues[k].(isNewSinceLastSync := false))
  }

  /** After a sync ISS-001 is no longer OPEN and readiness is no worse than before. */
  lemma SyncNeverWorsens(issues: seq<Issue>, now: string)
    ensures forall k :: 0 <= k < |issues| && issues[k].id == DemoResolvedId ==> !IsOpen(SyncIssues(issues, now)[k])
    ensures Rank(Readiness(SyncIssues(issues, now))) <= Rank(Readiness(issues))
  {
    var r := SyncIssues(issues, now);
    SyncOpensNothing(issues, now);
    FewerOpenNeverWorsens(issues, r);
  }

  lemma SyncOpensNothing(issues: seq<Issue>, now: string)
    ensures forall sev :: HasOpen(SyncIssues(issues, now), sev) ==> HasOpen(issues, sev)
  {
    var r := SyncIssues(issues, now);
    forall sev | HasOpen(r, sev) ensures HasOpen(issues, sev) {
      var k :| 0 <= k < |r| && r[k].status == Open && r[k].severity == sev;
      assert issues[k].status == Open && issues[k].severity == sev;
    }
  }

  function BulkStatus(action: BulkAction): IssueStatus {
    match action
    case Ack => Acknowledged
    case Suppress => Suppressed
    case Resolve => Resolved
  }

  /** The page's data state: the issue list, the sync history and the issue open in the drawer. */
  class DataHealthStore {
    var issues: seq<Issue>
    var syncRuns: seq<SyncRun>
    var selectedIssueId: Option<string>

    constructor (initialIssues: seq<Issue>, initialRuns: seq<SyncRun>)
      ensures issues == initialIssues && syncRuns == initialRuns && selectedIssueId == None
    {
      issues := initialIssues;
      syncRuns := initialRuns;
      selectedIssueId := None;
    }

    /**
     * `selectedIssue`: nothing when no id is selected or no issue carries it;
     * otherwise the first issue carrying the selected id.
     */
    function SelectedIssue(): (r: Option<Issue>)
      reads this
      ensures selectedIssueId.None? ==> r.None?
      ensures selectedIssueId.Some? ==>
        (r.None? <==> forall k :: 0 <= k < |issues| ==> issues[k].id != selectedIssueId.value)
      ensures r.Some? ==>
        && selectedIssueId.Some?
        && exists k :: 0 <= k < |issues| && issues[k] == r.value && r.value.id == selectedIssueId.value &&
                       forall j :: 0 <= j < k ==> issues[j].id != selectedIssueId.value
    {
      match selectedIssueId
      case None => None
      case Some(id) => Find(issues, (i: Issue) => i.id == id)
    }

    /** `syncRuns[0]`, the run shown as the last sync. */
    function LastSync(): (r: Option<SyncRun>)
      reads this
      ensures r.Some? <==> |syncRuns| > 0
      ensures r.Some? ==> r.value == syncRuns[0]
    {
      if |syncRuns| > 0 then Some(syncRuns[0]) else None
    }

    method SelectIssue(id: Option<string>)
      modifies this
      ensures selectedIssueId == id
      ensures issues == old(issues) && syncRuns == old(syncRuns)
    {
      selectedIssueId := id;
    }

    method UpdateIssueStatus(id: string, status: IssueStatus)
      modifies this
      ensures issues == SetStatus(old(issues), id, status)
      ensures syncRuns == old(syncRuns) && selectedIssueId == old(selectedIssueId)
    {
      issues := SetStatus(issues, id, status);
    }

    /**
     * `onBulk(ids, action)`: one status update per listed id, in list order.
     * Listed ids end at the action's status, unknown ids are skipped and every
     * other issue is left as it was.
     */
    method ApplyBulk(ids: seq<string>, action: BulkAction)
      modifies this
      ensures |issues| == |old(issues)|
      ensures forall k :: 0 <= k < |issues| ==>
        issues[k] == if old(issues)[k].id in ids then old(issues)[k].(status := BulkStatus(action)) else old(issues)[k]
      ensures syncRuns == old(syncRuns) && selectedIssueId == old(selectedIssueId)
    {
      var status := BulkStatus(action);
      for j := 0 to |ids|
        invariant |issues| == |old(issues)|
        invariant forall k :: 0 <= k < |issues| ==>
          issues[k] == if old(issues)[k].id in ids[..j] then old(issues)[k].(status := status) else old(issues)[k]
        invariant syncRuns == old(syncRuns) && selectedIssueId == old(selectedIssueId)
      {
        assert ids[..j + 1] == ids[..j] + [ids[j]];
        UpdateIssueStatus(ids[j], status);
      }
      assert ids[..|ids|] == ids;
    }

    /** The drawer's Acknowledge / Suppress / Resolve buttons act on the selected issue, if any. */
    method UpdateSelectedStatus(status: IssueStatus)
      modifies this
      ensures old(SelectedIssue()).None? ==> issues == old(issues)
      ensures old(SelectedIssue()).Some? ==> issues == SetStatus(old(issues), old(SelectedIssue()).value.id, status)
      ensures syncRuns == old(syncRuns) && selectedIssueId == old(selectedIssueId)
    {
      var sel := SelectedIssue();
      if sel.Some? {
        UpdateIssueStatus(sel.value.id, status);
      }
    }

    /** `refreshChecks`: clears the "new since last sync" flag on every issue and nothing else. */
    method RefreshChecks()
      modifies this
      ensures |issues| == |old(issues)|
      ensures forall k :: 0 <= k < |issues| ==> issues[k] == old(issues)[k].(isNewSinceLastSync := false)
      ensures syncRuns == old(syncRuns) && selectedIssueId == old(selectedIssueId)
    {
      issues := ClearNewFlags(issues);
    }

    /**
     * `syncNow`: records a successful manual run at the front of the history,
     * resolves ISS-001 (keeping its new flag), clears the new flag on every
     * other issue and closes the drawer. `roll` is the random digit of the run id.
     */
    method SyncNow(roll: nat)
      requires roll < 10
      modifies this
      ensures syncRuns == [SyncRun(SyncRunId(roll), DemoSyncTime, DemoDurationSec, DemoRowsUpdated, Success, None, Manual)] + old(syncRuns)
      ensures LastSync() == Some(SyncRun(SyncRunId(roll), DemoSyncTime, DemoDurationSec, DemoRowsUpdated, Success, None, Manual))
      ensures |issues| == |old(issues)|
      ensures forall k :: 0 <= k < |issues| ==>
        issues[k] == if old(issues)[k].id == DemoResolvedId
                     then old(issues)[k].(status := Resolved, lastSeenAt := DemoSyncTime)
                     else old(issues)[k].(isNewSinceLastSync := false)
      ensures selectedIssueId == None
    {
      var run := SyncRun(SyncRunId(roll), DemoSyncTime, DemoDurationSec, DemoRowsUpdated, Success, None, Manual);
      syncRuns := [run] + syncRuns;
      issues := SyncIssues(issues, DemoSyncTime);
      selectedIssueId := None;
    }
  }
}
