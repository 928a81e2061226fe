/**
 * The records of the data-health domain (src/types/dataHealth.ts). String
 * unions become enumerations; optional fields become `Option`.
 */
module Types {
  import opened Seqs

  datatype Severity = Blocker | Major | Minor
  datatype IssueType = Null | Dependency | Logical
  datatype IssueStatus = Open | Acknowledged | Suppressed | Resolved
  datatype ObjectType = WorkOrder | Product | Machine | Route | Operation

  /** The spelling of an object type inside an issue's search text. */
  function ObjectTypeName(t: ObjectType): string {
    match t
    case WorkOrder => "WorkOrder"
    case Product => "Product"
    case Machine => "Machine"
    case Route => "Route"
    case Operation => "Operation"
  }

  /**
   * One detected data-quality problem. The display-only `evidence` bag is not
   * modelled; an absent `isNewSinceLastSync` is `false`, as every reader of
   * the flag treats it.
   */
  datatype Issue = Issue(
    id: string,
    severity: Severity,
    issueType: IssueType,
    status: IssueStatus,
    objectType: ObjectType,
    objectKey: string,
    ruleName: string,
    message: string,
    firstSeenAt: string,
    lastSeenAt: string,
    isNewSinceLastSync: bool)

  datatype RuleTemplate = EventStateMismatch | MissingStep | InvalidRouteMembership

  datatype LogicalRule = LogicalRule(
    id: string,
    name: string,
    description: string,
    severity: Severity,
    enabled: bool,
    lastTriggeredCount: int,
    template: RuleTemplate)

  datatype SyncStatus = Success | Failed
  datatype SyncTrigger = Scheduled | Manual

  datatype SyncRun = SyncRun(
    id: string,
    startedAt: string,
    durationSec: int,
    rowsUpdated: int,
    status: SyncStatus,
    error: Option<string>,
    triggeredBy: SyncTrigger)

  datatype SnapshotKind = PlanRun | Current

  datatype Snapshot = Snapshot(id: string, kind: SnapshotKind, createdAt: string, displayLabel: string)

  /** One field-level change; the before/after values are only displayed, never interpreted. */
  datatype FieldChange = FieldChange(field: string, before: string, after: string)

  datatype ModifiedRecord = ModifiedRecord(key: string, changes: seq<FieldChange>)

  datatype DiffItem = DiffItem(
    objectType: ObjectType,
    added: seq<string>,
    removed: seq<string>,
    modified: seq<ModifiedRecord>)
}
