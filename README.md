# Data-health domain model of navi-design-demo

This project models the domain logic of the Data Health screens of the
navi-design-demo prototype. In the original that logic sits inside React
components. Here it is lifted out as Dafny functions, classes and proofs.

- **Issue store and readiness** (`DataHealthPage.tsx`).
  - Counting OPEN issues by severity.
  - The FAIL / WARN / PASS readiness signal.
  - Status updates for one id or a bulk list of ids.
  - "Refresh checks", which clears the "new since last sync" flags.
  - The simulated sync, which records a run and resolves ISS-001.
  - The issue shown in the drawer.

  The held state (`issues`, `syncRuns`, `selectedIssueId`) is the class
  `DataHealth.DataHealthStore`. Its methods reassign the fields through the
  pure functions `SetStatus`, `ClearNewFlags` and `SyncIssues`.
- **Issue list** (`Issues.tsx`).
  - The conjunctive filter: severity, type, status and "new only", plus a
    free-text query that is trimmed and lower-cased.
  - The row-selection record: `selection`, all / some visible selected,
    the per-row checkbox, and `toggleAllVisible`.

  `toggleAllVisible` copies the record and assigns entries in a loop, so it
  is a method with a loop and invariants.
- **Re-plan advisor and plan-run picker** (`Diffs.tsx`). Both are pure
  functions over `DiffItem` and `Snapshot` lists.
- **Configuration editor** (`Config.tsx`).
  - Field-mapping updates: patch a field, add a field, add or remove a
    category, and change the data type.
  - The logical-rule registry: toggle, edit and create.

  Each updater is a pure function. The class `ConfigScreen.ConfigEditor`
  holds `entities` and `rules` and applies the updaters in place.

Some inputs of the original are not deterministic. The model makes each of
them a parameter:

- Random number draws become bounded naturals: `roll < 10` for the sync run
  id `SYNC-18<roll>`, and `roll < 900` for a rule id `LR-<100 + roll>`.
- The random base-36 suffix of a new field id becomes a string parameter.
- The answers typed into `prompt` dialogs become `Option<string>`, where
  `None` is a cancelled dialog.

The files are:

- `seqs.dfy`: generic find, filter, subsequence and de-duplication.
- `text.dfy`: ASCII trim, lower-case and substring search.
- `types.dfy`: the records of `src/types/dataHealth.ts`.
- `data_health.dfy`, `issues_screen.dfy`, `diffs_screen.dfy`,
  `config_screen.dfy`: one file per source component.
- `mock_vectors.dfy`: concrete checks on the demo data of
  `src/data/dataHealth.mock.ts`.

## Model

| member | source | states |
|---|---|---|
| Seqs.Find | src/features/dataHealth/screens/Diffs.tsx:23-24 | `Array.prototype.find`: nothing exactly when no element satisfies the predicate; otherwise the element at the first position that satisfies it |
| Seqs.FindFirst | src/features/dataHealth/screens/Diffs.tsx:23-24 | the element at the first satisfying position is the one `find` returns |
| Seqs.FindSkips | src/features/dataHealth/screens/Diffs.tsx:23-24 | an element that fails the predicate never changes what `find` returns, wherever it is inserted |
| Seqs.FindPrefix | src/features/dataHealth/screens/Diffs.tsx:23-24 | elements appended after a found element do not change what `find` returns |
| Seqs.Filter | src/features/dataHealth/screens/Issues.tsx:56-66 | `Array.prototype.filter`: the result's length is the number of satisfying elements; every kept element is in the input and satisfies the predicate; every satisfying input element is kept; the result is empty exactly when `find` finds nothing, and otherwise starts with what `find` returns |
| Seqs.FilterIsSubsequence | src/features/dataHealth/screens/Issues.tsx:56 | a filtered list is an order-preserving subsequence of its input |
| Seqs.FilterKeepsAll | src/features/dataHealth/screens/Issues.tsx:56 | when every element satisfies the predicate, filtering returns the list unchanged |
| Seqs.FilterDropsAll | src/features/dataHealth/screens/Diffs.tsx:17 | when no element satisfies the predicate, filtering returns the empty list |
| Seqs.CountIfOthers | src/features/dataHealth/screens/Config.tsx:187 | counting the elements different from a value counts all but that value's occurrences |
| Seqs.Dedup | src/features/dataHealth/screens/Config.tsx:163-165 | `Array.from(new Set(xs))`: no duplicates, exactly the elements of the input, listed in the order of their first occurrence in the input |
| Seqs.DedupOfDistinct | src/features/dataHealth/screens/Config.tsx:163-165 | de-duplicating a list without duplicates returns it unchanged |
| Text.TrimStart | src/features/dataHealth/screens/Issues.tsx:55 | the result is a suffix of the input, does not start with white space, and only white space was removed |
| Text.TrimEnd | src/features/dataHealth/screens/Issues.tsx:55 | the result is a prefix of the input, does not end with white space, and only white space was removed |
| Text.Trim | src/features/dataHealth/screens/Issues.tsx:55 | `trim`: neither end of the result is white space, it is no longer than the input, and it is empty exactly when the input is all white space |
| Text.TrimEmptyIffBlank | src/features/dataHealth/screens/Config.tsx:151 | `value.trim()` is empty exactly when the value is empty or all white space |
| Text.TrimPadded | src/features/dataHealth/screens/Issues.tsx:55 | white space added on both sides of a string does not change its trimmed form |
| Text.TrimStartPadded | src/features/dataHealth/screens/Issues.tsx:55 | leading white space added to a string is removed by the left trim |
| Text.TrimEndPadded | src/features/dataHealth/screens/Issues.tsx:55 | trailing white space added to a string is removed by the right trim |
| Text.TrimStartSuffix | src/features/dataHealth/screens/Issues.tsx:55 | the left trim of a string followed by white space is its own left trim followed by that white space, unless the string is blank, when both are empty |
| Text.TrimStartBlank | src/features/dataHealth/screens/Issues.tsx:55 | a white-space-only string left-trims to the empty string |
| Text.Lower | src/features/dataHealth/screens/Issues.tsx:64 | `toLowerCase` keeps the length, maps each upper-case letter to the lower-case letter 32 code points on, keeps every other character, and so leaves no upper-case letter |
| Text.LowerIdempotent | src/features/dataHealth/screens/Issues.tsx:55 | lower-casing twice is lower-casing once |
| Text.TrimLower | src/features/dataHealth/screens/Issues.tsx:55 | trimming and lower-casing commute |
| Text.TrimStartLower | src/features/dataHealth/screens/Issues.tsx:55 | the left trim commutes with lower-casing |
| Text.TrimEndLower | src/features/dataHealth/screens/Issues.tsx:55 | the right trim commutes with lower-casing |
| Text.LowerKeepsSpace | src/features/dataHealth/screens/Issues.tsx:55 | a character is white space exactly when its lower-case form is |
| Text.LowerTrimmed | src/features/dataHealth/screens/Issues.tsx:55 | `q.trim().toLowerCase()` is empty exactly when `q` is blank, and otherwise neither starts nor ends with white space |
| Text.ContainsIffOccursAt | src/features/dataHealth/screens/Issues.tsx:65 | `hay.includes(q)` holds exactly when `q` occurs at some position of `hay` |
| Text.ContainsLowerInfix | src/features/dataHealth/screens/Issues.tsx:63-64 | a part of a string, lower-cased, occurs in the lower-cased whole |
| Text.ContainsFits | src/features/dataHealth/screens/Diffs.tsx:28 | a string can only contain a needle that is no longer than itself |
| DataHealth.OpenIssues | src/features/dataHealth/DataHealthPage.tsx:54 | exactly the OPEN issues, as many as there are, in list order |
| DataHealth.OfSeverity | src/features/dataHealth/DataHealthPage.tsx:57-59 | exactly the issues of one severity, as many as there are, in list order |
| DataHealth.Counts | src/features/dataHealth/DataHealthPage.tsx:53-61 | `open` equals `blockers + majors + minors` and never exceeds the number of issues |
| DataHealth.SeverityPartition | src/features/dataHealth/DataHealthPage.tsx:57-59 | the three severity filters split any list: their lengths add up to its length |
| DataHealth.SeverityCountIsOpenCount | src/features/dataHealth/DataHealthPage.tsx:54-59 | each severity count is the number of issues that are both OPEN and of that severity |
| DataHealth.CountsAreOpenCounts | src/features/dataHealth/DataHealthPage.tsx:53-61 | every field of `counts` counts only OPEN issues, and `open` is the sum over the three severities |
| DataHealth.CountOpenPositive | src/features/dataHealth/DataHealthPage.tsx:64-66 | a severity's count is positive exactly when some OPEN issue has that severity |
| DataHealth.Readiness | src/features/dataHealth/DataHealthPage.tsx:63-77 | FAIL iff some OPEN BLOCKER exists; WARN iff there is none but some OPEN MAJOR exists; PASS iff there is neither |
| DataHealth.HasOpenIgnores | src/features/dataHealth/DataHealthPage.tsx:54 | an issue that is not an OPEN issue of a severity does not decide whether that severity has an OPEN issue |
| DataHealth.ReadinessIgnores | src/features/dataHealth/DataHealthPage.tsx:63-77 | inserting a MINOR or non-OPEN issue anywhere never changes readiness |
| DataHealth.FewerOpenNeverWorsens | src/features/dataHealth/DataHealthPage.tsx:63-77 | when every severity with an OPEN issue after a change already had one before, readiness is no worse |
| DataHealth.SetStatus | src/features/dataHealth/DataHealthPage.tsx:105-106 | `updateIssueStatus` keeps the length of the issue list |
| DataHealth.SetStatusIsLocal | src/features/dataHealth/DataHealthPage.tsx:105-106 | exactly the issues with the id take the new status; every other field of every issue, and the order, are kept |
| DataHealth.SetStatusIdempotent | src/features/dataHealth/DataHealthPage.tsx:105-106 | applying the same `(id, status)` twice equals applying it once |
| DataHealth.SetStatusUnknownId | src/features/dataHealth/DataHealthPage.tsx:105-106 | an id that no issue carries leaves the list unchanged |
| DataHealth.SetStatusLastWins | src/features/dataHealth/DataHealthPage.tsx:105-106 | no transition is forbidden: two updates of one id equal the last one alone |
| DataHealth.CloseNeverWorsens | src/features/dataHealth/DataHealthPage.tsx:205-213 | acknowledging, suppressing or resolving an issue never makes readiness worse |
| DataHealth.ClearNewFlags | src/features/dataHealth/DataHealthPage.tsx:79-80 | `refreshChecks` keeps the length of the issue list |
| DataHealth.ClearNewFlagsKeepsCounts | src/features/dataHealth/DataHealthPage.tsx:79-80 | refreshing leaves the counts (and so the readiness) unchanged |
| DataHealth.SameOpenCountsSameCounts | src/features/dataHealth/DataHealthPage.tsx:53-61 | two lists with the same number of OPEN issues of each severity have the same counts |
| DataHealth.CountOpenUnderSameStatusAndSeverity | src/features/dataHealth/DataHealthPage.tsx:53-61 | the counts depend only on the status and severity of each issue |
| DataHealth.SyncRunId | src/features/dataHealth/DataHealthPage.tsx:85 | the run id is `SYNC-18` followed by the random digit, that is `SYNC-180` to `SYNC-189` |
| DataHealth.SyncIssues | src/features/dataHealth/DataHealthPage.tsx:95-101 | the demo sync keeps the length of the issue list |
| DataHealth.SyncOpensNothing | src/features/dataHealth/DataHealthPage.tsx:95-101 | a sync opens no issue: a severity with an OPEN issue after it had one before |
| DataHealth.SyncNeverWorsens | src/features/dataHealth/DataHealthPage.tsx:95-101 | after a sync ISS-001 is no longer OPEN, and readiness is never worse than before |
| DataHealth.DataHealthStore.SelectedIssue | src/features/dataHealth/DataHealthPage.tsx:48-51 | nothing when no id is selected; with a selected id, nothing exactly when no issue carries it, and otherwise the first issue that carries it |
| DataHealth.DataHealthStore.LastSync | src/features/dataHealth/DataHealthPage.tsx:125 | the last sync is `syncRuns[0]`, present exactly when the history is non-empty |
| DataHealth.DataHealthStore.SelectIssue | src/features/dataHealth/DataHealthPage.tsx:143 | selecting an issue changes only the selected id |
| DataHealth.DataHealthStore.UpdateIssueStatus | src/features/dataHealth/DataHealthPage.tsx:105-106 | the issue list becomes its `SetStatus` image; the run history and the selection are kept |
| DataHealth.DataHealthStore.ApplyBulk | src/features/dataHealth/DataHealthPage.tsx:146-153 | every issue whose id is listed ends at the action's status (ack→ACKNOWLEDGED, suppress→SUPPRESSED, resolve→RESOLVED); unknown ids are skipped; all other issues, the history and the selection are kept |
| DataHealth.DataHealthStore.UpdateSelectedStatus | src/features/dataHealth/DataHealthPage.tsx:205-213 | the drawer buttons update the shown issue's id, and do nothing when no issue is shown |
| DataHealth.DataHealthStore.RefreshChecks | src/features/dataHealth/DataHealthPage.tsx:79-80 | every issue loses its "new since last sync" flag and nothing else changes |
| DataHealth.DataHealthStore.SyncNow | src/features/dataHealth/DataHealthPage.tsx:82-103 | a SUCCESS / MANUAL run (49 s, 312 rows) goes in front of the old history and is then the last sync; ISS-001 becomes RESOLVED with `lastSeenAt` set to the sync time and keeps its new flag; every other issue only loses its new flag; the drawer closes |
| IssuesScreen.Query | src/features/dataHealth/screens/Issues.tsx:55 | the normalised query is empty exactly when the typed query is blank, has no upper-case letter, and neither starts nor ends with white space |
| IssuesScreen.Haystack | src/features/dataHealth/screens/Issues.tsx:63-64 | the searchable text contains each of id, object type, key, rule name and message, lower-cased, and has no upper-case letter |
| IssuesScreen.Filtered | src/features/dataHealth/screens/Issues.tsx:54-67 | an issue is shown exactly when it meets every active criterion; the visible list is an order-preserving subsequence of the input whose length is the number of matching issues, so each issue appears as often as it occurs |
| IssuesScreen.FilteredIsSubsequence | src/features/dataHealth/screens/Issues.tsx:56 | the visible list is an order-preserving subsequence of the issues |
| IssuesScreen.FilteredMeetsEveryCriterion | src/features/dataHealth/screens/Issues.tsx:57-65 | every visible issue matches each chosen severity, type and status, is new when "new only" is on, and its lower-cased `id objectType key rule message` contains the normalised query |
| IssuesScreen.BlankQueryMatchesEverything | src/features/dataHealth/screens/Issues.tsx:62 | an empty or white-space-only query filters nothing |
| IssuesScreen.NoActiveFilterShowsAll | src/features/dataHealth/screens/Issues.tsx:57-62 | with every drop-down on ALL, "new only" off and a blank query, the visible list is the input |
| IssuesScreen.QueryIgnoresCaseAndPadding | src/features/dataHealth/screens/Issues.tsx:55 | the search ignores the case of the query and white space around it |
| IssuesScreen.Selection | src/features/dataHealth/screens/Issues.tsx:69-72 | `selection` is exactly the set of ids mapped to `true` |
| IssuesScreen.AllVisibleSelected | src/features/dataHealth/screens/Issues.tsx:74-75 | holds exactly when the visible list is non-empty and the selection contains every visible id |
| IssuesScreen.SomeVisibleSelected | src/features/dataHealth/screens/Issues.tsx:76 | holds exactly when the selection shares an id with the visible list |
| IssuesScreen.AllVisibleImpliesSome | src/features/dataHealth/screens/Issues.tsx:74-76 | all visible rows selected implies some selected; an empty list has neither |
| IssuesScreen.ToggleRow | src/features/dataHealth/screens/Issues.tsx:267 | the row checkbox flips that id's selection and no other |
| IssuesScreen.ToggleRowTwice | src/features/dataHealth/screens/Issues.tsx:267 | clicking a row checkbox twice restores the selection |
| IssuesScreen.ToggleAllVisible | src/features/dataHealth/screens/Issues.tsx:78-88 | every visible id becomes `false` if all were selected and `true` otherwise; other entries are kept; the selection loses or gains exactly the visible ids; on a non-empty list the result is "all selected" or "none selected" accordingly |
| IssuesScreen.SetVisibleSelection | src/features/dataHealth/screens/Issues.tsx:80-87 | setting every visible id to one value and keeping the other entries adds the visible ids to the selection or removes them |
| DiffsScreen.FindItemIsFirst | src/features/dataHealth/screens/Diffs.tsx:23-24 | what `find` returns for a type is the first item of that type |
| DiffsScreen.WorkOrderConditionIff | src/features/dataHealth/screens/Diffs.tsx:23-25 | the work-order condition holds iff the first WorkOrder item has a non-empty `added` or `removed` list |
| DiffsScreen.MentionsAvailability | src/features/dataHealth/screens/Diffs.tsx:28 | a field name mentions availability exactly when its lower-cased form has "availability" at some position; such a name has at least 12 characters |
| DiffsScreen.MachineConditionIff | src/features/dataHealth/screens/Diffs.tsx:24-30 | the machine condition holds iff the first Machine item has a change to a field whose lower-cased name contains "availability" |
| DiffsScreen.Replan | src/features/dataHealth/screens/Diffs.tsx:22-39 | re-plan iff the first WorkOrder item changed membership or the first Machine item changed an availability field; each reason appears iff its condition holds, work orders first; no reasons iff no re-plan; at most two reasons |
| DiffsScreen.EmptyDiffKeepsPlan | src/features/dataHealth/screens/Diffs.tsx:22-39 | an empty diff list recommends nothing, with no reasons |
| DiffsScreen.WorkOrderModificationsIgnored | src/features/dataHealth/screens/Diffs.tsx:25 | replacing a WorkOrder item's field modifications (a `due_date` change, say) never changes the recommendation |
| DiffsScreen.SameFirstItem | src/features/dataHealth/screens/Diffs.tsx:23-24 | two lists with the same types at each position either both lack a type or have their first item of it at the same position, which is what `find` returns |
| DiffsScreen.OtherItemsIgnored | src/features/dataHealth/screens/Diffs.tsx:23-24 | Product, Route and Operation items never affect the recommendation, wherever they sit |
| DiffsScreen.LaterItemsIgnored | src/features/dataHealth/screens/Diffs.tsx:23-24 | once a WorkOrder and a Machine item are present, items appended later change nothing |
| DiffsScreen.AvailabilityIgnoresCase | src/features/dataHealth/screens/Diffs.tsx:26-30 | field names that differ only in letter case agree on mentioning availability |
| DiffsScreen.PlanRuns | src/features/dataHealth/screens/Diffs.tsx:17 | `planRuns` is exactly the PLAN_RUN snapshots, as many as there are, in their original order, and empty when there is none |
| DiffsScreen.DefaultSelectedPlan | src/features/dataHealth/screens/Diffs.tsx:18-20 | the picker starts on "" when there is no PLAN_RUN snapshot, and otherwise on the id of the first PLAN_RUN snapshot |
| ConfigScreen.MapField | src/features/dataHealth/screens/Config.tsx:121-132 | only the fields with the id inside the named entities change; other entities and fields stay as they were, in place |
| ConfigScreen.UpdateField | src/features/dataHealth/screens/Config.tsx:116-133 | only the addressed field changes, and it becomes `{ ...f, ...patch }`; no field changes its id or its referenced entity |
| ConfigScreen.DataTypePatch | src/features/dataHealth/screens/Config.tsx:365-372 | applied to the field it was built from, the selector's patch sets the data type, keeps the categories when switching to categorical, empties them otherwise, and changes nothing else |
| ConfigScreen.AddField | src/features/dataHealth/screens/Config.tsx:135-148 | adding a field keeps the number of entities |
| ConfigScreen.AddFieldSpec | src/features/dataHealth/screens/Config.tsx:135-148 | exactly one field is prepended to the named entity only: id `<Entity>-<suffix>`, empty names, non-categorical, no categories |
| ConfigScreen.AddToCategories | src/features/dataHealth/screens/Config.tsx:163-165 | no duplicates; holds exactly the old categories and the trimmed value; lists them in the order of their first occurrence in the old list followed by the trimmed value |
| ConfigScreen.AddCategory | src/features/dataHealth/screens/Config.tsx:150-171 | a blank value leaves all entities unchanged; any other value changes only the addressed field of the addressed entity, by the list update above |
| ConfigScreen.AddToCategoriesSpec | src/features/dataHealth/screens/Config.tsx:163-165 | the new list is the de-duplicated old list with the trimmed value appended when it is new; a duplicate-free list is kept as it was, with the trimmed value appended when it is new |
| ConfigScreen.RemoveFromCategories | src/features/dataHealth/screens/Config.tsx:187 | every entry equal to the exact value is dropped, so the list shrinks by that value's occurrences; every other entry is kept, in order |
| ConfigScreen.RemoveCategory | src/features/dataHealth/screens/Config.tsx:173-192 | removing a category changes only the addressed field of the addressed entity, by the list update above |
| ConfigScreen.RemoveAbsentCategory | src/features/dataHealth/screens/Config.tsx:187 | removal is exact: a value not literally present removes nothing, even one that trims to a present value |
| ConfigScreen.ToggleRule | src/features/dataHealth/screens/Config.tsx:194-197 | toggling keeps the number of rules |
| ConfigScreen.ToggleRuleSpec | src/features/dataHealth/screens/Config.tsx:194-197 | only `enabled` flips, and only on rules with the id; toggling twice restores the list |
| ConfigScreen.FindRule | src/features/dataHealth/screens/Config.tsx:200 | `logicalRules.find`: nothing exactly when no rule has the id, otherwise the first rule with the id |
| ConfigScreen.EditRule | src/features/dataHealth/screens/Config.tsx:199-207 | editing keeps the number of rules |
| ConfigScreen.EditRuleSpec | src/features/dataHealth/screens/Config.tsx:199-207 | an unknown id is a no-op; otherwise only name and description change, only on rules with the id; each becomes the prompt's answer, or, when that prompt is cancelled, the text of the rule `find` returned |
| ConfigScreen.EditRuleUsesFirstMatch | src/features/dataHealth/screens/Config.tsx:200-205 | a cancelled prompt keeps the text of the first rule with the id, and that text goes to every rule with the id |
| ConfigScreen.NewRuleId | src/features/dataHealth/screens/Config.tsx:214 | the rule id is `LR-` followed by three decimal digits, the first non-zero, that spell 100 + the draw (100 to 999) |
| ConfigScreen.CreateRule | src/features/dataHealth/screens/Config.tsx:209-224 | a cancelled or empty name is a no-op; otherwise one rule (enabled, MAJOR, count 0, "Event/State Mismatch", fixed description) is prepended to the old list |
| ConfigScreen.ConfigEditor.UpdateFieldOf | src/features/dataHealth/screens/Config.tsx:116-133 | the entities become their `UpdateField` image; the rules are kept |
| ConfigScreen.ConfigEditor.ChangeDataType | src/features/dataHealth/screens/Config.tsx:365-372 | the selector patches the field as `DataTypePatch` states; the rules are kept |
| ConfigScreen.ConfigEditor.AddFieldTo | src/features/dataHealth/screens/Config.tsx:135-148 | the entities become their `AddField` image; the rules are kept |
| ConfigScreen.ConfigEditor.AddCategoryTo | src/features/dataHealth/screens/Config.tsx:150-171 | the entities become their `AddCategory` image, which is unchanged for a blank value; the rules are kept |
| ConfigScreen.ConfigEditor.RemoveCategoryFrom | src/features/dataHealth/screens/Config.tsx:173-192 | the entities become their `RemoveCategory` image; the rules are kept |
| ConfigScreen.ConfigEditor.ToggleRuleEnabled | src/features/dataHealth/screens/Config.tsx:194-197 | the rules become their `ToggleRule` image; the entities are kept |
| ConfigScreen.ConfigEditor.EditRuleOf | src/features/dataHealth/screens/Config.tsx:199-207 | the rules become their `EditRule` image; the entities are kept |
| ConfigScreen.ConfigEditor.CreateRuleNamed | src/features/dataHealth/screens/Config.tsx:209-224 | the rules become their `CreateRule` image; the entities are kept |
| MockVectors.MockIssuesFail | src/data/dataHealth.mock.ts:10-103 | the demo issues count 3 OPEN (1 blocker, 2 majors, 0 minors) and give FAIL |
| MockVectors.CountsOfDemoShape | src/data/dataHealth.mock.ts:10-103 | any five issues with the demo's statuses and severities give the same counts and FAIL |
| MockVectors.MockIssuesAfterSyncWarn | src/features/dataHealth/DataHealthPage.tsx:95-101 | after the demo sync resolves ISS-001, the demo issues give WARN |
| MockVectors.MockDiffReplans | src/data/dataHealth.mock.ts:227-252 | the demo diff recommends re-planning for both reasons, work orders first |
| MockVectors.ReplanOfPair | src/features/dataHealth/screens/Diffs.tsx:22-39 | a diff of one WorkOrder item and one Machine item is judged on exactly those two items |
| MockVectors.AddedWorkOrderOnly | src/features/dataHealth/screens/Diffs.tsx:25-37 | an added work order with a non-availability machine change gives only the work-order reason |
| MockVectors.MachineAvailabilityOnly | src/features/dataHealth/screens/Diffs.tsx:26-37 | an availability change alone gives only the machine reason |
| MockVectors.DueDateOnlyKeepsPlan | src/features/dataHealth/screens/Diffs.tsx:25 | a work-order `due_date` modification alone recommends nothing |
| MockVectors.MockDefaultPlan | src/data/dataHealth.mock.ts:206-225 | the picker starts on the newest demo plan run, `SNAP-PLAN-20260127-0905` |
| MockVectors.SeverityFilterExample | src/features/dataHealth/screens/Issues.tsx:57-58 | filtering BLOCKER, MAJOR, MINOR, MAJOR by MAJOR returns the two MAJOR issues in order |
| MockVectors.OnlySeverityFilter | src/features/dataHealth/screens/Issues.tsx:57-62 | with only a severity chosen, an issue is shown exactly when it has that severity |

## Left out

- Rendering is not modelled: the JSX, animation, the common components, the Header, Overview, Sync, Sidebar, IssueDrawer and ChatbotDrawer views, and the tone and label helpers in `src/utils`.
- App navigation and the chat drawer's resize handling are UI state only and are not modelled.
- `Math.random` is not modelled. Each draw is an input: the digit of a sync run id, the three-digit rule number, and the base-36 suffix of a new field id. Nothing is claimed about id uniqueness, because the code does not ensure it. A sync run may reuse an id already in the history, such as the demo `SYNC-180`.
- `prompt` and `alert` are browser I/O. Their answers are `Option<string>` inputs, and the "Test run" alert is left out.
- `DataContract` and `DEFAULT_CONTRACT` are left out, because no code evaluates them.
- The `evidence` bag of an issue is display-only data and is omitted.
- DiffItem `before` / `after` values are modelled as strings. Nothing reads them.
- `isNewSinceLastSync` is a plain boolean. The optional field's "absent" is modelled as `false`, which is how every reader treats it.
- Lower-casing and trimming are modelled on ASCII only. Full Unicode `toLowerCase` and the Unicode white-space set of `trim` are not modelled.
- IssuesScreen.Selected, IssuesScreen.Selection, IssuesScreen.AllVisibleSelected, IssuesScreen.SomeVisibleSelected, IssuesScreen.ToggleRow and IssuesScreen.ToggleAllVisible model the `Record<string, boolean>` of selected ids as a `map<string, bool>` in which a missing id is unselected. Lookups that JavaScript resolves through `Object.prototype` are not modelled. For an issue id equal to a prototype member name (`constructor`, `toString`, `hasOwnProperty`, `__proto__`, …), the original reads an inherited truthy value, so the row shows as selected even in an empty record. Assigning `next["__proto__"]` there also creates no own key. In the model such an id is unselected until it is set, and setting it adds a key like any other id.
- IssuesScreen.Selection is a set. The order of `Object.keys`, which decides the order of the ids passed to a bulk action, is not kept. DataHealth.DataHealthStore.ApplyBulk proves that the result does not depend on that order.
- DataHealth.DataHealthStore.SyncNow uses the fixed time stamp, duration and row count of the code ("2026-01-27 13:00", 49, 312). DataHealth.SyncIssues takes the time as an input.
- The rule list is modelled by the class ConfigScreen.ConfigEditor next to the entities. In the original that list is state of `DataHealthPage.tsx` that `Config.tsx` updates through a setter.
- The `active` entity lookup and the entity tab switch are left out. They choose what is shown, and `updateField` and its siblings take the entity explicitly.
- ConfigScreen.FieldPatch can patch the name, ERP name, data type and categories of a field. It cannot patch `id` or `referencedEntity`, because no caller patches them.
- No status transition is forbidden, and nothing ties a SyncRun's `error` to a FAILED status. The code enforces neither, so the model asserts neither.
- Whitespace-only rule names are accepted by `createRule`, because the code only rejects the empty string.
- Text.Trim: its contract states the ends, the length bound and blankness; that the result is the input with only the white space at both ends removed is stated by Text.TrimStart and Text.TrimEnd, which it composes.
- IssuesScreen.Matches, DiffsScreen.WorkOrderChange and DiffsScreen.MachineChange carry no contract of their own; what they mean is stated by IssuesScreen.Filtered and IssuesScreen.FilteredMeetsEveryCriterion, and by DiffsScreen.WorkOrderConditionIff, DiffsScreen.MachineConditionIff and DiffsScreen.Replan.
