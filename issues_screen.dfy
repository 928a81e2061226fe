/**
 * The issue list screen (src/features/dataHealth/screens/Issues.tsx): the
 * conjunctive filter with free-text search, and the row-selection record with
 * "select / unselect all visible".
 */
module IssuesScreen {
  import opened Seqs
  import opened Text
  import opened Types

  /** The filter bar. `None` stands for the "ALL" choice of a drop-down. */
  datatype IssuesFilterState = IssuesFilterState(
    q: string,
    severity: Option<Severity>,
    issueType: Option<IssueType>,
    status: Option<IssueStatus>,
    newOnly: bool)

  const NoFilters: IssuesFilterState := IssuesFilterState("", None, None, None, false)

  /**
   * The normalised query: trimmed, then lower-cased. It is empty exactly when
   * the typed query is blank, has no upper-case letter, and neither starts nor
   * ends with white space.
   */
  function Query(f: IssuesFilterState): (r: string)
    ensures r == [] <==> IsBlank(f.q)
    ensures forall k :: 0 <= k < |r| ==> !('A' <= r[k] <= 'Z')
    ensures r == [] || (!IsSpace(r[0]) && !IsSpace(r[|r| - 1]))
  {
    LowerTrimmed(f.q);
    Lower(Trim(f.q))
  }

  /**
   * The searchable text of an issue: its id, object type, key, rule and
   * message, space separated, lower-cased; each of the five, lower-cased,
   * occurs in it.
   */
  function Haystack(i: Issue): (r: string)
    ensures Contains(r, Lower(i.id))
    ensures Contains(r, Lower(ObjectTypeName(i.objectType)))
    ensures Contains(r, Lower(i.objectKey))
    ensures Contains(r, Lower(i.ruleName))
    ensures Contains(r, Lower(i.message))
    ensures forall k :: 0 <= k < |r| ==> !('A' <= r[k] <= 'Z')
  {
    var h := i.id + " " + ObjectTypeName(i.objectType) + " " + i.objectKey + " " + i.ruleName + " " + i.message;
    FiveFieldsOccur(i.id, ObjectTypeName(i.objectType), i.objectKey, i.ruleName, i.message);
    Lower(h)
  }

  /** Each of five space-separated fields, lower-cased, occurs in the lower-cased whole. */
  lemma FiveFieldsOccur(a: string, b: string, c: string, d: string, e: string)
    ensures var h := Lower(a + " " + b + " " + c + " " + d + " " + e);
      Contains(h, Lower(a)) && Contains(h, Lower(b)) && Contains(h, Lower(c)) && Contains(h, Lower(d)) && Contains(h, Lower(e))
  {
    var h := a + " " + b + " " + c + " " + d + " " + e;
    assert h == [] + a + (" " + b + " " + c + " " + d + " " + e);
    ContainsLowerInfix([], a, " " + b + " " + c + " " + d + " " + e);
    assert h == (a + " ") + b + (" " + c + " " + d + " " + e);
    ContainsLowerInfix(a + " ", b, " " + c + " " + d + " " + e);
    assert h == (a + " " + b + " ") + c + (" " + d + " " + e);
    ContainsLowerInfix(a + " " + b + " ", c, " " + d + " " + e);
    assert h == (a + " " + b + " " + c + " ") + d + (" " + e);
    ContainsLowerInfix(a + " " + b + " " + c + " ", d, " " + e);
    assert h == (a + " " + b + " " + c + " " + d + " ") + e + [];
    ContainsLowerInfix(a + " " + b + " " + c + " " + d + " ", e, []);
  }

  predicate MatchesQuery(i: Issue, f: IssuesFilterState) {
    var q := Query(f);
    q == [] || Contains(Haystack(i), q)
  }

  /** The predicate passed to `issues.filter`: every active criterion must hold. */
  predicate Matches(i: Issue, f: IssuesFilterState) {
    && (f.severity.None? || i.severity == f.severity.value)
    && (f.issueType.None? || i.issueType == f.issueType.value)
    && (f.status.None? || i.status == f.status.value)
    && (!f.newOnly || i.isNewSinceLastSync)
    && MatchesQuery(i, f)
  }

  /** `filtered`: the matching issues, each as often as it occurs, in list order. */
  function Filtered(issues: seq<Issue>, f: IssuesFilterState): (r: seq<Issue>)
    ensures |r| == CountIf(issues, i => Matches(i, f))
    ensures forall k :: 0 <= k < |r| ==> r[k] in issues && Matches(r[k], f)
    ensures forall k :: 0 <= k < |issues| && Matches(issues[k], f) ==> issues[k] in r
    ensures SubsequenceOf(r, issues)
  {
    FilterIsSubsequence(issues, i => Matches(i, f));
    Filter(issues, i => Matches(i, f))
  }

  /** The visible list is the input with some issues deleted and the order kept. */
  lemma FilteredIsSubsequence(issues: seq<Issue>, f: IssuesFilterState)
    ensures SubsequenceOf(Filtered(issues, f), issues)
  {
    FilterIsSubsequence(issues, i => Matches(i, f));
  }

  /** Every visible issue meets every active criterion, all of them together. */
  lemma FilteredMeetsEveryCriterion(issues: seq<Issue>, f: IssuesFilterState)
    ensures forall k :: 0 <= k < |Filtered(issues, f)| ==>
      var i := Filtered(issues, f)[k];
      && (f.severity.Some? ==> i.severity == f.severity.value)
      && (f.issueType.Some? ==> i.issueType == f.issueType.value)
      && (f.status.Some? ==> i.status == f.status.value)
      && (f.newOnly ==> i.isNewSinceLastSync)
      && (Query(f) != [] ==> Contains(Haystack(i), Query(f)))
  {
  }

  /** A white-space-only query filters nothing. */
  lemma BlankQueryMatchesEverything(i: Issue, f: IssuesFilterState)
    requires IsBlank(f.q)
    ensures MatchesQuery(i, f)
  {
  }

  /** With every drop-down on "ALL", "new only" off and a blank query, the list is shown unfiltered. */
  lemma NoActiveFilterShowsAll(issues: seq<Issue>, f: IssuesFilterState)
    requires f.severity.None? && f.issueType.None? && f.status.None? && !f.newOnly
    requires IsBlank(f.q)
    ensures Filtered(issues, f) == issues
  {
    forall k | 0 <= k < |issues| ensures Matches(issues[k], f) {
      BlankQueryMatchesEverything(issues[k], f);
    }
    FilterKeepsAll(issues, i => Matches(i, f));
  }

  /** Search ignores the case of the query and its surrounding white space. */
  lemma QueryIgnoresCaseAndPadding(i: Issue, f: IssuesFilterState, pad: string)
    requires IsBlank(pad)
    ensures MatchesQuery(i, f.(q := Lower(f.q))) == MatchesQuery(i, f)
    ensures MatchesQuery(i, f.(q := pad + f.q + pad)) == MatchesQuery(i, f)
  {
    TrimLower(f.q);
    LowerIdempotent(Trim(f.q));
    assert Query(f.(q := Lower(f.q))) == Query(f);
    TrimPadded(f.q, pad);
    assert Query(f.(q := pad + f.q + pad)) == Query(f);
  }

  /** The selection record: an id is selected when it maps to `true`; a missing id is not. */
  predicate Selected(m: map<string, bool>, id: string) {
    id in m && m[id]
  }

  /** `selection`: the ids that map to `true`. */
  function Selection(m: map<string, bool>): (r: set<string>)
    ensures forall id :: id in r <==> Selected(m, id)
  {
    set id | id in m && m[id]
  }

  /** `allVisibleSelected`: the list is not empty and the selection covers every visible id. */
  predicate AllVisibleSelected(visible: seq<Issue>, m: map<string, bool>)
    ensures AllVisibleSelected(visible, m) <==> visible != [] && VisibleIds(visible) <= Selection(m)
  {
    |visible| > 0 && forall k :: 0 <= k < |visible| ==> Selected(m, visible[k].id)
  }

  /** `someVisibleSelected`: the selection shares an id with the visible list. */
  predicate SomeVisibleSelected(visible: seq<Issue>, m: map<string, bool>)
    ensures SomeVisibleSelected(visible, m) <==> VisibleIds(visible) * Selection(m) != {}
  {
    var r := exists k :: 0 <= k < |visible| && Selected(m, visible[k].id);
    assert r ==> VisibleIds(visible) * Selection(m) != {} by {
      if r {
        var k :| 0 <= k < |visible| && Selected(m, visible[k].id);
        assert visible[k].id in VisibleIds(visible) * Selection(m);
      }
    }
    r
  }

  /** A fully selected visible list has a selected row; an empty one has neither. */
  lemma AllVisibleImpliesSome(visible: seq<Issue>, m: map<string, bool>)
    ensures AllVisibleSelected(visible, m) ==> SomeVisibleSelected(visible, m)
    ensures visible == [] ==> !AllVisibleSelected(visible, m) && !SomeVisibleSelected(visible, m)
  {
    if AllVisibleSelected(visible, m) {
      assert Selected(m, visible[0].id);
    }
  }

  function VisibleIds(visible: seq<Issue>): set<string> {
    set k | 0 <= k < |visible| :: visible[k].id
  }

  /** The per-row checkbox: flips one id. */
  function ToggleRow(m: map<string, bool>, id: string): (r: map<string, bool>)
    ensures Selected(r, id) == !Selected(m, id)
    ensures forall other :: other != id ==> Selected(r, other) == Selected(m, other)
  {
    m[id := !Selected(m, id)]
  }

  /** Clicking a row's checkbox twice restores its selection state. */
  lemma ToggleRowTwice(m: map<string, bool>, id: string)
    ensures Selection(ToggleRow(ToggleRow(m, id), id)) == Selection(m)
  {
  }

  /**
   * `toggleAllVisible`: copies the record and sets every visible id to
   * `false` when all were selected, otherwise to `true`; entries for ids that
   * are not visible keep their values.
   */
  method ToggleAllVisible(visible: seq<Issue>, selectedIds: map<string, bool>) returns (next: map<string, bool>)
    ensures next.Keys == selectedIds.Keys + VisibleIds(visible)
    ensures forall k :: 0 <= k < |visible| ==> next[visible[k].id] == !AllVisibleSelected(visible, selectedIds)
    ensures forall id :: id in selectedIds && id !in VisibleIds(visible) ==> next[id] == selectedIds[id]
    ensures Selection(next) ==
      if AllVisibleSelected(visible, selectedIds) then Selection(selectedIds) - VisibleIds(visible)
      else Selection(selectedIds) + VisibleIds(visible)
    ensures |visible| > 0 && !AllVisibleSelected(visible, selectedIds) ==> AllVisibleSelected(visible, next)
    ensures AllVisibleSelected(visible, selectedIds) ==> !SomeVisibleSelected(visible, next)
  {
    var value := !AllVisibleSelected(visible, selectedIds);
    next := selectedIds;
    for j := 0 to |visible|
      invariant next.Keys == selectedIds.Keys + VisibleIds(visible[..j])
      invariant forall k :: 0 <= k < j ==> next[visible[k].id] == value
      invariant forall id :: id in selectedIds && id !in VisibleIds(visible[..j]) ==> next[id] == selectedIds[id]
    {
      VisibleIdsGrow(visible, j);
      next := next[visible[j].id := value];
    }
    assert visible[..|visible|] == visible;
    SetVisibleSelection(visible, selectedIds, next, value);
  }

  lemma VisibleIdsGrow(visible: seq<Issue>, j: nat)
    requires j < |visible|
    ensures VisibleIds(visible[..j + 1]) == VisibleIds(visible[..j]) + {visible[j].id}
  {
    assert forall k :: 0 <= k < j ==> visible[..j + 1][k] == visible[..j][k];
    assert visible[..j + 1][j] == visible[j];
  }

  /** Setting every visible id to `value` and keeping the other entries moves the selection accordingly. */
  lemma SetVisibleSelection(visible: seq<Issue>, m: map<string, bool>, next: map<string, bool>, value: bool)
    requires next.Keys == m.Keys + VisibleIds(visible)
    requires forall k :: 0 <= k < |visible| ==> next[visible[k].id] == value
    requires forall id :: id in m && id !in VisibleIds(visible) ==> next[id] == m[id]
    ensures Selection(next) == if value then Selection(m) + VisibleIds(visible) else Selection(m) - VisibleIds(visible)
    ensures value ==> forall k :: 0 <= k < |visible| ==> Selected(next, visible[k].id)
    ensures !value ==> forall k :: 0 <= k < |visible| ==> !Selected(next, visible[k].id)
  {
    forall id | id in VisibleIds(visible) ensures next[id] == value {
      var k :| 0 <= k < |visible| && visible[k].id == id;
    }
  }
}
