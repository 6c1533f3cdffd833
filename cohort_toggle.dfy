/**
 * The cohort panel: one checkbox per cohort, the "k of 5 selected" count
 * and the Select All / Deselect All button, whose click issues one
 * `onCohortChange` call per cohort.
 */
module CohortToggle {
  import opened Text
  import Api
  import Page
  import Grid

  /** The checkbox of `id` is ticked iff the selection contains it. */
  predicate IsChecked(selected: seq<string>, id: string)
  {
    id in selected
  }

  /**
   * After a change to `cohort` its box shows the new state, and every
   * other box keeps its state.
   */
  lemma CheckedAfterChange(prev: seq<string>, cohort: string, checked: bool, other: string)
    requires other != cohort
    ensures IsChecked(Page.CohortChange(prev, cohort, checked), cohort) == checked
    ensures IsChecked(Page.CohortChange(prev, cohort, checked), other) == IsChecked(prev, other)
  {
  }

  /** `{selectedCohorts.length} of {COHORTS.length} selected`. */
  function CountText(selected: seq<string>): string
  {
    NatToString(|selected|) + " of " + NatToString(|Api.Cohorts|) + " selected"
  }

  /**
   * The count shows the length of the list, repeats included: two
   * selections read alike iff they have the same length.
   */
  lemma CountTextLength(s: seq<string>, t: seq<string>)
    ensures CountText(s) == CountText(t) <==> |s| == |t|
  {
    var m, n := NatToString(|s|), NatToString(|t|);
    var tail := " of " + NatToString(|Api.Cohorts|) + " selected";
    assert CountText(s) == m + tail && CountText(t) == n + tail;
    if CountText(s) == CountText(t) {
      CancelSuffix(m, n, tail);
      NatToStringInjective(|s|, |t|);
    }
  }

  /** Two texts followed by the same tail are equal if the whole texts are. */
  lemma CancelSuffix(m: string, n: string, tail: string)
    requires m + tail == n + tail
    ensures m == n
  {
    assert |m| == |n|;
    assert m == (m + tail)[..|m|];
    assert n == (n + tail)[..|n|];
  }

  /** A repeated id is counted twice. */
  lemma CountsRepeats()
    ensures CountText(["whales", "whales"]) == "2 of 5 selected"
  {
    Api.CohortTable();
    assert NatToString(2) == "2" && NatToString(5) == "5";
  }

  /** The button's caption. */
  function ButtonLabel(selected: seq<string>): string
  {
    if |selected| == |Api.Cohorts| then "Deselect All" else "Select All"
  }

  /**
   * The caption names what a click does: "Deselect All" exactly when the
   * click unchecks every cohort, i.e. when the list has five entries.
   */
  lemma ButtonLabelMatchesClick(selected: seq<string>)
    ensures ButtonLabel(selected) == "Deselect All" <==> |selected| == 5
    ensures ButtonLabel(selected) == "Select All" <==> |selected| != 5
    ensures ButtonLabel(selected) == "Deselect All" <==>
      forall k :: 0 <= k < |ToggleAllCalls(selected)| ==> !ToggleAllCalls(selected)[k].1
  {
    Api.CohortTable();
    var calls := ToggleAllCalls(selected);
    assert |calls| == 5 && calls[0].1 == (|selected| != 5);
  }

  /**
   * On the first render every box is ticked, the count reads "5 of 5
   * selected" and the button offers to deselect all.
   */
  lemma InitialPanel()
    ensures forall k :: 0 <= k < |Api.Cohorts| ==> IsChecked(Api.CohortIds(), Api.Cohorts[k].id)
    ensures CountText(Api.CohortIds()) == "5 of 5 selected"
    ensures ButtonLabel(Api.CohortIds()) == "Deselect All"
  {
    Api.CohortTable();
    assert NatToString(5) == "5";
    forall k | 0 <= k < |Api.Cohorts|
      ensures IsChecked(Api.CohortIds(), Api.Cohorts[k].id)
    {
      assert Api.CohortIds()[k] == Api.Cohorts[k].id;
    }
  }

  /** The calls one click issues: every cohort in table order, with one flag for all. */
  function ToggleAllCalls(selected: seq<string>): (calls: seq<(string, bool)>)
    ensures |calls| == |Api.Cohorts|
    ensures forall k :: 0 <= k < |calls| ==>
      calls[k] == (Api.CohortIds()[k], |selected| != |Api.Cohorts|)
  {
    var checked := |selected| != |Api.Cohorts|;
    seq(|Api.Cohorts|, k requires 0 <= k < |Api.Cohorts| => (Api.CohortIds()[k], checked))
  }

  /** The selection after the page's handler has run for each call in turn. */
  function ApplyCalls(selected: seq<string>, calls: seq<(string, bool)>): seq<string>
    decreases |calls|
  {
    if |calls| == 0 then selected
    else ApplyCalls(Page.CohortChange(selected, calls[0].0, calls[0].1), calls[1..])
  }

  /** The button's click handler, wired to the page's `handleCohortChange`. */
  method ToggleAll(page: Page.HomePage)
    modifies page
    ensures page.selectedCohorts
         == ApplyCalls(old(page.selectedCohorts), ToggleAllCalls(old(page.selectedCohorts)))
    ensures page.startDate == old(page.startDate) && page.endDate == old(page.endDate)
    ensures page.heatmapData == old(page.heatmapData)
    ensures page.isLoading == old(page.isLoading) && page.hasError == old(page.hasError)
  {
    ghost var calls := ToggleAllCalls(page.selectedCohorts);
    ghost var start := page.selectedCohorts;
    var ids := Api.CohortIds();
    var checked := |page.selectedCohorts| != |Api.Cohorts|;
    for k := 0 to |ids|
      invariant ApplyCalls(start, calls) == ApplyCalls(page.selectedCohorts, calls[k..])
      invariant page.startDate == old(page.startDate) && page.endDate == old(page.endDate)
      invariant page.heatmapData == old(page.heatmapData)
      invariant page.isLoading == old(page.isLoading) && page.hasError == old(page.hasError)
    {
      assert calls[k..][0] == (ids[k], checked) && calls[k..][1..] == calls[k + 1..];
      page.HandleCohortChange(ids[k], checked);
    }
  }

  /** A click unchecks every cohort at length 5 and checks every cohort otherwise. */
  lemma ToggleAllCallsByLength(selected: seq<string>)
    ensures |selected| == |Api.Cohorts| ==> ToggleAllCalls(selected) == Deselections(Api.CohortIds())
    ensures |selected| != |Api.Cohorts| ==> ToggleAllCalls(selected) == Selections(Api.CohortIds())
  {
    var calls, ids := ToggleAllCalls(selected), Api.CohortIds();
    if |selected| == |Api.Cohorts| {
      assert forall k :: 0 <= k < |calls| ==> calls[k] == Deselections(ids)[k];
    } else {
      assert forall k :: 0 <= k < |calls| ==> calls[k] == Selections(ids)[k];
    }
  }

  /** Applying the calls for a list of ids one after another, all with `false`. */
  function Deselections(ids: seq<string>): (calls: seq<(string, bool)>)
    ensures |calls| == |ids|
    ensures forall k :: 0 <= k < |ids| ==> calls[k] == (ids[k], false)
  {
    seq(|ids|, k requires 0 <= k < |ids| => (ids[k], false))
  }

  /** Unchecking a list of ids removes exactly those ids. */
  lemma {:induction false} ApplyDeselections(selected: seq<string>, ids: seq<string>)
    ensures forall c :: c in ApplyCalls(selected, Deselections(ids)) <==> c in selected && c !in ids
    decreases |ids|
  {
    if |ids| > 0 {
      var next := Page.CohortChange(selected, ids[0], false);
      assert Deselections(ids)[1..] == Deselections(ids[1..]);
      ApplyDeselections(next, ids[1..]);
      assert forall c :: c in ids <==> c == ids[0] || c in ids[1..];
    }
  }

  /** Appending a list of ids one after another, all with `true`. */
  function Selections(ids: seq<string>): (calls: seq<(string, bool)>)
    ensures |calls| == |ids|
    ensures forall k :: 0 <= k < |ids| ==> calls[k] == (ids[k], true)
  {
    seq(|ids|, k requires 0 <= k < |ids| => (ids[k], true))
  }

  /** Checking a list of ids appends them all, in order. */
  lemma {:induction false} ApplySelections(selected: seq<string>, ids: seq<string>)
    ensures ApplyCalls(selected, Selections(ids)) == selected + ids
    decreases |ids|
  {
    if |ids| == 0 {
      assert selected + ids == selected;
    } else {
      assert Selections(ids)[1..] == Selections(ids[1..]);
      ApplySelections(selected + [ids[0]], ids[1..]);
      assert selected + [ids[0]] + ids[1..] == selected + ids;
    }
  }

  /**
   * With all five slots used, a click unchecks every cohort: no cohort id
   * is left, and a selection made only of cohort ids becomes empty.
   */
  lemma DeselectAll(selected: seq<string>)
    requires |selected| == |Api.Cohorts|
    ensures forall c :: c in ApplyCalls(selected, ToggleAllCalls(selected)) <==>
      c in selected && c !in Api.CohortIds()
    ensures (forall c :: c in selected ==> c in Api.CohortIds()) ==>
      ApplyCalls(selected, ToggleAllCalls(selected)) == []
  {
    ToggleAllCallsByLength(selected);
    ApplyDeselections(selected, Api.CohortIds());
    var after := ApplyCalls(selected, ToggleAllCalls(selected));
    if (forall c :: c in selected ==> c in Api.CohortIds()) && after != [] {
      HasMember(after);
    }
  }

  lemma HasMember(s: seq<string>)
    requires s != []
    ensures exists c :: c in s
  {
    assert s[0] in s;
  }

  /**
   * Otherwise a click checks every cohort: all five ids are appended, so
   * the ones already selected end up listed twice.
   */
  lemma SelectAll(selected: seq<string>)
    requires |selected| != |Api.Cohorts|
    ensures ApplyCalls(selected, ToggleAllCalls(selected)) == selected + Api.CohortIds()
    ensures forall c :: c in selected && c in Api.CohortIds() ==>
      multiset(ApplyCalls(selected, ToggleAllCalls(selected)))[c] == multiset(selected)[c] + 1
  {
    var ids := Api.CohortIds();
    Api.CohortTable();
    ToggleAllCallsByLength(selected);
    ApplySelections(selected, ids);
    AppendDistinct(selected, ids);
  }

  /** Appending a list without repeats adds one occurrence of each of its elements. */
  lemma AppendDistinct(selected: seq<string>, ids: seq<string>)
    requires Grid.NoDuplicates(ids)
    ensures forall c :: c in ids ==> multiset(selected + ids)[c] == multiset(selected)[c] + 1
  {
    assert multiset(selected + ids) == multiset(selected) + multiset(ids);
    forall c | c in ids
      ensures multiset(ids)[c] == 1
    {
      var k :| 0 <= k < |ids| && ids[k] == c;
      OnceInDistinct(ids, k);
    }
  }

  /** In a list without repeats each element occurs once. */
  lemma {:induction false} OnceInDistinct(ids: seq<string>, k: nat)
    requires k < |ids| && Grid.NoDuplicates(ids)
    ensures multiset(ids)[ids[k]] == 1
  {
    var before, after := ids[..k], ids[k + 1..];
    assert ids == before + [ids[k]] + after;
    assert ids[k] !in before && ids[k] !in after by {
      forall m | 0 <= m < |before| ensures before[m] != ids[k] {
        assert before[m] == ids[m];
      }
      forall m | 0 <= m < |after| ensures after[m] != ids[k] {
        assert after[m] == ids[k + 1 + m];
      }
    }
  }

  /**
   * The caption reads "Deselect All" exactly at length 5. Select All from
   * k ids with 0 < k < 5 leaves k + 5 entries, so the caption stays
   * "Select All"; only from the empty selection does it flip.
   */
  lemma LabelAfterSelectAll(selected: seq<string>)
    requires |selected| != |Api.Cohorts|
    ensures |ApplyCalls(selected, ToggleAllCalls(selected))| == |selected| + 5
    ensures ButtonLabel(ApplyCalls(selected, ToggleAllCalls(selected))) == "Deselect All" <==> |selected| == 0
  {
    SelectAll(selected);
    Api.CohortTable();
  }
}
