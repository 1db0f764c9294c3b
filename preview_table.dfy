/**
 * The preview table: one row per page of the preview, with a checkbox on
 * matched rows that reads and reports the row's index among the matched
 * results, found by page number.
 */
module PreviewTable {
  import opened Wrappers
  import opened Types
  import Results

  /** `matchedResults.findIndex(m => m.page === page)`, searching from position `from`. */
  function FindFrom(matched: seq<PreviewResult>, page: int, from: nat): (i: int)
    requires from <= |matched|
    ensures i == -1 || from <= i < |matched|
    ensures i >= 0 ==> matched[i].page == page && forall j :: from <= j < i ==> matched[j].page != page
    ensures i == -1 <==> forall j :: from <= j < |matched| ==> matched[j].page != page
    decreases |matched| - from
  {
    if from == |matched| then -1
    else if matched[from].page == page then from
    else FindFrom(matched, page, from + 1)
  }

  /** The first matched index with this page, or -1. */
  function FindIndexByPage(matched: seq<PreviewResult>, page: int): (i: int)
    ensures -1 <= i < |matched|
    ensures i >= 0 ==> matched[i].page == page && forall j :: 0 <= j < i ==> matched[j].page != page
    ensures i == -1 <==> forall j :: 0 <= j < |matched| ==> matched[j].page != page
  {
    FindFrom(matched, page, 0)
  }

  /** A row's checkbox: the matched index it stands for and whether it is ticked. */
  datatype Checkbox = Checkbox(matchedIndex: int, checked: bool)

  /** A name or e-mail cell: the result's value, or the placeholder of an unmatched row. */
  datatype Cell = Placeholder | Shown(text: Option<string>)

  datatype Row = Row(page: int, checkbox: Option<Checkbox>, name: Cell, email: Cell, matchFound: bool)

  function RowFor(result: PreviewResult, matched: seq<PreviewResult>, selected: set<int>): Row {
    var matchedIndex := FindIndexByPage(matched, result.page);
    if result.foundMatch then
      Row(result.page, Some(Checkbox(matchedIndex, matchedIndex in selected)),
          Shown(result.employeeName), Shown(result.employeeEmail), true)
    else
      Row(result.page, None, Placeholder, Placeholder, false)
  }

  /** The table body. */
  function Rows(previews: seq<PreviewResult>, matched: seq<PreviewResult>, selected: set<int>): (rows: seq<Row>)
    ensures |rows| == |previews|
    ensures forall i :: 0 <= i < |rows| ==> rows[i] == RowFor(previews[i], matched, selected)
  {
    seq(|previews|, i requires 0 <= i < |previews| => RowFor(previews[i], matched, selected))
  }

  /**
   * Row by row: the page is the result's, a checkbox appears exactly on
   * matched rows and is ticked exactly when its matched index is selected,
   * and unmatched rows show placeholders.
   */
  lemma RowsSpec(previews: seq<PreviewResult>, matched: seq<PreviewResult>, selected: set<int>, i: nat)
    requires i < |previews|
    ensures Rows(previews, matched, selected)[i].page == previews[i].page
    ensures Rows(previews, matched, selected)[i].checkbox.Some? <==> previews[i].foundMatch
    ensures Rows(previews, matched, selected)[i].matchFound <==> previews[i].foundMatch
    ensures Rows(previews, matched, selected)[i].checkbox.Some? ==>
      var c := Rows(previews, matched, selected)[i].checkbox.value;
      c.matchedIndex == FindIndexByPage(matched, previews[i].page) && (c.checked <==> c.matchedIndex in selected)
    ensures !previews[i].foundMatch ==>
      Rows(previews, matched, selected)[i].name == Placeholder && Rows(previews, matched, selected)[i].email == Placeholder
  {
  }

  /** Toggling a checkbox reports its matched index and the new ticked state. */
  function Toggle(row: Row, checked: bool): (report: Option<(int, bool)>)
    ensures report.Some? <==> row.checkbox.Some?
    ensures report.Some? ==> report.value == (row.checkbox.value.matchedIndex, checked)
  {
    if row.checkbox.Some? then Some((row.checkbox.value.matchedIndex, checked)) else None
  }

  /**
   * With the matched results the panel computes, a matched row's index is
   * never -1 and points at a matched result on the same page.
   */
  lemma MatchedRowHasIndex(previews: seq<PreviewResult>, i: nat)
    requires i < |previews| && previews[i].foundMatch
    ensures 0 <= FindIndexByPage(Results.Matched(previews), previews[i].page) < |Results.Matched(previews)|
    ensures Results.Matched(previews)[FindIndexByPage(Results.Matched(previews), previews[i].page)].page == previews[i].page
  {
    var m := Results.Matched(previews);
    Results.MatchedMembers(previews, previews[i]);
    var k :| 0 <= k < |m| && m[k] == previews[i];
    assert m[k].page == previews[i].page;
  }

  /** When page numbers are distinct, each matched row's checkbox stands for that row's own result. */
  lemma DistinctPagesSelectOwnResult(previews: seq<PreviewResult>, i: nat)
    requires forall a, b :: 0 <= a < b < |previews| ==> previews[a].page != previews[b].page
    requires i < |previews| && previews[i].foundMatch
    ensures 0 <= FindIndexByPage(Results.Matched(previews), previews[i].page)
    ensures Results.Matched(previews)[FindIndexByPage(Results.Matched(previews), previews[i].page)] == previews[i]
  {
    MatchedRowHasIndex(previews, i);
    var m := Results.Matched(previews);
    var k := FindIndexByPage(m, previews[i].page);
    Results.MatchedIsOrderedFilter(previews);
    var p := Results.MatchedPositions(previews)[k];
    assert previews[p] == m[k];
    assert p == i;
  }

  /** The results of the ticked rows among the first `n`, in table order. */
  function TickedUpTo(previews: seq<PreviewResult>, matched: seq<PreviewResult>, selected: set<int>, n: nat): seq<PreviewResult>
    requires n <= |previews|
  {
    if n == 0 then []
    else
      var row := RowFor(previews[n - 1], matched, selected);
      TickedUpTo(previews, matched, selected, n - 1)
        + (if row.checkbox.Some? && row.checkbox.value.checked then [previews[n - 1]] else [])
  }

  /** The matched results of a prefix come first among those of a longer prefix. */
  lemma {:induction false} MatchedUpToGrows(previews: seq<PreviewResult>, n: nat, N: nat)
    requires n <= N <= |previews|
    ensures Results.MatchedUpTo(previews, n) <= Results.MatchedUpTo(previews, N)
  {
    if n < N {
      MatchedUpToGrows(previews, n, N - 1);
    }
  }

  /** With distinct pages, the `k`-th matched result is found at index `k` by its page. */
  lemma FindOwnIndex(previews: seq<PreviewResult>, k: nat)
    requires forall a, b :: 0 <= a < b < |previews| ==> previews[a].page != previews[b].page
    requires k < |Results.Matched(previews)|
    ensures FindIndexByPage(Results.Matched(previews), Results.Matched(previews)[k].page) == k
  {
    Results.MatchedIsOrderedFilter(previews);
  }

  /**
   * One more row, for a table whose matched rows find their own index: a
   * matched row adds its result exactly when its index is selected.
   */
  lemma TickedStepAt(previews: seq<PreviewResult>, m: seq<PreviewResult>, selected: set<int>, n: nat)
    requires 0 < n <= |previews|
    requires |Results.MatchedUpTo(previews, n)| <= |m|
    requires previews[n - 1].foundMatch ==>
      var j := |Results.MatchedUpTo(previews, n - 1)|;
      j < |m| && m[j] == previews[n - 1] && FindIndexByPage(m, previews[n - 1].page) == j
    ensures TickedUpTo(previews, m, selected, n - 1) == Results.SelectedUpTo(m, selected, |Results.MatchedUpTo(previews, n - 1)|)
      ==> TickedUpTo(previews, m, selected, n) == Results.SelectedUpTo(m, selected, |Results.MatchedUpTo(previews, n)|)
  {
  }

  /** With distinct pages every matched row finds its own index, so each row keeps the correspondence. */
  lemma TickedStep(previews: seq<PreviewResult>, selected: set<int>, n: nat)
    requires forall a, b :: 0 <= a < b < |previews| ==> previews[a].page != previews[b].page
    requires 0 < n <= |previews|
    ensures |Results.MatchedUpTo(previews, n)| <= |Results.Matched(previews)|
    ensures var m := Results.Matched(previews);
      TickedUpTo(previews, m, selected, n - 1) == Results.SelectedUpTo(m, selected, |Results.MatchedUpTo(previews, n - 1)|)
      ==> TickedUpTo(previews, m, selected, n) == Results.SelectedUpTo(m, selected, |Results.MatchedUpTo(previews, n)|)
  {
    var m := Results.Matched(previews);
    var j := |Results.MatchedUpTo(previews, n - 1)|;
    MatchedUpToGrows(previews, n, |previews|);
    if previews[n - 1].foundMatch {
      assert Results.MatchedUpTo(previews, n) == Results.MatchedUpTo(previews, n - 1) + [previews[n - 1]];
      assert m[j] == Results.MatchedUpTo(previews, n)[j];
      FindOwnIndex(previews, j);
    }
    TickedStepAt(previews, m, selected, n);
  }

  /**
   * With distinct pages, the rows ticked among the first `n` are exactly
   * the selected ones among the matched results those rows hold.
   */
  lemma {:induction false} TickedUpToSelected(previews: seq<PreviewResult>, selected: set<int>, n: nat)
    requires forall a, b :: 0 <= a < b < |previews| ==> previews[a].page != previews[b].page
    requires n <= |previews|
    ensures |Results.MatchedUpTo(previews, n)| <= |Results.Matched(previews)|
    ensures TickedUpTo(previews, Results.Matched(previews), selected, n)
      == Results.SelectedUpTo(Results.Matched(previews), selected, |Results.MatchedUpTo(previews, n)|)
  {
    if n > 0 {
      TickedUpToSelected(previews, selected, n - 1);
      TickedStep(previews, selected, n);
    }
  }

  /**
   * With distinct pages, the results of the ticked rows, in table order, are
   * exactly what the panel hands to the send step for the selection.
   */
  lemma TickedRowsAreSent(previews: seq<PreviewResult>, selected: set<int>)
    requires forall a, b :: 0 <= a < b < |previews| ==> previews[a].page != previews[b].page
    ensures TickedUpTo(previews, Results.Matched(previews), selected, |previews|)
      == Results.SelectedForSend(Results.Matched(previews), selected)
  {
    TickedUpToSelected(previews, selected, |previews|);
  }

  /** Two matched pages with the same number share one checkbox index: the first one's. */
  lemma RepeatedPageSharesIndex()
    ensures var a := PreviewResult(1, true, "x", Some("A"), Some("a@b.c"), None, None);
      var b := PreviewResult(1, true, "y", Some("B"), Some("b@b.c"), None, None);
      var m := Results.Matched([a, b]);
      m == [a, b] && FindIndexByPage(m, b.page) == 0
  {
    var a := PreviewResult(1, true, "x", Some("A"), Some("a@b.c"), None, None);
    var b := PreviewResult(1, true, "y", Some("B"), Some("b@b.c"), None, None);
    Results.AllMatchedKept([a, b]);
  }
}
