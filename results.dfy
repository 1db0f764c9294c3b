/**
 * The results panel of the processing page: the matched pages of a
 * preview, the set of selected matched indices, what is handed over for
 * sending, and which of its three views is shown.
 */
module Results {
  import opened Types

  /** `previewResults.filter(r => r.found_match)` over the first `n` results. */
  function MatchedUpTo(previews: seq<PreviewResult>, n: nat): (m: seq<PreviewResult>)
    requires n <= |previews|
    ensures |m| <= n
    ensures |m| == 0 <==> forall i :: 0 <= i < n ==> !previews[i].foundMatch
  {
    if n == 0 then []
    else MatchedUpTo(previews, n - 1) + (if previews[n - 1].foundMatch then [previews[n - 1]] else [])
  }

  /** The positions in `previews` of the results `MatchedUpTo` keeps. */
  function PositionsUpTo(previews: seq<PreviewResult>, n: nat): seq<nat>
    requires n <= |previews|
  {
    if n == 0 then []
    else PositionsUpTo(previews, n - 1) + (if previews[n - 1].foundMatch then [n - 1] else [])
  }

  lemma {:induction false} PositionsHoldMatches(previews: seq<PreviewResult>, n: nat)
    requires n <= |previews|
    ensures |PositionsUpTo(previews, n)| == |MatchedUpTo(previews, n)|
    ensures forall k :: 0 <= k < |PositionsUpTo(previews, n)| ==>
      PositionsUpTo(previews, n)[k] < n && previews[PositionsUpTo(previews, n)[k]] == MatchedUpTo(previews, n)[k]
      && previews[PositionsUpTo(previews, n)[k]].foundMatch
  {
    if n > 0 {
      PositionsHoldMatches(previews, n - 1);
      var prev, m := PositionsUpTo(previews, n - 1), MatchedUpTo(previews, n - 1);
      var pos, m' := PositionsUpTo(previews, n), MatchedUpTo(previews, n);
      if previews[n - 1].foundMatch {
        assert pos == prev + [n - 1] && m' == m + [previews[n - 1]];
        forall k | 0 <= k < |pos|
          ensures pos[k] < n && previews[pos[k]] == m'[k] && previews[pos[k]].foundMatch
        {
          if k < |prev| {
            assert pos[k] == prev[k] && m'[k] == m[k];
          }
        }
      } else {
        assert pos == prev && m' == m;
      }
    }
  }

  lemma {:induction false} PositionsIncrease(previews: seq<PreviewResult>, n: nat)
    requires n <= |previews|
    ensures forall k :: 0 <= k < |PositionsUpTo(previews, n)| ==> PositionsUpTo(previews, n)[k] < n
    ensures forall k, l :: 0 <= k < l < |PositionsUpTo(previews, n)| ==> PositionsUpTo(previews, n)[k] < PositionsUpTo(previews, n)[l]
  {
    if n > 0 {
      PositionsIncrease(previews, n - 1);
      var prev, pos := PositionsUpTo(previews, n - 1), PositionsUpTo(previews, n);
      if previews[n - 1].foundMatch {
        assert pos == prev + [n - 1];
        forall k | 0 <= k < |pos| ensures pos[k] < n {
          if k < |prev| {
            assert pos[k] == prev[k];
          }
        }
        forall k, l | 0 <= k < l < |pos| ensures pos[k] < pos[l] {
          assert pos[k] == prev[k];
          if l < |prev| {
            assert pos[l] == prev[l];
          }
        }
      } else {
        assert pos == prev;
      }
    }
  }

  lemma {:induction false} PositionsComplete(previews: seq<PreviewResult>, n: nat)
    requires n <= |previews|
    ensures forall i :: 0 <= i < n && previews[i].foundMatch ==> i in PositionsUpTo(previews, n)
  {
    if n > 0 {
      PositionsComplete(previews, n - 1);
      var prev, pos := PositionsUpTo(previews, n - 1), PositionsUpTo(previews, n);
      if previews[n - 1].foundMatch {
        assert pos == prev + [n - 1];
        forall i | 0 <= i < n && previews[i].foundMatch ensures i in pos {
          if i < n - 1 {
            assert i in prev;
          } else {
            assert pos[|prev|] == i;
          }
        }
      } else {
        assert pos == prev;
      }
    }
  }

  /** Each kept result sits at its position, the positions increase, and every match is kept. */
  lemma PositionsUpToSpec(previews: seq<PreviewResult>, n: nat)
    requires n <= |previews|
    ensures |PositionsUpTo(previews, n)| == |MatchedUpTo(previews, n)|
    ensures forall k :: 0 <= k < |PositionsUpTo(previews, n)| ==>
      PositionsUpTo(previews, n)[k] < n && previews[PositionsUpTo(previews, n)[k]] == MatchedUpTo(previews, n)[k]
    ensures forall k :: 0 <= k < |PositionsUpTo(previews, n)| ==> previews[PositionsUpTo(previews, n)[k]].foundMatch
    ensures forall k, l :: 0 <= k < l < |PositionsUpTo(previews, n)| ==> PositionsUpTo(previews, n)[k] < PositionsUpTo(previews, n)[l]
    ensures forall i :: 0 <= i < n && previews[i].foundMatch ==> i in PositionsUpTo(previews, n)
  {
    PositionsHoldMatches(previews, n);
    PositionsIncrease(previews, n);
    PositionsComplete(previews, n);
  }

  /** `matchedResults`. */
  function Matched(previews: seq<PreviewResult>): seq<PreviewResult> {
    MatchedUpTo(previews, |previews|)
  }

  function MatchedPositions(previews: seq<PreviewResult>): seq<nat> {
    PositionsUpTo(previews, |previews|)
  }

  /**
   * The matched results are exactly the results with `found_match`, taken
   * at increasing positions, so in the preview's order.
   */
  lemma MatchedIsOrderedFilter(previews: seq<PreviewResult>)
    ensures |MatchedPositions(previews)| == |Matched(previews)| <= |previews|
    ensures forall k :: 0 <= k < |Matched(previews)| ==>
      MatchedPositions(previews)[k] < |previews| && previews[MatchedPositions(previews)[k]] == Matched(previews)[k]
    ensures forall k, l :: 0 <= k < l < |Matched(previews)| ==> MatchedPositions(previews)[k] < MatchedPositions(previews)[l]
    ensures forall i :: 0 <= i < |previews| && previews[i].foundMatch ==> i in MatchedPositions(previews)
    ensures forall k :: 0 <= k < |Matched(previews)| ==> Matched(previews)[k].foundMatch
  {
    PositionsUpToSpec(previews, |previews|);
  }

  /** A result is among the matched ones exactly when it is a result with `found_match`. */
  lemma MatchedMembers(previews: seq<PreviewResult>, r: PreviewResult)
    ensures r in Matched(previews) <==> r in previews && r.foundMatch
  {
    MatchedIsOrderedFilter(previews);
    var m, pos := Matched(previews), MatchedPositions(previews);
    if r in m {
      var k :| 0 <= k < |m| && m[k] == r;
      assert previews[pos[k]] == r;
    }
    if r in previews && r.foundMatch {
      var i :| 0 <= i < |previews| && previews[i] == r;
      var k :| 0 <= k < |pos| && pos[k] == i;
      assert m[k] == r;
    }
  }

  /** The filter distributes over concatenation. */
  lemma {:induction false} MatchedAppend(a: seq<PreviewResult>, b: seq<PreviewResult>)
    ensures Matched(a + b) == Matched(a) + Matched(b)
  {
    if b == [] {
      assert a + b == a;
    } else {
      var b' := b[..|b| - 1];
      var last := b[|b| - 1];
      var tail := if last.foundMatch then [last] else [];
      MatchedAppend(a, b');
      assert (a + b)[..|a + b| - 1] == a + b';
      assert (a + b)[|a + b| - 1] == last;
      MatchedPrefix(a + b, |a + b| - 1);
      MatchedPrefix(b, |b| - 1);
      assert Matched(a + b) == (Matched(a) + Matched(b')) + tail;
      assert Matched(b) == Matched(b') + tail;
      AppendAssoc(Matched(a), Matched(b'), tail);
    }
  }

  lemma AppendAssoc<T>(x: seq<T>, y: seq<T>, z: seq<T>)
    ensures (x + y) + z == x + (y + z)
  {
  }

  /** Filtering a prefix is what the whole filter computed up to that point. */
  lemma {:induction false} MatchedPrefix(previews: seq<PreviewResult>, n: nat)
    requires n <= |previews|
    ensures MatchedUpTo(previews, n) == Matched(previews[..n])
  {
    MatchedUpToAgree(previews, previews[..n], n);
  }

  lemma {:induction false} MatchedUpToAgree(p: seq<PreviewResult>, q: seq<PreviewResult>, n: nat)
    requires n <= |p| && n <= |q|
    requires forall i :: 0 <= i < n ==> p[i] == q[i]
    ensures MatchedUpTo(p, n) == MatchedUpTo(q, n)
  {
    if n > 0 {
      MatchedUpToAgree(p, q, n - 1);
    }
  }

  /** A preview whose every page matched is its own filter. */
  lemma AllMatchedKept(previews: seq<PreviewResult>)
    requires forall i :: 0 <= i < |previews| ==> previews[i].foundMatch
    ensures Matched(previews) == previews
  {
    MatchedIsOrderedFilter(previews);
    var pos := MatchedPositions(previews);
    assert |pos| == |previews| by {
      AllPositions(previews, pos);
    }
    IncreasingFillsRange(pos, |previews|);
  }

  /** Every position occurs in `pos`, so there are as many of them as results. */
  lemma AllPositions(previews: seq<PreviewResult>, pos: seq<nat>)
    requires forall i :: 0 <= i < |previews| ==> i in pos
    requires forall k :: 0 <= k < |pos| ==> pos[k] < |previews|
    requires forall k, l :: 0 <= k < l < |pos| ==> pos[k] < pos[l]
    ensures |pos| == |previews|
  {
    var s := set k | 0 <= k < |pos| :: pos[k];
    forall i | 0 <= i < |previews| ensures i in s {
      assert i in pos;
      var k :| 0 <= k < |pos| && pos[k] == i;
    }
    AllIndicesMembers(|previews|);
    assert s == AllIndices(|previews|);
    AllIndicesSize(|previews|);
    Strictly(pos);
  }

  /** The image of a strictly increasing sequence has as many elements as the sequence. */
  lemma {:induction false} Strictly(pos: seq<nat>)
    requires forall k, l :: 0 <= k < l < |pos| ==> pos[k] < pos[l]
    ensures |set k | 0 <= k < |pos| :: pos[k]| == |pos|
  {
    if pos != [] {
      var init := pos[..|pos| - 1];
      Strictly(init);
      var a := set k | 0 <= k < |init| :: init[k];
      var b := set k | 0 <= k < |pos| :: pos[k];
      assert b == a + {pos[|pos| - 1]};
      assert pos[|pos| - 1] !in a;
    }
  }

  /** A strictly increasing sequence of `n` positions below `n` is `0, 1, ..., n-1`. */
  lemma {:induction false} IncreasingFillsRange(pos: seq<nat>, n: nat)
    requires |pos| == n
    requires forall k :: 0 <= k < |pos| ==> pos[k] < n
    requires forall k, l :: 0 <= k < l < |pos| ==> pos[k] < pos[l]
    ensures forall k :: 0 <= k < n ==> pos[k] == k
  {
    if n > 0 {
      assert pos[n - 1] == n - 1 by {
        LowerBound(pos, n - 1);
      }
      IncreasingFillsRange(pos[..n - 1], n - 1);
    }
  }

  lemma {:induction false} LowerBound(pos: seq<nat>, k: nat)
    requires k < |pos|
    requires forall a, b :: 0 <= a < b < |pos| ==> pos[a] < pos[b]
    ensures pos[k] >= k
  {
    if k > 0 {
      LowerBound(pos, k - 1);
    }
  }

  /** `new Set(matchedResults.map((_, index) => index))`. */
  function AllIndices(n: nat): set<int> {
    if n == 0 then {} else AllIndices(n - 1) + {n - 1}
  }

  /** That set holds exactly the indices `0 .. n-1`. */
  lemma {:induction false} AllIndicesMembers(n: nat)
    ensures forall i :: i in AllIndices(n) <==> 0 <= i < n
  {
    if n > 0 {
      AllIndicesMembers(n - 1);
    }
  }

  lemma {:induction false} AllIndicesSize(n: nat)
    ensures |AllIndices(n)| == n
  {
    if n > 0 {
      AllIndicesSize(n - 1);
      AllIndicesMembers(n - 1);
      assert n - 1 !in AllIndices(n - 1);
    }
  }

  /** `matchedResults.filter((_, index) => selectedResults.has(index))` over the first `n` entries. */
  function SelectedUpTo(matched: seq<PreviewResult>, selected: set<int>, n: nat): (r: seq<PreviewResult>)
    requires n <= |matched|
    ensures |r| <= n
  {
    if n == 0 then []
    else SelectedUpTo(matched, selected, n - 1) + (if n - 1 in selected then [matched[n - 1]] else [])
  }

  function SelectedForSend(matched: seq<PreviewResult>, selected: set<int>): seq<PreviewResult> {
    SelectedUpTo(matched, selected, |matched|)
  }

  lemma SelectedIndicesStep(selected: set<int>, n: nat)
    requires n > 0
    ensures |selected * AllIndices(n)| == |selected * AllIndices(n - 1)| + (if n - 1 in selected then 1 else 0)
  {
    var prev, cur := selected * AllIndices(n - 1), selected * AllIndices(n);
    AllIndicesMembers(n - 1);
    if n - 1 in selected {
      assert cur == prev + {n - 1};
      assert n - 1 !in prev;
    } else {
      assert cur == prev;
    }
  }

  /** What is handed over has as many entries as selected indices within range. */
  lemma {:induction false} SelectedCount(matched: seq<PreviewResult>, selected: set<int>, n: nat)
    requires n <= |matched|
    ensures |SelectedUpTo(matched, selected, n)| == |selected * AllIndices(n)|
  {
    if n > 0 {
      SelectedCount(matched, selected, n - 1);
      SelectedIndicesStep(selected, n);
    }
  }

  /** Selecting every index hands over every matched result; selecting none hands over none. */
  lemma {:induction false} SelectAllSendsAll(matched: seq<PreviewResult>, n: nat)
    requires n <= |matched|
    ensures SelectedUpTo(matched, AllIndices(|matched|), n) == matched[..n]
    ensures SelectedUpTo(matched, {}, n) == []
  {
    if n > 0 {
      SelectAllSendsAll(matched, n - 1);
      AllIndicesMembers(|matched|);
      assert matched[..n] == matched[..n - 1] + [matched[n - 1]];
    }
  }

  /** An index outside the matched range never changes what is handed over. */
  lemma {:induction false} OutOfRangeIgnored(matched: seq<PreviewResult>, selected: set<int>, i: int, n: nat)
    requires n <= |matched|
    requires i < 0 || i >= |matched|
    ensures SelectedUpTo(matched, selected + {i}, n) == SelectedUpTo(matched, selected, n)
  {
    if n > 0 {
      OutOfRangeIgnored(matched, selected, i, n - 1);
    }
  }

  /** The three views of the panel. */
  datatype View = Placeholder | EmailView | PreviewView

  function ChooseView(previews: seq<PreviewResult>, emails: seq<EmailSendResult>): (v: View)
    ensures v == Placeholder <==> |previews| == 0 && |emails| == 0
    ensures v == EmailView <==> |emails| > 0
    ensures v == PreviewView <==> |emails| == 0 && |previews| > 0
  {
    if |previews| == 0 && |emails| == 0 then Placeholder
    else if |emails| > 0 then EmailView
    else PreviewView
  }

  /** The select-all checkbox state. */
  predicate IsSelectAll(selected: set<int>, matched: seq<PreviewResult>) {
    |selected| == |matched|
  }

  class ResultsPanel {
    /** `selectedResults`: indices into the matched results. */
    var selected: set<int>

    /** The panel opens with every matched result selected. */
    constructor (previews: seq<PreviewResult>)
      ensures selected == AllIndices(|Matched(previews)|)
      ensures IsSelectAll(selected, Matched(previews))
      ensures SelectedForSend(Matched(previews), selected) == Matched(previews)
    {
      selected := AllIndices(|Matched(previews)|);
      AllIndicesSize(|Matched(previews)|);
      SelectAllSendsAll(Matched(previews), |Matched(previews)|);
    }

    method HandleSelectAll(previews: seq<PreviewResult>, checked: bool)
      modifies this
      ensures selected == (if checked then AllIndices(|Matched(previews)|) else {})
      ensures checked ==> IsSelectAll(selected, Matched(previews))
      ensures SelectedForSend(Matched(previews), selected) == if checked then Matched(previews) else []
    {
      if checked {
        selected := AllIndices(|Matched(previews)|);
        AllIndicesSize(|Matched(previews)|);
      } else {
        selected := {};
      }
      SelectAllSendsAll(Matched(previews), |Matched(previews)|);
    }

    /** Adds or removes exactly the given index. */
    method HandleSelectResult(index: int, checked: bool)
      modifies this
      ensures index in selected <==> checked
      ensures forall j :: j != index ==> (j in selected <==> j in old(selected))
    {
      var newSelected := selected;
      if checked {
        newSelected := newSelected + {index};
      } else {
        newSelected := newSelected - {index};
      }
      selected := newSelected;
    }

    /** The matched results whose index is selected, in order; the page's send handler receives them. */
    method HandleSendSelected(previews: seq<PreviewResult>) returns (chosen: seq<PreviewResult>)
      ensures chosen == SelectedForSend(Matched(previews), selected)
      ensures |chosen| == |selected * AllIndices(|Matched(previews)|)|
    {
      var matched := Matched(previews);
      chosen := [];
      var i := 0;
      while i < |matched|
        invariant 0 <= i <= |matched|
        invariant chosen == SelectedUpTo(matched, selected, i)
      {
        if i in selected {
          chosen := chosen + [matched[i]];
        }
        i := i + 1;
      }
      SelectedCount(matched, selected, |matched|);
    }
  }
}
