/** Line breaking of FlexBox.wrap_content in the first engine (flexbox/flex.py):
    with wrapping on, items go on the current line until the running length
    exceeds the available length, and the item that overflows starts a new line.
    Lines are sequences of item indices. */
module LineBreaking {
  import opened Reals

  /** The indices lo, lo + 1, ..., hi - 1. */
  function Range(lo: nat, hi: nat): (r: seq<nat>)
    requires lo <= hi
    ensures |r| == hi - lo
    ensures forall i :: 0 <= i < |r| ==> r[i] == lo + i
  {
    seq(hi - lo, i requires 0 <= i < hi - lo => lo + i)
  }

  /** The lines' items, in order. */
  function Flatten(rows: seq<seq<nat>>): seq<nat>
  {
    if rows == [] then [] else rows[0] + Flatten(rows[1..])
  }

  /** A line is a non-empty run of consecutive indices. */
  predicate Contiguous(row: seq<nat>) {
    |row| > 0 && row == Range(row[0], row[0] + |row|)
  }

  /** Where the line ends that holds the items from its start up to `i`, whose
      lengths add up to `acc`: the next item joins unless it takes the running
      length past `available`. */
  function LineEnd(lengths: seq<real>, available: real, i: nat, acc: real): (e: nat)
    requires 0 < i <= |lengths|
    ensures i <= e <= |lengths|
    decreases |lengths| - i
  {
    if i < |lengths| && acc + lengths[i] <= available then LineEnd(lengths, available, i + 1, acc + lengths[i])
    else i
  }

  /** The lines of the items from `start` on. */
  function LinesFrom(lengths: seq<real>, available: real, start: nat): (rows: seq<seq<nat>>)
    requires start <= |lengths|
    ensures Flatten(rows) == Range(start, |lengths|)
    ensures forall k :: 0 <= k < |rows| ==> Contiguous(rows[k]) && start <= rows[k][0] && rows[k][0] + |rows[k]| <= |lengths|
    decreases |lengths| - start
  {
    if start == |lengths| then []
    else
      var e := LineEnd(lengths, available, start + 1, lengths[start]);
      var rest := LinesFrom(lengths, available, e);
      assert Range(start, e) + Range(e, |lengths|) == Range(start, |lengths|);
      assert ([Range(start, e)] + rest)[1..] == rest;
      assert Contiguous(Range(start, e));
      [Range(start, e)] + rest
  }

  /** The lines of all the items. */
  function Lines(lengths: seq<real>, available: real): (rows: seq<seq<nat>>)
    ensures Flatten(rows) == Range(0, |lengths|)
    ensures forall k :: 0 <= k < |rows| ==> Contiguous(rows[k]) && rows[k][0] + |rows[k]| <= |lengths|
  {
    LinesFrom(lengths, available, 0)
  }

  lemma LinesFromUnfold(lengths: seq<real>, available: real, start: nat)
    requires start < |lengths|
    ensures var e := LineEnd(lengths, available, start + 1, lengths[start]);
      LinesFrom(lengths, available, start) == [Range(start, e)] + LinesFrom(lengths, available, e)
  {
  }

  /** The open line from `start`, whose items up to i - 1 have lengths adding up to
      `acc`, and the lines after it. */
  ghost function Rest(lengths: seq<real>, available: real, start: nat, i: nat, acc: real): seq<seq<nat>>
    requires start < i <= |lengths|
  {
    var e := LineEnd(lengths, available, i, acc);
    [Range(start, e)] + LinesFrom(lengths, available, e)
  }

  lemma RangeSnoc(lo: nat, hi: nat)
    requires lo <= hi
    ensures Range(lo, hi) + [hi] == Range(lo, hi + 1)
  {
  }

  /** What the loop of BuildLines still produces from item i on, given the closed
      lines, the open line and its running length. */
  ghost function Continue(lengths: seq<real>, available: real, i: nat, rows: seq<seq<nat>>,
                          row: seq<nat>, rowLength: real): seq<seq<nat>>
    requires i <= |lengths|
    decreases |lengths| - i
  {
    if i == |lengths| then rows + [row]
    else if rowLength + lengths[i] > available && row != [] then
      Continue(lengths, available, i + 1, rows + [row], [i], lengths[i])
    else Continue(lengths, available, i + 1, rows, row + [i], rowLength + lengths[i])
  }

  /** Item i overflows the open line: the loop closes it and opens the next. */
  lemma CloseStep(lengths: seq<real>, available: real, rows: seq<seq<nat>>, start: nat, i: nat, acc: real)
    requires start < i < |lengths| && acc + lengths[i] > available
    requires Continue(lengths, available, i + 1, rows + [Range(start, i)], Range(i, i + 1), lengths[i])
          == rows + [Range(start, i)] + Rest(lengths, available, i, i + 1, lengths[i])
    ensures Continue(lengths, available, i, rows, Range(start, i), acc) == rows + Rest(lengths, available, start, i, acc)
  {
    var line, next := Range(start, i), Rest(lengths, available, i, i + 1, lengths[i]);
    calc {
      Continue(lengths, available, i, rows, line, acc);
      { CloseLoop(lengths, available, rows, start, i, acc); }
      Continue(lengths, available, i + 1, rows + [line], Range(i, i + 1), lengths[i]);
      rows + [line] + next;
      rows + ([line] + next);
      { CloseRest(lengths, available, start, i, acc); }
      rows + Rest(lengths, available, start, i, acc);
    }
  }

  /** The loop closes the open line when item i overflows it. */
  lemma CloseLoop(lengths: seq<real>, available: real, rows: seq<seq<nat>>, start: nat, i: nat, acc: real)
    requires start < i < |lengths| && acc + lengths[i] > available
    ensures Continue(lengths, available, i, rows, Range(start, i), acc)
         == Continue(lengths, available, i + 1, rows + [Range(start, i)], Range(i, i + 1), lengths[i])
  {
    RangeSnoc(i, i);
    assert [i] == Range(i, i + 1);
  }

  /** The overflowing item opens the line after the closed one. */
  lemma CloseRest(lengths: seq<real>, available: real, start: nat, i: nat, acc: real)
    requires start < i < |lengths| && acc + lengths[i] > available
    ensures Rest(lengths, available, start, i, acc) == [Range(start, i)] + Rest(lengths, available, i, i + 1, lengths[i])
  {
    LinesFromUnfold(lengths, available, i);
    assert LineEnd(lengths, available, i, acc) == i;
  }

  /** Item i fits on the open line: the loop adds it. */
  lemma JoinStep(lengths: seq<real>, available: real, rows: seq<seq<nat>>, start: nat, i: nat, acc: real)
    requires start < i < |lengths| && acc + lengths[i] <= available
    requires Continue(lengths, available, i + 1, rows, Range(start, i + 1), acc + lengths[i])
          == rows + Rest(lengths, available, start, i + 1, acc + lengths[i])
    ensures Continue(lengths, available, i, rows, Range(start, i), acc) == rows + Rest(lengths, available, start, i, acc)
  {
    RangeSnoc(start, i);
    assert LineEnd(lengths, available, i, acc) == LineEnd(lengths, available, i + 1, acc + lengths[i]);
  }

  /** Running the loop on from an open line gives that line and the lines after it. */
  lemma {:induction false} ContinueRest(lengths: seq<real>, available: real, rows: seq<seq<nat>>,
                                        start: nat, i: nat, acc: real)
    requires start < i <= |lengths|
    ensures Continue(lengths, available, i, rows, Range(start, i), acc) == rows + Rest(lengths, available, start, i, acc)
    decreases |lengths| - i
  {
    if i == |lengths| {
      assert LinesFrom(lengths, available, i) == [];
    } else if acc + lengths[i] > available {
      ContinueRest(lengths, available, rows + [Range(start, i)], i, i + 1, lengths[i]);
      CloseStep(lengths, available, rows, start, i, acc);
    } else {
      ContinueRest(lengths, available, rows, start, i + 1, acc + lengths[i]);
      JoinStep(lengths, available, rows, start, i, acc);
    }
  }

  /** The loop, run from the start, produces Lines. */
  lemma ContinueAll(lengths: seq<real>, available: real)
    requires |lengths| > 0
    ensures Continue(lengths, available, 0, [], [], 0.0) == Lines(lengths, available)
  {
    assert [] + [0] == Range(0, 1);
    assert 0.0 + lengths[0] == lengths[0];
    ContinueRest(lengths, available, [], 0, 1, lengths[0]);
    LinesFromUnfold(lengths, available, 0);
    assert [] + Rest(lengths, available, 0, 1, lengths[0]) == LinesFrom(lengths, available, 0);
  }

  /** FlexBox.wrap_content's loop: the running length is reset to the overflowing
      item's length whenever a line is closed. */
  method BuildLines(lengths: seq<real>, available: real) returns (rows: seq<seq<nat>>)
    requires |lengths| > 0
    ensures rows == Lines(lengths, available)
  {
    ContinueAll(lengths, available);
    rows := [];
    var row: seq<nat> := [];
    var rowLength := 0.0;
    var i := 0;
    while i < |lengths|
      invariant 0 <= i <= |lengths|
      invariant Continue(lengths, available, i, rows, row, rowLength) == Lines(lengths, available)
    {
      rowLength := rowLength + lengths[i];
      if rowLength > available && row != [] {
        rows := rows + [row];
        row := [i];
        rowLength := lengths[i];
      } else {
        row := row + [i];
      }
      i := i + 1;
    }
    rows := rows + [row];
  }

  /** The total length of the items a, ..., b - 1. */
  function SpanSum(lengths: seq<real>, a: nat, b: nat): real
    requires a <= b <= |lengths|
  {
    Sum(lengths[a..b])
  }

  /** Every prefix of two or more items of a line fits in the available length. */
  predicate Fits(lengths: seq<real>, available: real, row: seq<nat>)
    requires |row| > 0 && row[0] + |row| <= |lengths|
  {
    forall e :: row[0] + 2 <= e <= row[0] + |row| ==> SpanSum(lengths, row[0], e) <= available
  }

  /** A line was closed only because the first item of the next one would not fit. */
  predicate BreakForced(lengths: seq<real>, available: real, row: seq<nat>, next: seq<nat>)
    requires |row| > 0 && row[0] + |row| <= |lengths|
    requires |next| > 0 && next[0] < |lengths|
  {
    SpanSum(lengths, row[0], row[0] + |row|) + lengths[next[0]] > available
  }

  lemma SumSlice(lengths: seq<real>, a: nat, i: nat)
    requires a <= i < |lengths|
    ensures Sum(lengths[a..i + 1]) == Sum(lengths[a..i]) + lengths[i]
  {
    SumSnoc(lengths[a..], i - a);
    assert lengths[a..][..i - a + 1] == lengths[a..i + 1];
    assert lengths[a..][..i - a] == lengths[a..i];
  }

  lemma {:induction false} LineEndGreedy(lengths: seq<real>, available: real, a: nat, i: nat, acc: real)
    requires a < i <= |lengths|
    requires acc == SpanSum(lengths, a, i)
    requires forall j :: a + 2 <= j <= i ==> SpanSum(lengths, a, j) <= available
    ensures var e := LineEnd(lengths, available, i, acc);
      (forall j :: a + 2 <= j <= e ==> SpanSum(lengths, a, j) <= available)
      && (e < |lengths| ==> SpanSum(lengths, a, e) + lengths[e] > available)
    decreases |lengths| - i
  {
    if i < |lengths| && acc + lengths[i] <= available {
      SumSlice(lengths, a, i);
      LineEndGreedy(lengths, available, a, i + 1, acc + lengths[i]);
    }
  }

  lemma FlattenHead(rows: seq<seq<nat>>, lo: nat, hi: nat)
    requires lo < hi
    requires Flatten(rows) == Range(lo, hi)
    requires forall k :: 0 <= k < |rows| ==> Contiguous(rows[k])
    ensures |rows| > 0 && |rows[0]| > 0 && rows[0][0] == lo
  {
    assert |Range(lo, hi)| > 0;
    assert rows != [];
    assert Contiguous(rows[0]);
    assert Flatten(rows)[0] == rows[0][0];
  }

  lemma {:induction false} LinesFromFit(lengths: seq<real>, available: real, start: nat)
    requires start <= |lengths|
    ensures var rows := LinesFrom(lengths, available, start);
      forall k :: 0 <= k < |rows| ==> Fits(lengths, available, rows[k])
    decreases |lengths| - start
  {
    if start < |lengths| {
      var rows := LinesFrom(lengths, available, start);
      var e := LineEnd(lengths, available, start + 1, lengths[start]);
      var rest := LinesFrom(lengths, available, e);
      LinesFromUnfold(lengths, available, start);
      LinesFromFit(lengths, available, e);
      assert lengths[start..start + 1] == [lengths[start]];
      SumSingleton(lengths[start]);
      LineEndGreedy(lengths, available, start, start + 1, lengths[start]);
      forall k | 0 <= k < |rows|
        ensures Fits(lengths, available, rows[k])
      {
        if k > 0 {
          assert rows[k] == rest[k - 1];
        }
      }
    }
  }

  lemma {:induction false} LinesFromBreaks(lengths: seq<real>, available: real, start: nat)
    requires start <= |lengths|
    ensures var rows := LinesFrom(lengths, available, start);
      forall k :: 0 <= k < |rows| - 1 ==> BreakForced(lengths, available, rows[k], rows[k + 1])
    decreases |lengths| - start
  {
    if start < |lengths| {
      var rows := LinesFrom(lengths, available, start);
      var e := LineEnd(lengths, available, start + 1, lengths[start]);
      var rest := LinesFrom(lengths, available, e);
      LinesFromUnfold(lengths, available, start);
      LinesFromBreaks(lengths, available, e);
      if e < |lengths| {
        FirstBreakForced(lengths, available, start);
      }
      forall k | 0 <= k < |rows| - 1
        ensures BreakForced(lengths, available, rows[k], rows[k + 1])
      {
        if k > 0 {
          assert rows[k] == rest[k - 1] && rows[k + 1] == rest[k];
        }
      }
    }
  }

  /** The first line from `start` closes only because the next item would overflow it. */
  lemma FirstBreakForced(lengths: seq<real>, available: real, start: nat)
    requires start < |lengths|
    requires LineEnd(lengths, available, start + 1, lengths[start]) < |lengths|
    ensures var e := LineEnd(lengths, available, start + 1, lengths[start]);
      var rest := LinesFrom(lengths, available, e);
      |rest| > 0 && |rest[0]| > 0 && rest[0][0] == e
      && BreakForced(lengths, available, Range(start, e), rest[0])
  {
    var e := LineEnd(lengths, available, start + 1, lengths[start]);
    assert lengths[start..start + 1] == [lengths[start]];
    SumSingleton(lengths[start]);
    LineEndGreedy(lengths, available, start, start + 1, lengths[start]);
    FlattenHead(LinesFrom(lengths, available, e), e, |lengths|);
  }

  /** The lines are greedy: every line holds as many items as fit, so each line's
      prefixes fit, and each break happens because the next item would overflow. */
  lemma LinesGreedy(lengths: seq<real>, available: real)
    ensures var rows := Lines(lengths, available);
      (forall k :: 0 <= k < |rows| ==> Fits(lengths, available, rows[k]))
      && (forall k :: 0 <= k < |rows| - 1 ==> BreakForced(lengths, available, rows[k], rows[k + 1]))
  {
    assert Lines(lengths, available) == LinesFrom(lengths, available, 0);
    LinesFromFit(lengths, available, 0);
    LinesFromBreaks(lengths, available, 0);
  }

  lemma {:induction false} SumBoundsElement(s: seq<real>, i: nat)
    requires i < |s|
    requires forall j :: 0 <= j < |s| ==> s[j] >= 0.0
    ensures s[i] <= Sum(s)
  {
    SumBoundsMax(s);
  }

  /** With non-negative lengths, every item of a line of two or more items is no
      longer than the available length. */
  lemma ItemsOfSharedLine(lengths: seq<real>, available: real, k: nat, i: nat)
    requires forall j :: 0 <= j < |lengths| ==> lengths[j] >= 0.0
    requires k < |Lines(lengths, available)|
    requires i < |Lines(lengths, available)[k]|
    ensures var row := Lines(lengths, available)[k]; |row| >= 2 ==> lengths[row[i]] <= available
  {
    var row := Lines(lengths, available)[k];
    LinesGreedy(lengths, available);
    var a := row[0];
    assert Contiguous(row);
    if |row| >= 2 {
      var j := if i == 0 then 2 else i + 1;
      var s := lengths[a..a + j];
      assert s[i] == lengths[row[i]];
      assert SpanSum(lengths, a, a + j) <= available;
      SumBoundsElement(s, i);
    }
  }

  /** Hence an item longer than the available length is alone on its line. */
  lemma OversizedAlone(lengths: seq<real>, available: real, k: nat, i: nat)
    requires forall j :: 0 <= j < |lengths| ==> lengths[j] >= 0.0
    requires k < |Lines(lengths, available)|
    requires var row := Lines(lengths, available)[k]; i < |row| && lengths[row[i]] > available
    ensures |Lines(lengths, available)[k]| == 1
  {
    ItemsOfSharedLine(lengths, available, k, i);
  }

  lemma LineFits(lengths: seq<real>, available: real, k: nat)
    requires k < |Lines(lengths, available)|
    requires |Lines(lengths, available)[k]| >= 2
    ensures var row := Lines(lengths, available)[k]; SpanSum(lengths, row[0], row[0] + |row|) <= available
  {
    LinesGreedy(lengths, available);
  }

  /** Widths of 40, 40, 40, 120 and 60 in 120 break into lines of three, one and one items. */
  lemma LinesExample()
    ensures |Lines([40.0, 40.0, 40.0, 120.0, 60.0], 120.0)| == 3
    ensures Lines([40.0, 40.0, 40.0, 120.0, 60.0], 120.0) == [[0, 1, 2], [3], [4]]
  {
    var l := [40.0, 40.0, 40.0, 120.0, 60.0];
    assert LineEnd(l, 120.0, 1, 40.0) == 3;
    assert LineEnd(l, 120.0, 4, 120.0) == 4;
    assert LineEnd(l, 120.0, 5, 60.0) == 5;
    assert Range(0, 3) == [0, 1, 2] && Range(3, 4) == [3] && Range(4, 5) == [4];
    assert LinesFrom(l, 120.0, 5) == [];
    assert LinesFrom(l, 120.0, 4) == [[4]];
    assert LinesFrom(l, 120.0, 3) == [[3], [4]];
  }
}
