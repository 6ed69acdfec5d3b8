/**
 * `JObjectTable`: the selection policy of the table and
 * `setSelectedRows`, which sorts the caller's index array in place and
 * then hands selection intervals to `setRowSelectionInterval`.
 */
module TableSelection {
  import opened JavaLang

  /* ---------------------------------------------------------------- */
  /* Selection policy                                                  */
  /* ---------------------------------------------------------------- */

  datatype SelectPolicy = SINGLE | SINGLE_INTERVAL | MULTIPLE_INTERVAL

  /** `ListSelectionModel.SINGLE_SELECTION` and its two siblings. */
  const SINGLE_SELECTION: int := 0
  const SINGLE_INTERVAL_SELECTION: int := 1
  const MULTIPLE_INTERVAL_SELECTION: int := 2

  /** The selection mode each policy installs on the table. */
  function SelectionMode(policy: SelectPolicy): (mode: int)
    ensures mode in {SINGLE_SELECTION, SINGLE_INTERVAL_SELECTION, MULTIPLE_INTERVAL_SELECTION}
    ensures policy == SINGLE <==> mode == SINGLE_SELECTION
    ensures policy == SINGLE_INTERVAL <==> mode == SINGLE_INTERVAL_SELECTION
    ensures policy == MULTIPLE_INTERVAL <==> mode == MULTIPLE_INTERVAL_SELECTION
  {
    match policy
    case SINGLE => SINGLE_SELECTION
    case SINGLE_INTERVAL => SINGLE_INTERVAL_SELECTION
    case MULTIPLE_INTERVAL => MULTIPLE_INTERVAL_SELECTION
  }

  /* ---------------------------------------------------------------- */
  /* Sorting the index array                                           */
  /* ---------------------------------------------------------------- */

  predicate Sorted(s: seq<int>) {
    forall i, j :: 0 <= i < j < |s| ==> s[i] <= s[j]
  }

  function InsertSorted(x: int32, s: seq<int32>): (r: seq<int32>)
    ensures |r| == |s| + 1
  {
    if s == [] then [x]
    else if x <= s[0] then [x] + s
    else [s[0]] + InsertSorted(x, s[1..])
  }

  /** `Arrays.sort(int[])`: the ascending permutation of the values. */
  function SortInts(s: seq<int32>): (r: seq<int32>)
    ensures |r| == |s|
  {
    if s == [] then [] else InsertSorted(s[0], SortInts(s[1..]))
  }

  lemma {:induction false} InsertSortedPermutes(x: int32, s: seq<int32>)
    ensures multiset(InsertSorted(x, s)) == multiset(s) + multiset{x}
  {
    if s != [] && x > s[0] {
      InsertSortedPermutes(x, s[1..]);
      assert s == [s[0]] + s[1..];
    }
  }

  /** The sort only rearranges the values. */
  lemma {:induction false} SortIntsPermutes(s: seq<int32>)
    ensures multiset(SortInts(s)) == multiset(s)
  {
    if s != [] {
      SortIntsPermutes(s[1..]);
      InsertSortedPermutes(s[0], SortInts(s[1..]));
      assert s == [s[0]] + s[1..];
    }
  }

  /** No value in `s` is below `b`. */
  predicate AllAtLeast(s: seq<int32>, b: int32) {
    forall i :: 0 <= i < |s| ==> b <= s[i]
  }

  lemma {:induction false} InsertAtLeast(x: int32, s: seq<int32>, b: int32)
    requires AllAtLeast(s, b) && b <= x
    ensures AllAtLeast(InsertSorted(x, s), b)
  {
    if s != [] && x > s[0] {
      InsertAtLeast(x, s[1..], b);
    }
  }

  lemma {:induction false} InsertSortedSorted(x: int32, s: seq<int32>)
    requires Sorted(s)
    ensures Sorted(InsertSorted(x, s))
  {
    if s != [] && x > s[0] {
      InsertSortedSorted(x, s[1..]);
      InsertAtLeast(x, s[1..], s[0]);
    }
  }

  /** The sort yields ascending order. */
  lemma {:induction false} SortIntsSorted(s: seq<int32>)
    ensures Sorted(SortInts(s))
  {
    if s != [] {
      SortIntsSorted(s[1..]);
      InsertSortedSorted(s[0], SortInts(s[1..]));
    }
  }

  /** An array already in ascending order is left as it is. */
  lemma {:induction false} SortIntsOfSorted(s: seq<int32>)
    requires Sorted(s)
    ensures SortInts(s) == s
  {
    if s != [] {
      SortIntsOfSorted(s[1..]);
      assert s == [s[0]] + s[1..];
    }
  }

  /* ---------------------------------------------------------------- */
  /* The interval loop, as written                                     */
  /* ---------------------------------------------------------------- */

  /** The arguments of one `setRowSelectionInterval(start, end)` call. */
  datatype Interval = Interval(start: int32, end: int32)

  /** The loop's `start`/`end` pair; a negative `start` means no open interval. */
  datatype Cursor = Cursor(start: int32, end: int32)

  const NO_INTERVAL: Cursor := Cursor(-1, -1)

  /** `end + 1` in 32-bit arithmetic. */
  function Succ32(end: int32): (r: int32)
    ensures r == Wrap32(end + 1)
    ensures end < INT_MAX ==> r == end + 1
  {
    if end == INT_MAX then INT_MIN else end + 1
  }

  /** The index `x` closes the open interval: it lies beyond `end + 1`. */
  predicate Closes(x: int32, c: Cursor) {
    c.start >= 0 && x > Succ32(c.end)
  }

  /** The cursor after one index: opened on it, closed, or left as it was. */
  function Advance(x: int32, c: Cursor): Cursor {
    if c.start < 0 then Cursor(x, x) else if Closes(x, c) then NO_INTERVAL else c
  }

  /** The interval one index closes, if any. */
  function Closed(x: int32, c: Cursor): seq<Interval> {
    if Closes(x, c) then [Interval(c.start, c.end)] else []
  }

  /** What the array holds at an index after the loop has passed it. */
  function WriteBack(x: int32, c: Cursor): int32 {
    if c.start >= 0 && !Closes(x, c) then c.end else x
  }

  /** The interval still open after the last index, if any. */
  function Final(c: Cursor): seq<Interval> {
    if c.start >= 0 then [Interval(c.start, c.end)] else []
  }

  /** The loop's variables, the calls made so far and the array prefix it has rewritten. */
  datatype LoopState = LoopState(cursor: Cursor, emitted: seq<Interval>, written: seq<int32>)

  /**
   * The state of the loop of `setSelectedRows` over the sorted indices
   * `s` after its first `k` turns. A turn may close the open interval
   * (emitting it) or open one; an index that does neither is
   * overwritten with `end`; the last turn emits the interval still open.
   */
  function Run(s: seq<int32>, k: nat): LoopState
    requires k <= |s|
  {
    if k == 0 then LoopState(NO_INTERVAL, [], [])
    else
      var prev := Run(s, k - 1);
      var x := s[k - 1];
      var next := Advance(x, prev.cursor);
      LoopState(
        next,
        prev.emitted + Closed(x, prev.cursor) + (if k == |s| then Final(next) else []),
        prev.written + [WriteBack(x, prev.cursor)])
  }

  /** All of `setSelectedRows`: every turn of the loop over the sorted array. */
  function SelectedIntervals(index: seq<int32>): LoopState {
    Run(SortInts(index), |index|)
  }

  /** `Arrays.sort` on the caller's array. */
  method SortInPlace(a: array<int32>)
    modifies a
    ensures a[..] == SortInts(old(a[..]))
  {
    var sorted := SortInts(a[..]);
    forall k | 0 <= k < a.Length {
      a[k] := sorted[k];
    }
  }

  /**
   * Sorts `index` in place and passes each interval to
   * `setRowSelectionInterval`, in order; returns those calls.
   */
  method SetSelectedRows(index: array<int32>) returns (intervals: seq<Interval>)
    modifies index
    ensures intervals == SelectedIntervals(old(index[..])).emitted
    ensures index[..] == SelectedIntervals(old(index[..])).written
  {
    SortInPlace(index);
    ghost var sorted := index[..];
    var start: int32 := -1;
    var end: int32 := -1;
    intervals := [];
    for i := 0 to index.Length
      invariant |sorted| == index.Length
      invariant Run(sorted, i).cursor == Cursor(start, end) && Run(sorted, i).emitted == intervals
      invariant index[..] == Run(sorted, i).written + sorted[i..]
    {
      LoopTurn(sorted, i);
      if start < 0 {
        start := index[i];
        end := index[i];
      } else if index[i] > Succ32(end) {
        intervals := intervals + [Interval(start, end)];
        start := -1;
        end := -1;
      } else {
        index[i] := end;
      }
      if i == index.Length - 1 && start >= 0 {
        intervals := intervals + [Interval(start, end)];
      }
    }
    assert index[..] == Run(sorted, index.Length).written + [];
  }

  /**
   * One turn of the loop on the array: the index read is the next sorted
   * one, and writing `WriteBack` there (a no-op when it is that index)
   * gives the array after the turn.
   */
  lemma LoopTurn(s: seq<int32>, i: nat)
    requires i < |s|
    ensures |Run(s, i).written| == i
    ensures (Run(s, i).written + s[i..])[i] == s[i]
    ensures Run(s, i + 1).cursor == Advance(s[i], Run(s, i).cursor)
    ensures Run(s, i + 1).emitted == Run(s, i).emitted + Closed(s[i], Run(s, i).cursor) +
      (if i + 1 == |s| then Final(Run(s, i + 1).cursor) else [])
    ensures WriteBack(s[i], Run(s, i).cursor) == s[i] ==>
      Run(s, i).written + s[i..] == Run(s, i + 1).written + s[i + 1..]
    ensures (Run(s, i).written + s[i..])[i := WriteBack(s[i], Run(s, i).cursor)] ==
      Run(s, i + 1).written + s[i + 1..]
  {
    WrittenLength(s, i);
    var w := Run(s, i).written;
    var v := WriteBack(s[i], Run(s, i).cursor);
    assert s[i..] == [s[i]] + s[i + 1..];
    assert Run(s, i + 1).written == w + [v];
    assert (w + s[i..])[i := v] == (w + [v]) + s[i + 1..] by {
      assert |(w + s[i..])[i := v]| == |(w + [v]) + s[i + 1..]|;
    }
  }

  /* ---------------------------------------------------------------- */
  /* What the loop does                                                */
  /* ---------------------------------------------------------------- */

  /** No indices, no calls. */
  lemma EmptySelection()
    ensures SelectedIntervals([]).emitted == []
  {
  }

  /** A single index `k` is selected as `(k, k)`; a negative one is not passed on. */
  lemma SingleSelection(k: int32)
    ensures SelectedIntervals([k]).emitted == if k >= 0 then [Interval(k, k)] else []
  {
    SortIntsOfSorted([k]);
    assert SelectedIntervals([k]) == Run([k], 1);
    assert Run([k], 1).emitted == Final(Cursor(k, k));
  }

  /**
   * Every interval the loop emits has `start == end`: `end` only ever
   * changes together with `start`.
   */
  lemma {:induction false} IntervalsArePoints(s: seq<int32>, k: nat)
    requires k <= |s|
    ensures Run(s, k).cursor.start < 0 || Run(s, k).cursor.start == Run(s, k).cursor.end
    ensures forall iv :: iv in Run(s, k).emitted ==> iv.start == iv.end
  {
    if k > 0 {
      IntervalsArePoints(s, k - 1);
    }
  }

  /** The loop emits at most one interval per index. */
  lemma {:induction false} AtMostOneIntervalPerIndex(s: seq<int32>, k: nat)
    requires k <= |s|
    ensures |Run(s, k).emitted| <= k
  {
    if k > 0 {
      AtMostOneIntervalPerIndex(s, k - 1);
    }
  }

  /**
   * On sorted input, an index that neither opens nor closes an interval
   * is overwritten by `end`, which is never larger: values in the array
   * only ever move down.
   */
  lemma {:induction false} WrittenNeverExceeds(s: seq<int32>, k: nat)
    requires k <= |s| && Sorted(s)
    ensures Run(s, k).cursor.start >= 0 ==> k > 0 && Run(s, k).cursor.end <= s[k - 1]
    ensures |Run(s, k).written| == k
    ensures forall j :: 0 <= j < k ==> Run(s, k).written[j] <= s[j]
  {
    if k > 0 {
      WrittenNeverExceeds(s, k - 1);
      var prev := Run(s, k - 1);
      assert prev.cursor.start >= 0 ==> prev.cursor.end <= s[k - 1] by {
        if prev.cursor.start >= 0 { assert s[k - 2] <= s[k - 1]; }
      }
    }
  }

  /** Two adjacent rows: only the first is passed on, and the second is overwritten in the array. */
  lemma AdjacentRowsCollapse()
    ensures SelectedIntervals([1, 2]).emitted == [Interval(1, 1)]
    ensures SelectedIntervals([1, 2]).written == [1, 1]
  {
    SortIntsOfSorted([1, 2]);
    assert Run([1, 2], 1) == LoopState(Cursor(1, 1), [], [1]);
  }

  /** No index occurs twice. */
  predicate StrictlySorted(s: seq<int32>) {
    forall i, j :: 0 <= i < j < |s| ==> s[i] < s[j]
  }

  /** Turn `j` finds no open interval, so it opens one on `s[j]`. */
  predicate OpensAt(s: seq<int32>, j: nat)
    requires j < |s|
  {
    Run(s, j).cursor.start < 0
  }

  /** The loop rewrites exactly the prefix it has passed. */
  lemma {:induction false} WrittenLength(s: seq<int32>, k: nat)
    requires k <= |s|
    ensures |Run(s, k).written| == k
  {
    if k > 0 {
      WrittenLength(s, k - 1);
    }
  }

  /** A value written back at a turn stays in the array to the end. */
  lemma {:induction false} WrittenPrefix(s: seq<int32>, j: nat, k: nat)
    requires j <= k <= |s|
    ensures |Run(s, k).written| == k
    ensures Run(s, j).written == Run(s, k).written[..j]
    decreases k - j
  {
    WrittenLength(s, k);
    WrittenLength(s, j);
    if j < k {
      WrittenPrefix(s, j, k - 1);
      assert Run(s, k).written[..k - 1] == Run(s, k - 1).written;
    }
  }

  /** The indices at which the first `k` turns opened an interval. */
  ghost function Openings(s: seq<int32>, k: nat): set<int>
    requires k <= |s|
  {
    if k == 0 then {}
    else Openings(s, k - 1) + (if OpensAt(s, k - 1) then {s[k - 1] as int} else {})
  }

  /** One turn of the loop, unfolded. */
  lemma RunStep(s: seq<int32>, k: nat)
    requires 0 < k <= |s|
    ensures var prev := Run(s, k - 1);
      && Run(s, k).cursor == Advance(s[k - 1], prev.cursor)
      && Run(s, k).emitted == prev.emitted + Closed(s[k - 1], prev.cursor) +
           (if k == |s| then Final(Run(s, k).cursor) else [])
  {
  }

  /** The start of an open interval is an index at which an interval was opened. */
  lemma {:induction false} CursorStartOpened(s: seq<int32>, k: nat)
    requires k <= |s|
    ensures Run(s, k).cursor.start >= 0 ==> Run(s, k).cursor.start as int in Openings(s, k)
  {
    if k > 0 {
      CursorStartOpened(s, k - 1);
      RunStep(s, k);
    }
  }

  /** Every interval passed on starts at an index at which an interval was opened. */
  lemma {:induction false} StartsAreOpenings(s: seq<int32>, k: nat)
    requires k <= |s|
    ensures forall iv :: iv in Run(s, k).emitted ==> iv.start as int in Openings(s, k)
  {
    if k > 0 {
      StartsAreOpenings(s, k - 1);
      CursorStartOpened(s, k - 1);
      CursorStartOpened(s, k);
      RunStep(s, k);
      StartsStep(Openings(s, k - 1), Openings(s, k), Run(s, k - 1).emitted,
        Closed(s[k - 1], Run(s, k - 1).cursor), if k == |s| then Final(Run(s, k).cursor) else []);
    }
  }

  /** Starts from earlier turns, from the closed interval and from the final one all lie in the grown set. */
  lemma StartsStep(before: set<int>, after: set<int>, a: seq<Interval>, b: seq<Interval>, c: seq<Interval>)
    requires before <= after
    requires forall iv :: iv in a ==> iv.start as int in before
    requires forall iv :: iv in b ==> iv.start as int in after
    requires forall iv :: iv in c ==> iv.start as int in after
    ensures forall iv :: iv in a + b + c ==> iv.start as int in after
  {
  }

  /**
   * On indices without repeats, an index reached while an interval is
   * open is never an opening index.
   */
  lemma {:induction false} OpenIndexNeverOpens(s: seq<int32>, k: nat, n: nat)
    requires StrictlySorted(s) && k < |s| && n <= |s| && Run(s, k).cursor.start >= 0
    ensures s[k] as int !in Openings(s, n)
  {
    if n > 0 {
      OpenIndexNeverOpens(s, k, n - 1);
      if n - 1 != k {
        assert n - 1 < k ==> s[n - 1] < s[k];
        assert k < n - 1 ==> s[k] < s[n - 1];
      }
    }
  }

  /**
   * An index beyond `end + 1` closes the open interval: the interval is
   * passed on as it stood, no interval is open afterwards, and the index
   * stays in the array unchanged.
   */
  lemma GapClosesInterval(s: seq<int32>, k: nat)
    requires k < |s| && Closes(s[k], Run(s, k).cursor)
    ensures var c := Run(s, k).cursor;
      && Run(s, k + 1).cursor == NO_INTERVAL
      && Run(s, k + 1).emitted == Run(s, k).emitted + [Interval(c.start, c.end)]
      && Run(s, k + 1).written == Run(s, k).written + [s[k]]
  {
  }

  /**
   * On indices without repeats, the index that closes an interval is in
   * none of the intervals passed on: it is never selected.
   */
  lemma GapDropsClosingIndex(s: seq<int32>, k: nat)
    requires StrictlySorted(s) && k < |s| && Closes(s[k], Run(s, k).cursor)
    ensures !Covered(Run(s, |s|).emitted, s[k] as int)
  {
    IntervalsArePoints(s, |s|);
    StartsAreOpenings(s, |s|);
    OpenIndexNeverOpens(s, k, |s|);
    PointsMissValue(Run(s, |s|).emitted, Openings(s, |s|), s[k] as int);
  }

  /** Single-row intervals starting in `starts` cover no value outside it. */
  lemma PointsMissValue(e: seq<Interval>, starts: set<int>, x: int)
    requires forall iv :: iv in e ==> iv.start == iv.end
    requires forall iv :: iv in e ==> iv.start as int in starts
    requires x !in starts
    ensures !Covered(e, x)
  {
    forall i | 0 <= i < |e| ensures !(e[i].start <= x <= e[i].end) {
      assert e[i] in e;
    }
  }

  /** After a gap closes an interval, the next index opens a new one on itself and is kept in the array. */
  lemma GapThenReopen(s: seq<int32>, k: nat)
    requires k + 1 < |s| && Closes(s[k], Run(s, k).cursor)
    ensures Run(s, k + 2).cursor == Cursor(s[k + 1], s[k + 1])
    ensures |Run(s, k + 2).written| == k + 2 && Run(s, k + 2).written[k + 1] == s[k + 1]
  {
    WrittenLength(s, k + 1);
  }

  /**
   * An index within `end + 1` of the open interval (adjacent, or a
   * repeat) leaves the interval as it stood, so `end` never grows, and is
   * overwritten with `end` in the caller's array.
   */
  lemma ContinuingIndexOverwritten(s: seq<int32>, k: nat)
    requires k < |s|
    requires Run(s, k).cursor.start >= 0 && !Closes(s[k], Run(s, k).cursor)
    ensures Run(s, k + 1).cursor == Run(s, k).cursor
    ensures |Run(s, |s|).written| == |s| && Run(s, |s|).written[k] == Run(s, k).cursor.end
  {
    WrittenLength(s, k);
    WrittenPrefix(s, k + 1, |s|);
    assert Run(s, |s|).written[k] == Run(s, k + 1).written[k];
  }

  /* ---------------------------------------------------------------- */
  /* What the loop is meant to do                                      */
  /* ---------------------------------------------------------------- */

  /** `x` lies in one of the intervals. */
  predicate Covered(intervals: seq<Interval>, x: int) {
    exists k :: 0 <= k < |intervals| && intervals[k].start <= x <= intervals[k].end
  }

  /**
   * The maximal runs of consecutive indices, continuing the run
   * `[start, end]` over the remaining sorted indices `s`.
   */
  function RunsFrom(s: seq<int32>, start: int32, end: int32): seq<Interval>
  {
    if s == [] then [Interval(start, end)]
    else if s[0] <= end + 1 then RunsFrom(s[1..], start, if s[0] > end then s[0] else end)
    else [Interval(start, end)] + RunsFrom(s[1..], s[0], s[0])
  }

  /** One selection interval per maximal run of consecutive indices. */
  function SelectionRuns(index: seq<int32>): seq<Interval> {
    var s := SortInts(index);
    if s == [] then [] else RunsFrom(s[1..], s[0], s[0])
  }

  lemma {:induction false} RunsFromCover(s: seq<int32>, start: int32, end: int32, x: int)
    requires Sorted(s) && start <= end
    requires s != [] ==> end <= s[0]
    ensures Covered(RunsFrom(s, start, end), x) <==> (start <= x <= end || x in s)
  {
    var r := RunsFrom(s, start, end);
    if s == [] {
      assert r == [Interval(start, end)] + [];
      CoveredCons(Interval(start, end), [], x);
    } else if s[0] <= end + 1 {
      var end' := if s[0] > end then s[0] else end;
      RunsFromCover(s[1..], start, end', x);
      assert s == [s[0]] + s[1..];
    } else {
      RunsFromCover(s[1..], s[0], s[0], x);
      var rest := RunsFrom(s[1..], s[0], s[0]);
      assert r == [Interval(start, end)] + rest;
      assert s == [s[0]] + s[1..];
      CoveredCons(Interval(start, end), rest, x);
    }
  }

  /** An interval in front covers what it covers, besides what the rest covers. */
  lemma CoveredCons(iv: Interval, rest: seq<Interval>, x: int)
    ensures Covered([iv] + rest, x) <==> (iv.start <= x <= iv.end || Covered(rest, x))
  {
    var r := [iv] + rest;
    if Covered(rest, x) {
      var k :| 0 <= k < |rest| && rest[k].start <= x <= rest[k].end;
      assert r[k + 1] == rest[k];
    }
    if iv.start <= x <= iv.end {
      assert r[0] == iv;
    }
    if Covered(r, x) && !(iv.start <= x <= iv.end) {
      var k :| 0 <= k < |r| && r[k].start <= x <= r[k].end;
      assert k > 0;
      assert rest[k - 1] == r[k];
    }
  }

  /** The runs cover exactly the given indices: every one of them and nothing else. */
  lemma SelectionRunsCoverExactly(index: seq<int32>, x: int)
    ensures Covered(SelectionRuns(index), x) <==> x in index
  {
    var s := SortInts(index);
    SortIntsSorted(index);
    SortIntsPermutes(index);
    assert x in index <==> x in multiset(s);
    if s != [] {
      RunsFromCover(s[1..], s[0], s[0], x);
      assert s == [s[0]] + s[1..];
    }
  }

  /* ---------------------------------------------------------------- */
  /* The table's selection, as a set of rows                           */
  /* ---------------------------------------------------------------- */

  /** The rows `lo` to `hi`. */
  function RowRange(lo: int, hi: int): (r: set<int>)
    ensures forall x :: x in r <==> lo <= x <= hi
    decreases hi - lo
  {
    if lo > hi then {} else {lo} + RowRange(lo + 1, hi)
  }

  /** The rows `start` to `end` of one interval. */
  function Rows(iv: Interval): (r: set<int>)
    ensures forall x :: x in r <==> iv.start <= x <= iv.end
  {
    RowRange(iv.start, iv.end)
  }

  /**
   * `setRowSelectionInterval` for each interval in turn: every call
   * replaces the selection with the rows of its interval.
   */
  function SetIntervals(selection: set<int>, intervals: seq<Interval>): set<int>
    decreases intervals
  {
    if intervals == [] then selection
    else SetIntervals(Rows(intervals[0]), intervals[1..])
  }

  /**
   * `addRowSelectionInterval` for each interval in turn: every call adds
   * the rows of its interval to the selection.
   */
  function AddIntervals(selection: set<int>, intervals: seq<Interval>): set<int>
    decreases intervals
  {
    if intervals == [] then selection
    else AddIntervals(selection + Rows(intervals[0]), intervals[1..])
  }

  /** Replacing the selection interval by interval leaves only the last interval's rows. */
  lemma {:induction false} SetIntervalsKeepsLast(selection: set<int>, intervals: seq<Interval>)
    ensures intervals == [] ==> SetIntervals(selection, intervals) == selection
    ensures intervals != [] ==> SetIntervals(selection, intervals) == Rows(intervals[|intervals| - 1])
    decreases intervals
  {
    if intervals != [] {
      SetIntervalsKeepsLast(Rows(intervals[0]), intervals[1..]);
    }
  }

  /** Adding interval by interval selects what was selected and every covered row. */
  lemma {:induction false} AddIntervalsCovered(selection: set<int>, intervals: seq<Interval>, x: int)
    ensures x in AddIntervals(selection, intervals) <==> x in selection || Covered(intervals, x)
    decreases intervals
  {
    if intervals != [] {
      AddIntervalsCovered(selection + Rows(intervals[0]), intervals[1..], x);
      assert intervals == [intervals[0]] + intervals[1..];
      CoveredCons(intervals[0], intervals[1..], x);
    }
  }

  /** Adding one more interval adds its rows. */
  lemma {:induction false} AddIntervalsSnoc(selection: set<int>, intervals: seq<Interval>, iv: Interval)
    ensures AddIntervals(selection, intervals + [iv]) == AddIntervals(selection, intervals) + Rows(iv)
    decreases intervals
  {
    if intervals == [] {
      assert AddIntervals(selection + Rows(iv), []) == selection + Rows(iv);
    } else {
      assert (intervals + [iv])[1..] == intervals[1..] + [iv];
      AddIntervalsSnoc(selection + Rows(intervals[0]), intervals[1..], iv);
    }
  }

  /**
   * Clearing the selection and then adding the runs selects every given
   * row and nothing else.
   */
  lemma RunsSelectExactly(index: seq<int32>)
    ensures AddIntervals({}, SelectionRuns(index)) == set x: int | x in index
  {
    forall x: int
      ensures x in AddIntervals({}, SelectionRuns(index)) <==> x in index
    {
      AddIntervalsCovered({}, SelectionRuns(index), x);
      SelectionRunsCoverExactly(index, x);
    }
  }

  /**
   * Setting the runs one after the other, as `setRowSelectionInterval`
   * does, keeps only the last run: rows [1, 2, 5] end with row 5 alone.
   */
  lemma RunsReplacedKeepLast()
    ensures SelectionRuns([1, 2, 5]) == [Interval(1, 2), Interval(5, 5)]
    ensures SetIntervals({}, SelectionRuns([1, 2, 5])) == {5}
    ensures AddIntervals({}, SelectionRuns([1, 2, 5])) == {1, 2, 5}
  {
    SortIntsOfSorted([1, 2, 5]);
    assert [1, 2, 5][1..] == [2, 5] && [2, 5][1..] == [5] && [5][1..] == [];
    var runs := [Interval(1, 2), Interval(5, 5)];
    SetIntervalsKeepsLast({}, runs);
    assert Rows(Interval(5, 5)) == {5};
    RunsSelectExactly([1, 2, 5]);
  }

  /**
   * `setSelectedRows` as intended: sorts `index` in place, clears the
   * selection, then adds one interval per maximal run of consecutive
   * indices with `addRowSelectionInterval`, extending the open interval
   * instead of overwriting the array, and comparing without 32-bit
   * wrap-around. The selection it leaves is exactly the given rows.
   */
  method SelectRowRuns(index: array<int32>) returns (intervals: seq<Interval>, selection: set<int>)
    modifies index
    ensures intervals == SelectionRuns(old(index[..]))
    ensures selection == AddIntervals({}, intervals)
    ensures selection == set x: int | x in old(index[..])
    ensures index[..] == SortInts(old(index[..]))
  {
    ghost var given := index[..];
    SortInPlace(index);
    ghost var sorted := index[..];
    selection := {};
    if index.Length == 0 {
      intervals := [];
      RunsSelectExactly(given);
      return;
    }
    var start := index[0];
    var end := index[0];
    intervals := [];
    assert sorted[1..] == index[1..];
    for i := 1 to index.Length
      invariant index[..] == sorted
      invariant intervals + RunsFrom(sorted[i..], start, end) == SelectionRuns(given)
      invariant selection == AddIntervals({}, intervals)
    {
      ghost var rest := sorted[i..];
      assert rest[0] == index[i] && rest[1..] == sorted[i + 1..];
      if index[i] as int > end as int + 1 {
        assert RunsFrom(rest, start, end) == [Interval(start, end)] + RunsFrom(sorted[i + 1..], index[i], index[i]);
        AddIntervalsSnoc({}, intervals, Interval(start, end));
        intervals := intervals + [Interval(start, end)];
        selection := selection + Rows(Interval(start, end));
        start := index[i];
        end := index[i];
      } else if index[i] > end {
        end := index[i];
      }
    }
    assert sorted[index.Length..] == [];
    AddIntervalsSnoc({}, intervals, Interval(start, end));
    intervals := intervals + [Interval(start, end)];
    selection := selection + Rows(Interval(start, end));
    RunsSelectExactly(given);
  }

  /** For the two adjacent rows the runs cover both, where the loop as written passes on one. */
  lemma AdjacentRowsRun()
    ensures SelectionRuns([1, 2]) == [Interval(1, 2)]
    ensures !Covered(SelectedIntervals([1, 2]).emitted, 2)
  {
    SortIntsOfSorted([1, 2]);
    assert [1, 2][1..] == [2] && [2][1..] == [];
    AdjacentRowsCollapse();
  }
}
