/** The two interval sweeps of event replay and what they compute, instant by instant. */
module Intervals {
  import opened Basics

  /** The half-open time span [left, right), in microseconds. */
  datatype Span = Span(left: int, right: int)
  {
    predicate Holds(t: int) { left <= t < right }

    function Length(): int { right - left }
  }

  /** How many spans contain the instant `t`. */
  function Count(spans: seq<Span>, t: int): nat {
    if spans == [] then 0 else (if spans[0].Holds(t) then 1 else 0) + Count(spans[1..], t)
  }

  function TotalLength(spans: seq<Span>): int {
    if spans == [] then 0 else spans[0].Length() + TotalLength(spans[1..])
  }

  lemma {:induction false} CountAppend(a: seq<Span>, b: seq<Span>, t: int)
    ensures Count(a + b, t) == Count(a, t) + Count(b, t)
  {
    if a == [] {
      assert a + b == b;
    } else {
      CountAppend(a[1..], b, t);
      assert (a + b)[1..] == a[1..] + b;
    }
  }

  lemma {:induction false} TotalLengthAppend(a: seq<Span>, b: seq<Span>)
    ensures TotalLength(a + b) == TotalLength(a) + TotalLength(b)
  {
    if a == [] {
      assert a + b == b;
    } else {
      TotalLengthAppend(a[1..], b);
      assert (a + b)[1..] == a[1..] + b;
    }
  }

  /** Every span runs forward and lies in [a, b]. */
  predicate Within(spans: seq<Span>, a: int, b: int) {
    forall i | 0 <= i < |spans| :: a <= spans[i].left <= spans[i].right <= b
  }

  /** Spans run forward, one after the other. */
  predicate Ordered(spans: seq<Span>) {
    && (forall i | 0 <= i < |spans| :: spans[i].left <= spans[i].right)
    && forall i, j | 0 <= i < j < |spans| :: spans[i].right <= spans[j].left
  }

  lemma {:induction false} OrderedCount(spans: seq<Span>, t: int)
    requires Ordered(spans)
    ensures Count(spans, t) <= 1
    ensures spans != [] && t < spans[0].left ==> Count(spans, t) == 0
  {
    if spans != [] {
      OrderedCount(spans[1..], t);
    }
  }

  lemma {:induction false} OutsideCount(spans: seq<Span>, a: int, b: int, t: int)
    requires Within(spans, a, b) && !(a <= t < b)
    ensures Count(spans, t) == 0
  {
    if spans != [] {
      OutsideCount(spans[1..], a, b, t);
    }
  }

  predicate Forward(spans: seq<Span>) { forall i | 0 <= i < |spans| :: spans[i].left <= spans[i].right }

  // ---- Sorting ----

  predicate Before(x: Span, y: Span) { x.left < y.left || (x.left == y.left && x.right <= y.right) }

  predicate Sorted(spans: seq<Span>) { forall i, j | 0 <= i < j < |spans| :: Before(spans[i], spans[j]) }

  function Insert(spans: seq<Span>, s: Span): (r: seq<Span>)
    ensures |r| == |spans| + 1
  {
    if spans == [] then [s] else if Before(spans[0], s) then [spans[0]] + Insert(spans[1..], s) else [s] + spans
  }

  /** The library sort on pairs. */
  function Sort(spans: seq<Span>): seq<Span> {
    if spans == [] then [] else Insert(Sort(spans[..|spans| - 1]), spans[|spans| - 1])
  }

  lemma {:induction false} InsertCount(spans: seq<Span>, s: Span, t: int)
    ensures Count(Insert(spans, s), t) == Count(spans, t) + if s.Holds(t) then 1 else 0
  {
    if spans != [] && Before(spans[0], s) {
      InsertCount(spans[1..], s, t);
      assert ([spans[0]] + Insert(spans[1..], s))[1..] == Insert(spans[1..], s);
    } else {
      assert ([s] + spans)[1..] == spans;
    }
  }

  lemma {:induction false} InsertElements(spans: seq<Span>, s: Span)
    ensures multiset(Insert(spans, s)) == multiset(spans) + multiset{s}
  {
    if spans != [] && Before(spans[0], s) {
      InsertElements(spans[1..], s);
      assert spans == [spans[0]] + spans[1..];
    }
  }

  lemma {:induction false} InsertSorted(spans: seq<Span>, s: Span)
    requires Sorted(spans)
    ensures Sorted(Insert(spans, s))
  {
    if spans != [] && Before(spans[0], s) {
      InsertSorted(spans[1..], s);
      InsertElements(spans[1..], s);
      var r := Insert(spans[1..], s);
      forall i | 0 <= i < |r|
        ensures Before(spans[0], r[i])
      {
        assert r[i] in multiset(r);
        assert r[i] in spans[1..] || r[i] == s;
      }
    }
  }

  /** Sorting keeps every span and so every count. */
  lemma {:induction false} SortKeeps(spans: seq<Span>)
    ensures multiset(Sort(spans)) == multiset(spans) && Sorted(Sort(spans))
    ensures forall t :: Count(Sort(spans), t) == Count(spans, t)
  {
    hide Insert, Count, Sorted;
    if spans == [] {
      NothingSorted();
    } else {
      var n := |spans| - 1;
      SortKeeps(spans[..n]);
      InsertElements(Sort(spans[..n]), spans[n]);
      InsertSorted(Sort(spans[..n]), spans[n]);
      assert spans == spans[..n] + [spans[n]];
      forall t
        ensures Count(Sort(spans), t) == Count(spans, t)
      {
        InsertCount(Sort(spans[..n]), spans[n], t);
        CountLast(spans, t);
      }
    }
  }

  lemma NothingSorted()
    ensures Sorted([]) && multiset(Sort([])) == multiset{}
  {
  }

  lemma CountLast(spans: seq<Span>, t: int)
    requires spans != []
    ensures Count(spans, t) == Count(spans[..|spans| - 1], t) + if spans[|spans| - 1].Holds(t) then 1 else 0
  {
    var n := |spans| - 1;
    assert spans == spans[..n] + [spans[n]];
    CountAppend(spans[..n], [spans[n]], t);
  }

  lemma {:induction false} InsertLast(spans: seq<Span>, s: Span)
    requires Sorted(spans + [s])
    ensures Insert(spans, s) == spans + [s]
  {
    if spans != [] {
      assert (spans + [s])[0] == spans[0] && (spans + [s])[|spans|] == s;
      assert Sorted(spans[1..] + [s]) by {
        assert spans[1..] + [s] == (spans + [s])[1..];
      }
      InsertLast(spans[1..], s);
    }
  }

  lemma {:induction false} SortSorted(spans: seq<Span>)
    requires Sorted(spans)
    ensures Sort(spans) == spans
  {
    if spans != [] {
      var n := |spans| - 1;
      assert spans == spans[..n] + [spans[n]];
      SortSorted(spans[..n]);
      InsertLast(spans[..n], spans[n]);
    }
  }

  // ---- The uncovered rest of a window ----

  /** The sweep from `cursor` over sorted spans. */
  function Holes(cursor: int, start: int, end: int, spans: seq<Span>): seq<Span>
    decreases |spans|
  {
    if spans == [] then (if cursor < end then [Span(cursor, end)] else [])
    else
      var (left, right) := (MaxInt(spans[0].left, start), MinInt(spans[0].right, end));
      (if left > cursor then [Span(cursor, left)] else []) + Holes(MaxInt(cursor, right), start, end, spans[1..])
  }

  function RemainingOf(start: int, end: int, spans: seq<Span>): seq<Span> {
    Holes(start, start, end, Sort(spans))
  }

  method Remaining(start: int, end: int, intervals: seq<Span>) returns (result: seq<Span>)
    ensures result == RemainingOf(start, end, intervals)
  {
    result := [];
    var cursor := start;
    var sorted := Sort(intervals);
    for i := 0 to |sorted|
      invariant result + Holes(cursor, start, end, sorted[i..]) == RemainingOf(start, end, intervals)
    {
      var left, right := MaxInt(sorted[i].left, start), MinInt(sorted[i].right, end);
      assert sorted[i..][1..] == sorted[i + 1..];
      if left > cursor {
        result := result + [Span(cursor, left)];
      }
      cursor := MaxInt(cursor, right);
    }
    if cursor < end {
      result := result + [Span(cursor, end)];
    }
  }

  lemma {:induction false} HolesAreTheRest(cursor: int, start: int, end: int, spans: seq<Span>, t: int)
    requires start <= cursor <= end && Sorted(spans)
    requires forall i | 0 <= i < |spans| :: spans[i].left <= spans[i].right && spans[i].left <= end
    requires start <= t < end
    ensures Count(Holes(cursor, start, end, spans), t) == if cursor <= t && Count(spans, t) == 0 then 1 else 0
    decreases |spans|
  {
    if spans != [] {
      var (left, right) := (MaxInt(spans[0].left, start), MinInt(spans[0].right, end));
      HolesAreTheRest(MaxInt(cursor, right), start, end, spans[1..], t);
      var head := if left > cursor then [Span(cursor, left)] else [];
      CountAppend(head, Holes(MaxInt(cursor, right), start, end, spans[1..]), t);
      if t < left {
        NotYet(spans, t);
      }
    }
  }

  lemma {:induction false} NotYet(spans: seq<Span>, t: int)
    requires forall i | 0 <= i < |spans| :: t < spans[i].left
    ensures Count(spans, t) == 0
  {
    if spans != [] {
      NotYet(spans[1..], t);
    }
  }

  /** No hole reaches past the end. */
  predicate Fit(holes: seq<Span>, end: int) { forall i | 0 <= i < |holes| :: holes[i].right <= end }

  /** Every hole is non-empty, holes follow one another, and none starts before the cursor. */
  predicate Follow(holes: seq<Span>, cursor: int) {
    && (forall i | 0 <= i < |holes| :: cursor <= holes[i].left < holes[i].right)
    && forall i, j | 0 <= i < j < |holes| :: holes[i].right <= holes[j].left
  }

  predicate StartBy(spans: seq<Span>, end: int) { forall i | 0 <= i < |spans| :: spans[i].left <= end }

  /** Holes stay in the window exactly when no span starts past its end. */
  lemma {:induction false} HolesFit(cursor: int, start: int, end: int, spans: seq<Span>)
    requires start <= cursor <= end
    ensures StartBy(spans, end) <==> Fit(Holes(cursor, start, end, spans), end)
    decreases |spans|
  {
    hide Fit, StartBy;
    if spans != [] {
      var (left, right) := (MaxInt(spans[0].left, start), MinInt(spans[0].right, end));
      var head := if left > cursor then [Span(cursor, left)] else [];
      var rest := Holes(MaxInt(cursor, right), start, end, spans[1..]);
      HolesFit(MaxInt(cursor, right), start, end, spans[1..]);
      FitAppend(head, rest, end);
      FitHead(head, end);
      StartBySplit(spans, end);
    } else {
      FitHead(Holes(cursor, start, end, spans), end);
      StartByNothing(end);
    }
  }

  lemma StartByNothing(end: int)
    ensures StartBy([], end)
  {
  }

  lemma FitHead(head: seq<Span>, end: int)
    requires |head| <= 1
    ensures Fit(head, end) <==> (head == [] || head[0].right <= end)
  {
  }

  lemma StartBySplit(spans: seq<Span>, end: int)
    requires spans != []
    ensures StartBy(spans, end) <==> spans[0].left <= end && StartBy(spans[1..], end)
  {
    assert forall i | 0 < i < |spans| :: spans[i] == spans[1..][i - 1];
  }

  lemma FitAppend(a: seq<Span>, b: seq<Span>, end: int)
    ensures Fit(a + b, end) <==> Fit(a, end) && Fit(b, end)
  {
    assert forall i | 0 <= i < |a| :: (a + b)[i] == a[i];
    assert forall i | 0 <= i < |b| :: (a + b)[|a| + i] == b[i];
  }

  lemma FollowHead(hole: Span, rest: seq<Span>, cursor: int)
    requires cursor <= hole.left < hole.right && Follow(rest, hole.right)
    ensures Follow([hole] + rest, cursor)
  {
    var all := [hole] + rest;
    assert forall i | 0 < i < |all| :: all[i] == rest[i - 1];
  }

  lemma FollowLater(holes: seq<Span>, later: int, cursor: int)
    requires Follow(holes, later) && cursor <= later
    ensures Follow(holes, cursor)
  {
  }

  lemma {:induction false} HolesFollow(cursor: int, start: int, end: int, spans: seq<Span>)
    requires Forward(spans) && StartBy(spans, end) && Sorted(spans) && start <= cursor <= end
    ensures Follow(Holes(cursor, start, end, spans), cursor)
    decreases |spans|
  {
    if spans != [] {
      hide Follow, Sorted, Forward, StartBy;
      Tail(spans, end);
      var (left, right) := (MaxInt(spans[0].left, start), MinInt(spans[0].right, end));
      var next := MaxInt(cursor, right);
      var rest := Holes(next, start, end, spans[1..]);
      HolesFollow(next, start, end, spans[1..]);
      if left > cursor {
        FollowLater(rest, next, left);
        FollowHead(Span(cursor, left), rest, cursor);
      } else {
        FollowLater(rest, next, cursor);
        assert [] + rest == rest;
      }
    }
  }

  lemma Tail(spans: seq<Span>, end: int)
    requires spans != [] && Forward(spans) && StartBy(spans, end) && Sorted(spans)
    ensures Forward(spans[1..]) && StartBy(spans[1..], end) && Sorted(spans[1..])
    ensures spans[0].left <= spans[0].right && spans[0].left <= end
  {
  }

  lemma SortKeepsBounds(spans: seq<Span>, end: int)
    ensures StartBy(Sort(spans), end) <==> StartBy(spans, end)
    ensures Forward(Sort(spans)) <==> Forward(spans)
  {
    SortKeeps(spans);
    SameElements(Sort(spans), spans);
  }

  lemma SameElements(a: seq<Span>, b: seq<Span>)
    requires multiset(a) == multiset(b)
    ensures forall i | 0 <= i < |a| :: a[i] in b
    ensures forall i | 0 <= i < |b| :: b[i] in a
  {
    forall i | 0 <= i < |a| ensures a[i] in b { assert a[i] in multiset(a); }
    forall i | 0 <= i < |b| ensures b[i] in a { assert b[i] in multiset(b); }
  }

  /**
   * For intervals that run forward, the remaining intervals stay inside the window exactly when no interval
   * starts past its end; then they are the maximal uncovered stretches, in order, each instant once.
   */
  lemma RemainingIsExact(start: int, end: int, intervals: seq<Span>)
    requires start <= end && Forward(intervals)
    ensures StartBy(intervals, end) <==> Fit(RemainingOf(start, end, intervals), end)
    ensures StartBy(intervals, end) ==>
              && Follow(RemainingOf(start, end, intervals), start)
              && forall t | start <= t < end ::
                   Count(RemainingOf(start, end, intervals), t) == if Count(intervals, t) == 0 then 1 else 0
  {
    SortKeeps(intervals);
    SortKeepsBounds(intervals, end);
    HolesFit(start, start, end, Sort(intervals));
    if StartBy(intervals, end) {
      HolesFollow(start, start, end, Sort(intervals));
      forall t | start <= t < end
        ensures Count(RemainingOf(start, end, intervals), t) == if Count(intervals, t) == 0 then 1 else 0
      {
        HolesAreTheRest(start, start, end, Sort(intervals), t);
      }
    }
  }

  /** One interval past the end is enough to report a hole longer than the window. */
  lemma RemainingCanOverrun()
    ensures RemainingOf(0, 10, [Span(20, 30)]) == [Span(0, 20)]
  {
    assert Sort([Span(20, 30)]) == [Span(20, 30)] by {
      SortSorted([Span(20, 30)]);
    }
    assert Holes(10, 0, 10, []) == [];
    assert Holes(0, 0, 10, [Span(20, 30)]) == [Span(0, 20)] + Holes(10, 0, 10, []);
  }

  // ---- The length of a union ----

  /** The swept length of sorted spans, skipping what lies before `previous`. */
  function Swept(previous: Option<int>, spans: seq<Span>): int
    decreases |spans|
  {
    if spans == [] then 0
    else
      var left := if previous.Some? then MaxInt(spans[0].left, previous.value) else spans[0].left;
      var right := spans[0].right;
      (if right > left then right - left else 0)
      + Swept(Some(if previous.Some? then MaxInt(previous.value, right) else right), spans[1..])
  }

  method Duration(intervals: seq<Span>) returns (total: int)
    ensures total == Swept(None, Sort(intervals))
  {
    total := 0;
    var previous := None;
    var sorted := Sort(intervals);
    for i := 0 to |sorted|
      invariant total + Swept(previous, sorted[i..]) == Swept(None, sorted)
    {
      var left, right := sorted[i].left, sorted[i].right;
      assert sorted[i..][1..] == sorted[i + 1..];
      if previous.Some? {
        left := MaxInt(left, previous.value);
      }
      if right > left {
        total := total + (right - left);
      }
      previous := Some(if previous.Some? then MaxInt(previous.value, right) else right);
    }
  }

  /** How many instants of [a, b) lie in some span. */
  function Measure(spans: seq<Span>, a: int, b: int): int
    decreases b - a
  {
    if a >= b then 0 else (if Count(spans, a) > 0 then 1 else 0) + Measure(spans, a + 1, b)
  }

  lemma {:induction false} MeasureSplit(spans: seq<Span>, a: int, m: int, b: int)
    requires a <= m <= b
    ensures Measure(spans, a, b) == Measure(spans, a, m) + Measure(spans, m, b)
    decreases m - a
  {
    if a < m {
      MeasureSplit(spans, a + 1, m, b);
    }
  }

  lemma {:induction false} MeasureConstant(spans: seq<Span>, a: int, b: int, inside: bool)
    requires a <= b && forall t | a <= t < b :: (Count(spans, t) > 0) == inside
    ensures Measure(spans, a, b) == if inside then b - a else 0
    decreases b - a
  {
    if a < b {
      MeasureConstant(spans, a + 1, b, inside);
    }
  }

  lemma {:induction false} MeasureSame(x: seq<Span>, y: seq<Span>, a: int, b: int)
    requires forall t | a <= t < b :: (Count(x, t) > 0) == (Count(y, t) > 0)
    ensures Measure(x, a, b) == Measure(y, a, b)
    decreases b - a
  {
    if a < b {
      MeasureSame(x, y, a + 1, b);
    }
  }

  lemma {:induction false} SweptIsMeasure(previous: int, spans: seq<Span>, b: int)
    requires Sorted(spans) && Forward(spans) && previous <= b
    requires forall i | 0 <= i < |spans| :: spans[i].right <= b
    ensures Swept(Some(previous), spans) == Measure(spans, previous, b)
    decreases |spans|
  {
    if spans == [] {
      MeasureConstant(spans, previous, b, false);
    } else {
      var (left, right) := (MaxInt(spans[0].left, previous), MaxInt(previous, spans[0].right));
      SweptIsMeasure(right, spans[1..], b);
      var middle := MinInt(left, right);
      MeasureSplit(spans, previous, right, b);
      MeasureSplit(spans, previous, middle, right);
      forall t | previous <= t < middle
        ensures Count(spans, t) == 0
      {
        NotYet(spans, t);
      }
      MeasureConstant(spans, previous, middle, false);
      MeasureConstant(spans, middle, right, true);
      MeasureSame(spans, spans[1..], right, b);
    }
  }

  /** The duration of any forward intervals is the length of their union: overlaps count once. */
  lemma DurationIsMeasure(intervals: seq<Span>, a: int, b: int)
    requires Within(intervals, a, b) && a <= b
    ensures Swept(None, Sort(intervals)) == Measure(intervals, a, b)
  {
    var sorted := Sort(intervals);
    SortKeeps(intervals);
    SameElements(sorted, intervals);
    SweptIsMeasure(a, sorted, b);
    SweptFrom(a, sorted);
    MeasureSame(sorted, intervals, a, b);
  }

  lemma SweptFrom(a: int, spans: seq<Span>)
    requires spans != [] ==> a <= spans[0].left <= spans[0].right
    ensures Swept(None, spans) == Swept(Some(a), spans)
  {
    if spans != [] {
      assert MaxInt(spans[0].left, a) == spans[0].left && MaxInt(a, spans[0].right) == spans[0].right;
    }
  }

  /** When no instant lies in two spans, the measure is the total length. */
  lemma {:induction false} DisjointMeasure(spans: seq<Span>, a: int, b: int)
    requires Within(spans, a, b) && a <= b && forall t | a <= t < b :: Count(spans, t) <= 1
    ensures Measure(spans, a, b) == TotalLength(spans)
    decreases |spans|
  {
    if spans == [] {
      MeasureConstant(spans, a, b, false);
    } else {
      var s := spans[0];
      forall t | a <= t < b
        ensures Count(spans[1..], t) <= 1 && (s.Holds(t) ==> Count(spans[1..], t) == 0)
      {
        assert Count(spans, t) <= 1;
      }
      DisjointMeasure(spans[1..], a, b);
      MeasureSplit(spans, a, s.left, b);
      MeasureSplit(spans, s.left, s.right, b);
      MeasureSplit(spans[1..], a, s.left, b);
      MeasureSplit(spans[1..], s.left, s.right, b);
      MeasureSame(spans, spans[1..], a, s.left);
      MeasureSame(spans, spans[1..], s.right, b);
      MeasureConstant(spans, s.left, s.right, true);
      MeasureConstant(spans[1..], s.left, s.right, false);
    }
  }
}
