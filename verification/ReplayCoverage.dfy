/** Every instant of a replayed window is accounted for exactly once. */
module ReplayCoverage {
  import opened Basics
  import opened Intervals
  import opened ReplayModel
  import opened ReplayResolver

  /** Covered spans and unavailable intervals of `o` tile [a, b): each instant lies in exactly one of them. */
  ghost predicate Tiles(o: Outcome, a: int, b: int) {
    && Within(o.covered, a, b) && Within(SpansOf(o.unavailable), a, b)
    && Ordered(o.covered)
    && forall t | a <= t < b :: Count(o.covered, t) + Count(SpansOf(o.unavailable), t) == 1
  }

  lemma SpansOfAppend(a: seq<Unavailable>, b: seq<Unavailable>)
    ensures SpansOf(a + b) == SpansOf(a) + SpansOf(b)
  {
  }

  lemma WithinAppend(x: seq<Span>, y: seq<Span>, a: int, b: int)
    requires Within(x, a, b) && Within(y, a, b)
    ensures Within(x + y, a, b)
  {
  }

  lemma OrderedAppend(x: seq<Span>, y: seq<Span>, m: int)
    requires Ordered(x) && Ordered(y)
    requires (forall i | 0 <= i < |x| :: x[i].right <= m) && forall i | 0 <= i < |y| :: m <= y[i].left
    ensures Ordered(x + y)
  {
  }

  /** Tilings of adjacent segments tile their union. */
  lemma TilesJoin(x: Outcome, a: int, m: int, y: Outcome, b: int)
    requires Tiles(x, a, m) && Tiles(y, m, b) && a <= m <= b
    ensures Tiles(Join(x, y), a, b)
  {
    var (ux, uy) := (SpansOf(x.unavailable), SpansOf(y.unavailable));
    SpansOfAppend(x.unavailable, y.unavailable);
    OrderedAppend(x.covered, y.covered, m);
    forall t | a <= t < b
      ensures Count(x.covered + y.covered, t) + Count(ux + uy, t) == 1
    {
      CountAppend(x.covered, y.covered, t);
      CountAppend(ux, uy, t);
      if t < m {
        OutsideCount(y.covered, m, b, t);
        OutsideCount(uy, m, b, t);
      } else {
        OutsideCount(x.covered, a, m, t);
        OutsideCount(ux, a, m, t);
      }
    }
  }

  predicate EndsBy(spans: seq<Span>, m: int) { forall i | 0 <= i < |spans| :: spans[i].right <= m }

  /** At most one span, inside the window and inside [l, r]. */
  predicate OneIn(one: seq<Span>, a: int, b: int, l: int, r: int) {
    one == [] || (|one| == 1 && a <= one[0].left <= one[0].right <= b && l <= one[0].left && one[0].right <= r)
  }

  lemma ShapeAppends(x: seq<Span>, one: seq<Span>, a: int, b: int, l: int, r: int)
    requires Within(x, a, b) && Ordered(x) && EndsBy(x, l) && OneIn(one, a, b, l, r) && l <= r
    ensures Within(x + one, a, b) && Ordered(x + one) && EndsBy(x + one, r)
  {
    WithinAppend(x, one, a, b);
    OrderedAppend(x, one, l);
    assert forall i | 0 <= i < |x| :: x[i].right <= r;
  }

  lemma ShapeOfNothing(a: int, b: int, m: int, gaps: seq<Span>)
    ensures Within([], a, b) && Ordered([]) && EndsBy([], m) && Clear([], gaps)
  {
  }

  lemma OneGapShape(gap: Gap, a: int, b: int)
    requires gap.span.left <= gap.span.right && a <= b
    ensures OneIn(SpansOf(GapIn(gap, a, b)), a, b, gap.span.left, gap.span.right)
  {
  }

  lemma EndsLater(spans: seq<Span>, m: int, n: int)
    requires EndsBy(spans, m) && m <= n
    ensures EndsBy(spans, n)
  {
  }

  lemma {:induction false} GapsShape(gaps: seq<Gap>, a: int, b: int)
    requires GapsOrdered(gaps) && a <= b
    ensures Within(SpansOf(GapsIn(gaps, a, b)), a, b) && Ordered(SpansOf(GapsIn(gaps, a, b)))
    ensures gaps != [] ==> EndsBy(SpansOf(GapsIn(gaps, a, b)), gaps[|gaps| - 1].span.right)
  {
    hide Within, Ordered, EndsBy, OneIn, GapIn, SpansOf;
    ShapeOfNothing(a, b, if gaps == [] then 0 else gaps[0].span.left, []);
    if gaps == [] {
      NoSpans();
    } else {
      var n := |gaps| - 1;
      var last := gaps[n].span;
      GapsShape(gaps[..n], a, b);
      var x := GapsIn(gaps[..n], a, b);
      SpansOfAppend(x, GapIn(gaps[n], a, b));
      OneGapShape(gaps[n], a, b);
      if n == 0 {
        NoSpans();
      } else {
        EndsLater(SpansOf(x), gaps[n - 1].span.right, last.left);
      }
      ShapeAppends(SpansOf(x), SpansOf(GapIn(gaps[n], a, b)), a, b, last.left, last.right);
    }
  }

  lemma NoSpans()
    ensures SpansOf([]) == []
  {
  }

  /** What a covered span of a live day satisfies. */
  ghost predicate Clear(covered: seq<Span>, gaps: seq<Span>) {
    forall i | 0 <= i < |covered| :: covered[i].left < covered[i].right && !Conflicts(gaps, covered[i])
  }

  lemma ClearAppends(x: seq<Span>, one: seq<Span>, gaps: seq<Span>)
    requires Clear(x, gaps) && Clear(one, gaps)
    ensures Clear(x + one, gaps)
  {
    hide Conflicts;
  }

  lemma OneShape(day: Day, path: string, v: Available, a: int, b: int, to: int, gaps: seq<Span>)
    requires v.span.left <= v.span.right && to <= b
    ensures var c := AvailableIn(day, path, v, a, b, to, gaps).covered;
            OneIn(c, a, b, v.span.left, v.span.right) && Clear(c, gaps)
  {
    hide Conflicts;
  }

  lemma {:induction false} AvailableShape(
    day: Day, path: string, available: seq<Available>, a: int, b: int, to: int, gaps: seq<Span>)
    requires AvailableOrdered(available) && to <= b
    ensures var c := AvailableAll(day, path, available, a, b, to, gaps).covered;
            && Within(c, a, b) && Ordered(c) && Clear(c, gaps)
            && (available != [] ==> EndsBy(c, available[|available| - 1].span.right))
  {
    hide AvailableIn, Conflicts, Within, Ordered, Clear, EndsBy, OneIn;
    ShapeOfNothing(a, b, if available == [] then 0 else available[0].span.left, gaps);
    if available != [] {
      var n := |available| - 1;
      var last := available[n].span;
      AvailableShape(day, path, available[..n], a, b, to, gaps);
      OneShape(day, path, available[n], a, b, to, gaps);
      var (x, y) := (AvailableAll(day, path, available[..n], a, b, to, gaps).covered,
                     AvailableIn(day, path, available[n], a, b, to, gaps).covered);
      if n > 0 {
        EndsLater(x, available[n - 1].span.right, last.left);
      }
      ShapeAppends(x, y, a, b, last.left, last.right);
      ClearAppends(x, y, gaps);
    }
  }

  lemma {:induction false} CountPositive(spans: seq<Span>, t: int)
    ensures Count(spans, t) > 0 <==> exists i :: 0 <= i < |spans| && spans[i].Holds(t)
  {
    if spans != [] {
      CountPositive(spans[1..], t);
      if i :| 0 <= i < |spans| && spans[i].Holds(t) {
        assert i > 0 ==> spans[1..][i - 1].Holds(t);
      }
    }
  }

  lemma ClearIsDisjoint(covered: seq<Span>, gaps: seq<Span>, t: int)
    requires Clear(covered, gaps) && Count(covered, t) > 0
    ensures Count(gaps, t) == 0
  {
    CountPositive(covered, t);
    CountPositive(gaps, t);
    var i :| 0 <= i < |covered| && covered[i].Holds(t);
    assert !Conflicts(gaps, covered[i]);
  }

  lemma {:induction false} HolesSpans(day: Day, holes: seq<Span>)
    requires Forward(holes)
    ensures SpansOf(HolesIn(day, holes)) == holes
  {
    hide HoleReason;
    if holes != [] {
      var n := |holes| - 1;
      HolesSpans(day, holes[..n]);
      assert holes == holes[..n] + [holes[n]];
      SpansOfAppend(HolesIn(day, holes[..n]), Missed(holes[n], Unconfirmed, HoleReason(day, holes[n])));
    }
  }

  /** Covered spans, gaps and the holes left between them count every instant once. */
  lemma HolesComplete(c: seq<Span>, g: seq<Span>, holes: seq<Span>, t: int)
    requires Ordered(c) && Ordered(g) && Clear(c, g)
    requires Count(holes, t) == if Count(c + g, t) == 0 then 1 else 0
    ensures Count(c, t) + Count(g + holes, t) == 1
  {
    hide Count, Ordered, Clear;
    CountAppend(c, g, t);
    CountAppend(g, holes, t);
    OrderedCount(c, t);
    OrderedCount(g, t);
    if Count(c, t) > 0 {
      ClearIsDisjoint(c, g, t);
    }
  }

  /** What remains beside spans inside the window lies inside it, runs forward and counts what they do not. */
  lemma RestIsWithin(spans: seq<Span>, a: int, b: int)
    requires Within(spans, a, b) && a <= b
    ensures Within(RemainingOf(a, b, spans), a, b) && Forward(RemainingOf(a, b, spans))
    ensures forall t | a <= t < b :: Count(RemainingOf(a, b, spans), t) == if Count(spans, t) == 0 then 1 else 0
  {
    hide RemainingOf, Count;
    RemainingIsExact(a, b, spans);
  }

  lemma LiveCovered(day: Day, a: int, b: int)
    requires day.Valid() && a < b
    ensures var (c, g) := (LiveOutcome(day, a, b).covered, SpansOf(GapsIn(day.gaps, a, b)));
            Within(c, a, b) && Ordered(c) && Clear(c, g) && Within(g, a, b) && Ordered(g)
  {
    hide AvailableAll, GapsIn, RemainingOf, Clear, Within, Ordered, SpansOf;
    var g := SpansOf(GapsIn(day.gaps, a, b));
    GapsShape(day.gaps, a, b);
    if day.Playable() {
      AvailableShape(day, day.path.value, day.available, a, b, AvailableTo(day, b), g);
    } else {
      ShapeOfNothing(a, b, a, g);
    }
  }

  lemma LiveUnavailable(day: Day, a: int, b: int)
    requires Forward(RemainingOf(a, b, LiveOutcome(day, a, b).covered + SpansOf(GapsIn(day.gaps, a, b))))
    ensures var (c, g) := (LiveOutcome(day, a, b).covered, SpansOf(GapsIn(day.gaps, a, b)));
            SpansOf(LiveOutcome(day, a, b).unavailable) == g + RemainingOf(a, b, c + g)
  {
    hide AvailableAll, GapsIn, RemainingOf, SpansOf, HolesIn, Forward;
    var gaps := GapsIn(day.gaps, a, b);
    var holes := RemainingOf(a, b, LiveOutcome(day, a, b).covered + SpansOf(gaps));
    HolesSpans(day, holes);
    SpansOfAppend(gaps, HolesIn(day, holes));
  }

  lemma LiveTiles(day: Day, a: int, b: int)
    requires day.Valid() && a < b
    ensures Tiles(LiveOutcome(day, a, b), a, b)
  {
    hide LiveOutcome, GapsIn, SpansOf, RemainingOf, Clear, Within, Ordered, Count, Forward;
    LiveCovered(day, a, b);
    var (c, g) := (LiveOutcome(day, a, b).covered, SpansOf(GapsIn(day.gaps, a, b)));
    WithinAppend(c, g, a, b);
    RestIsWithin(c + g, a, b);
    LiveUnavailable(day, a, b);
    var holes := RemainingOf(a, b, c + g);
    WithinAppend(g, holes, a, b);
    forall t | a <= t < b
      ensures Count(c, t) + Count(g + holes, t) == 1
    {
      HolesComplete(c, g, holes, t);
    }
  }

  lemma OneUnavailable(span: Span, kind: Kind, reason: string)
    requires span.left <= span.right
    ensures Tiles(Nothing().(unavailable := Missed(span, kind, reason)), span.left, span.right)
  {
    var u := SpansOf(Missed(span, kind, reason));
    assert u == [span];
    assert u[1..] == [];
  }

  lemma EmptyTiles(a: int)
    ensures Tiles(Nothing(), a, a)
  {
  }

  /** The future is reported first but lies last. */
  lemma FutureJoin(x: Outcome, a: int, m: int, y: Outcome, b: int)
    requires Tiles(x, m, b) && Tiles(y, a, m) && a <= m <= b && x.covered == []
    ensures Tiles(Join(x, y), a, b)
  {
    var (ux, uy) := (SpansOf(x.unavailable), SpansOf(y.unavailable));
    SpansOfAppend(x.unavailable, y.unavailable);
    assert x.covered + y.covered == y.covered;
    forall t | a <= t < b
      ensures Count(y.covered, t) + Count(ux + uy, t) == 1
    {
      CountAppend(ux, uy, t);
      if t < m {
        OutsideCount(ux, m, b, t);
      } else {
        OutsideCount(y.covered, a, m, t);
        OutsideCount(uy, a, m, t);
        assert Count(x.covered, t) == 0;
      }
    }
  }

  lemma KnownTiles(day: Option<Day>, a: int, confirmed: int, now: int)
    requires day.Some? ==> day.value.Valid()
    ensures Tiles(KnownOutcome(day, a, confirmed, now), a, MaxInt(a, confirmed))
  {
    hide LiveOutcome, Tiles;
    if confirmed <= a {
      EmptyTiles(a);
    } else {
      OneUnavailable(Span(a, confirmed), Missing, "DAILY_RECORDING_NOT_FOUND");
      OneUnavailable(Span(a, confirmed), ExpiredKind, "DAILY_RECORDING_EXPIRED");
      if day.Some? {
        LiveTiles(day.value, a, confirmed);
      }
    }
  }

  /** One segment of a window: what is known about it and what lies in the future tile it. */
  lemma DayTiles(day: Option<Day>, a: int, b: int, now: int)
    requires a < b && (day.Some? ==> day.value.Valid())
    ensures Tiles(DayOutcome(day, a, b, now), a, b)
  {
    hide KnownOutcome, Tiles;
    var confirmed := MinInt(b, now);
    KnownTiles(day, a, confirmed, now);
    EmptyTiles(b);
    OneUnavailable(Span(MinInt(b, MaxInt(a, now)), b), Future, "FUTURE_INTERVAL");
    FutureJoin(FutureOutcome(a, b, now), a, MaxInt(a, confirmed), KnownOutcome(day, a, confirmed, now), b);
  }

  ghost predicate ValidDays(days: map<int, Day>) {
    forall d | d in days :: days[d].Valid() && days[d].date == d
  }

  lemma {:induction false} WalkTiles(days: map<int, Day>, start: int, current: int, end: int, now: int, so: Outcome)
    requires ValidDays(days) && start <= current <= end && Tiles(so, start, current)
    ensures Walk(days, current, end, now, so).Some? ==> Tiles(Walk(days, current, end, now, so).value, start, end)
    decreases end - current
  {
    hide DayOutcome, Tiles;
    if current < end {
      var until := SegmentEnd(current, end);
      var day := Lookup(days, DateOf(current));
      DayTiles(day, current, until, now);
      TilesJoin(so, start, current, DayOutcome(day, current, until, now), until);
      WalkTiles(days, start, until, end, now, Join(so, DayOutcome(day, current, until, now)));
    }
  }
}
