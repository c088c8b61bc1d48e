/** What a finished replay says: exact accounting, availability and a seamless relative timeline. */
module ReplayTheorems {
  import opened Basics
  import opened Intervals
  import opened ReplayModel
  import opened ReplayResolver
  import opened ReplayCoverage

  /** The wall-clock spans of the parts that map linearly, in order. */
  function LinearSpans(parts: seq<Part>): seq<Span> {
    if parts == [] then []
    else
      var (rest, last) := (LinearSpans(parts[..|parts| - 1]), parts[|parts| - 1]);
      if last.point then rest else rest + [last.span]
  }

  lemma {:induction false} LinearAppend(x: seq<Part>, y: seq<Part>)
    ensures LinearSpans(x + y) == LinearSpans(x) + LinearSpans(y)
  {
    if y == [] {
      assert x + y == x;
    } else {
      var n := |y| - 1;
      LinearAppend(x, y[..n]);
      assert (x + y)[..|x + y| - 1] == x + y[..n];
    }
  }

  ghost predicate Matches(o: Outcome) { o.covered == LinearSpans(o.parts) }

  lemma JoinMatches(x: Outcome, y: Outcome)
    requires Matches(x) && Matches(y)
    ensures Matches(Join(x, y))
  {
    LinearAppend(x.parts, y.parts);
  }

  lemma OneMatches(day: Day, path: string, a: Available, start: int, confirmed: int, to: int, gaps: seq<Span>)
    ensures Matches(AvailableIn(day, path, a, start, confirmed, to, gaps))
  {
    var o := AvailableIn(day, path, a, start, confirmed, to, gaps);
    if o.parts != [] {
      assert o.parts[..0] == [];
    }
  }

  lemma {:induction false} AvailableMatches(
    day: Day, path: string, available: seq<Available>, start: int, confirmed: int, to: int, gaps: seq<Span>)
    ensures Matches(AvailableAll(day, path, available, start, confirmed, to, gaps))
  {
    hide AvailableIn;
    if available != [] {
      var n := |available| - 1;
      AvailableMatches(day, path, available[..n], start, confirmed, to, gaps);
      OneMatches(day, path, available[n], start, confirmed, to, gaps);
      JoinMatches(AvailableAll(day, path, available[..n], start, confirmed, to, gaps),
                  AvailableIn(day, path, available[n], start, confirmed, to, gaps));
    }
  }

  lemma DayMatches(day: Option<Day>, start: int, end: int, now: int)
    ensures Matches(DayOutcome(day, start, end, now))
  {
    hide AvailableAll;
    var confirmed := MinInt(end, now);
    if confirmed > start && day.Some? && day.value.Playable() {
      AvailableMatches(day.value, day.value.path.value, day.value.available, start, confirmed,
                       AvailableTo(day.value, confirmed), SpansOf(GapsIn(day.value.gaps, start, confirmed)));
    }
    JoinMatches(FutureOutcome(start, end, now), KnownOutcome(day, start, confirmed, now));
  }

  lemma {:induction false} WalkMatches(days: map<int, Day>, current: int, end: int, now: int, so: Outcome)
    requires Matches(so)
    ensures Walk(days, current, end, now, so).Some? ==> Matches(Walk(days, current, end, now, so).value)
    decreases end - current
  {
    hide DayOutcome, Matches;
    if current < end {
      var until := SegmentEnd(current, end);
      var o := DayOutcome(Lookup(days, DateOf(current)), current, until, now);
      DayMatches(Lookup(days, DateOf(current)), current, until, now);
      JoinMatches(so, o);
      WalkMatches(days, until, end, now, Join(so, o));
    }
  }

  // ---- Sorting and placing parts loses nothing ----

  lemma LinearSplit(p: Part, rest: seq<Part>)
    ensures LinearSpans([p] + rest) == (if p.point then [] else [p.span]) + LinearSpans(rest)
  {
    LinearAppend([p], rest);
    assert [p][..0] == [];
  }

  lemma {:induction false} InsertPartCount(parts: seq<Part>, p: Part, t: int)
    ensures Count(LinearSpans(InsertPart(parts, p)), t)
         == Count(LinearSpans(parts), t) + if !p.point && p.span.Holds(t) then 1 else 0
  {
    if parts != [] && PartBefore(parts[0], p) {
      InsertPartCount(parts[1..], p, t);
      LinearSplit(parts[0], InsertPart(parts[1..], p));
      LinearSplit(parts[0], parts[1..]);
      assert parts == [parts[0]] + parts[1..];
      CountAppend(if parts[0].point then [] else [parts[0].span], LinearSpans(InsertPart(parts[1..], p)), t);
      CountAppend(if parts[0].point then [] else [parts[0].span], LinearSpans(parts[1..]), t);
    } else {
      LinearSplit(p, parts);
      CountAppend(if p.point then [] else [p.span], LinearSpans(parts), t);
      assert [p] + [] == [p];
    }
  }

  lemma {:induction false} SortPartsCount(parts: seq<Part>, t: int)
    ensures Count(LinearSpans(SortParts(parts)), t) == Count(LinearSpans(parts), t)
  {
    if parts != [] {
      var n := |parts| - 1;
      SortPartsCount(parts[..n], t);
      InsertPartCount(SortParts(parts[..n]), parts[n], t);
      CountAppend(LinearSpans(parts[..n]), if parts[n].point then [] else [parts[n].span], t);
    }
  }

  lemma {:induction false} TimelineKeeps(parts: seq<Part>)
    ensures |Timeline(parts)| == |parts| && LinearSpans(Timeline(parts)) == LinearSpans(parts)
  {
    if parts != [] {
      var n := |parts| - 1;
      TimelineKeeps(parts[..n]);
      assert Timeline(parts)[..n] == Timeline(parts[..n]);
    }
  }

  // ---- Playback positions ----

  lemma ScaleIsStrict(w: real, x: real, y: real, d: real)
    requires 0.0 < w && x < y && 0.0 < d
    ensures w * x / d < w * y / d
  {
    assert w * y / d - w * x / d == w * (y - x) / d;
    assert w * (y - x) > 0.0;
  }

  /** The linear mapping is strictly increasing and takes an interval onto its playback range. */
  lemma PositionIsStrict(a: Available, s: int, t: int)
    requires a.span.left < a.span.right && a.playStart < a.playEnd && s < t
    ensures Position(a, s) < Position(a, t)
    ensures Position(a, a.span.left) == a.playStart && Position(a, a.span.right) == a.playEnd
  {
    ScaleIsStrict(a.playEnd - a.playStart, (s - a.span.left) as real, (t - a.span.left) as real, a.span.Length() as real);
    var (w, d) := (a.playEnd - a.playStart, a.span.Length() as real);
    assert w * d / d == w by {
      assert (w * d / d - w) * d == 0.0;
    }
  }

  ghost predicate Playing(parts: seq<Part>) {
    forall i | 0 <= i < |parts| :: parts[i].startSeconds < parts[i].endSeconds
  }

  /** A validated interval never loses its part to the precision rule, and its part plays forward in its range. */
  lemma AvailableAlwaysMaps(day: Day, path: string, a: Available, start: int, confirmed: int, to: int, gaps: seq<Span>)
    requires a.span.left <= a.span.right && a.playStart < a.playEnd
    ensures var o := AvailableIn(day, path, a, start, confirmed, to, gaps);
            && "PLAYBACK_MAPPING_PRECISION" !in o.reasons
            && Playing(o.parts)
            && forall i | 0 <= i < |o.parts| :: a.playStart <= o.parts[i].startSeconds && o.parts[i].endSeconds <= a.playEnd
  {
    if a.span.left < a.span.right {
      var c := Clip(a.span, start, to);
      if c.left < c.right {
        PositionIsStrict(a, c.left, c.right);
        if a.span.left < c.left { PositionIsStrict(a, a.span.left, c.left); }
        if c.right < a.span.right { PositionIsStrict(a, c.right, a.span.right); }
      }
    }
  }

  lemma {:induction false} AvailablePlays(
    day: Day, path: string, available: seq<Available>, start: int, confirmed: int, to: int, gaps: seq<Span>)
    requires forall i | 0 <= i < |available| ::
               available[i].span.left <= available[i].span.right && available[i].playStart < available[i].playEnd
    ensures Playing(AvailableAll(day, path, available, start, confirmed, to, gaps).parts)
  {
    hide AvailableIn;
    if available != [] {
      var n := |available| - 1;
      AvailablePlays(day, path, available[..n], start, confirmed, to, gaps);
      AvailableAlwaysMaps(day, path, available[n], start, confirmed, to, gaps);
    }
  }

  lemma DayPlays(day: Option<Day>, start: int, end: int, now: int)
    requires day.Some? ==> day.value.Valid()
    ensures Playing(DayOutcome(day, start, end, now).parts)
  {
    hide AvailableAll;
    var confirmed := MinInt(end, now);
    if confirmed > start && day.Some? && day.value.Playable() {
      AvailablePlays(day.value, day.value.path.value, day.value.available, start, confirmed,
                     AvailableTo(day.value, confirmed), SpansOf(GapsIn(day.value.gaps, start, confirmed)));
    }
  }

  lemma {:induction false} WalkPlays(days: map<int, Day>, current: int, end: int, now: int, so: Outcome)
    requires ValidDays(days) && Playing(so.parts)
    ensures Walk(days, current, end, now, so).Some? ==> Playing(Walk(days, current, end, now, so).value.parts)
    decreases end - current
  {
    hide DayOutcome;
    if current < end {
      var until := SegmentEnd(current, end);
      DayPlays(Lookup(days, DateOf(current)), current, until, now);
      WalkPlays(days, until, end, now, Join(so, DayOutcome(Lookup(days, DateOf(current)), current, until, now)));
    }
  }

  lemma {:induction false} InsertPartElements(parts: seq<Part>, p: Part)
    ensures multiset(InsertPart(parts, p)) == multiset(parts) + multiset{p}
  {
    if parts != [] && PartBefore(parts[0], p) {
      InsertPartElements(parts[1..], p);
      assert parts == [parts[0]] + parts[1..];
    }
  }

  lemma LastElement(parts: seq<Part>)
    requires parts != []
    ensures multiset(parts) == multiset(parts[..|parts| - 1]) + multiset{parts[|parts| - 1]}
  {
    assert parts == parts[..|parts| - 1] + [parts[|parts| - 1]];
  }

  lemma {:induction false} SortPartsElements(parts: seq<Part>)
    ensures multiset(SortParts(parts)) == multiset(parts)
  {
    hide InsertPart;
    if parts != [] {
      var n := |parts| - 1;
      SortPartsElements(parts[..n]);
      InsertPartElements(SortParts(parts[..n]), parts[n]);
      LastElement(parts);
    }
  }

  lemma SortedPartsPlay(parts: seq<Part>)
    requires Playing(parts)
    ensures Playing(SortParts(parts)) && (SortParts(parts) == [] <==> parts == [])
  {
    var sorted := SortParts(parts);
    SortPartsElements(parts);
    assert |sorted| == |multiset(sorted)| && |parts| == |multiset(parts)|;
    forall i | 0 <= i < |sorted|
      ensures sorted[i].startSeconds < sorted[i].endSeconds
    {
      assert sorted[i] in multiset(sorted);
      assert sorted[i] in parts;
    }
  }

  /** Consecutive parts meet, the first starts at zero, the last ends at the total, and each plays its own length. */
  predicate Seamless(parts: seq<Part>, total: real) {
    && (if parts == [] then total == 0.0 else parts[0].relativeStart == 0.0 && parts[|parts| - 1].relativeEnd == total)
    && (forall i | 0 <= i < |parts| - 1 :: parts[i].relativeEnd == parts[i + 1].relativeStart)
    && forall i | 0 <= i < |parts| ::
         0.0 < parts[i].relativeEnd - parts[i].relativeStart == parts[i].endSeconds - parts[i].startSeconds
  }

  lemma {:induction false} TimelineIsSeamless(parts: seq<Part>)
    requires Playing(parts)
    ensures |Timeline(parts)| == |parts| && Seamless(Timeline(parts), Played(parts))
  {
    if parts != [] {
      var n := |parts| - 1;
      TimelineIsSeamless(parts[..n]);
    }
  }

  // ---- The finished replay ----

  ghost predicate Known(event: Event, now: int) {
    event.windowState != UnknownWindow && event.windowFrom < WindowEnd(event, now)
  }

  function WindowEnd(event: Event, now: int): int {
    if event.windowTo.Some? then event.windowTo.value else now
  }

  lemma WalkedReplay(event: Event, now: int, days: map<int, Day>) returns (o: Outcome)
    requires ValidDays(days) && Known(event, now)
    requires Walk(days, event.windowFrom, WindowEnd(event, now), now, Nothing()).Some?
    ensures Resolved(event, now, days) == Finished(event, event.windowFrom, WindowEnd(event, now), o)
    ensures Tiles(o, event.windowFrom, WindowEnd(event, now)) && Matches(o) && Playing(o.parts)
  {
    hide Walk, Finished, Tiles;
    var (start, end) := (event.windowFrom, WindowEnd(event, now));
    EmptyTiles(start);
    WalkTiles(days, start, start, end, now, Nothing());
    WalkMatches(days, start, end, now, Nothing());
    WalkPlays(days, start, end, now, Nothing());
    o := Walk(days, start, end, now, Nothing()).value;
  }

  ghost predicate WithinLimit(event: Event, now: int, days: map<int, Day>) {
    Walk(days, event.windowFrom, WindowEnd(event, now), now, Nothing()).Some?
  }

  /** Each instant is in one linear part or unavailable interval, and both lengths add up to the request. */
  ghost predicate Accounted(r: Replay, start: int, end: int) {
    && r.requested == Some(end - start)
    && r.covered + TotalLength(SpansOf(r.unavailable)) == end - start
    && forall t | start <= t < end :: Count(LinearSpans(r.parts), t) + Count(SpansOf(r.unavailable), t) == 1
  }

  /**
   * Exact accounting. For validated recordings and below the segment limit, every instant of a known,
   * non-empty window lies in exactly one linear part or unavailable interval of the replay, and covered
   * time and unavailable time add up to the requested time.
   */
  lemma ReplayAccountsForEveryInstant(event: Event, now: int, days: map<int, Day>)
    requires ValidDays(days) && Known(event, now) && WithinLimit(event, now, days)
    ensures Accounted(Resolved(event, now, days), event.windowFrom, WindowEnd(event, now))
  {
    hide Walk, Finished, Resolved, Tiles, Matches, Accounted;
    var (start, end) := (event.windowFrom, WindowEnd(event, now));
    var o := WalkedReplay(event, now, days);
    FinishedAccounts(event, start, end, o);
  }

  lemma FinishedAccounts(event: Event, start: int, end: int, o: Outcome)
    requires Tiles(o, start, end) && start <= end && Matches(o)
    ensures Accounted(Finished(event, start, end, o), start, end)
  {
    hide StateOf, Timeline, SortParts, Sort, Swept, LinearSpans, SpansOf, Distinct, Reasons;
    CoveredLength(o, start, end);
    TimelineKeeps(SortParts(o.parts));
    forall t | start <= t < end
      ensures Count(LinearSpans(Timeline(SortParts(o.parts))), t) + Count(SpansOf(o.unavailable), t) == 1
    {
      SortPartsCount(o.parts, t);
    }
  }

  lemma CoveredLength(o: Outcome, a: int, b: int)
    requires Tiles(o, a, b) && a <= b
    ensures Swept(None, Sort(o.covered)) + TotalLength(SpansOf(o.unavailable)) == b - a
  {
    var u := SpansOf(o.unavailable);
    DurationIsMeasure(o.covered, a, b);
    DisjointMeasure(o.covered, a, b);
    TotalLengthAppend(o.covered, u);
    WithinAppend(o.covered, u, a, b);
    forall t | a <= t < b
      ensures Count(o.covered + u, t) == 1
    {
      CountAppend(o.covered, u, t);
    }
    DisjointMeasure(o.covered + u, a, b);
    MeasureConstant(o.covered + u, a, b, true);
  }

  /**
   * A replay is AVAILABLE exactly when its collection is not open and nothing at all is unavailable; then
   * linear parts cover every instant of the window.
   */
  lemma AvailableMeansComplete(event: Event, now: int, days: map<int, Day>)
    requires ValidDays(days) && Known(event, now) && WithinLimit(event, now, days)
    ensures var r := Resolved(event, now, days);
            && (r.state == AvailableState <==> event.windowState != OpenWindow && r.unavailable == [])
            && (r.state == AvailableState ==>
                  && Some(r.covered) == r.requested && r.parts != []
                  && forall t | event.windowFrom <= t < WindowEnd(event, now) :: Count(LinearSpans(r.parts), t) == 1)
  {
    hide Walk, Finished, Tiles, Matches, Accounted, LinearSpans;
    var (start, end) := (event.windowFrom, WindowEnd(event, now));
    var o := WalkedReplay(event, now, days);
    ReplayAccountsForEveryInstant(event, now, days);
    FinishedCompletes(event, start, end, o);
  }

  lemma FinishedCompletes(event: Event, start: int, end: int, o: Outcome)
    requires start < end && Tiles(o, start, end) && Accounted(Finished(event, start, end, o), start, end)
    ensures var r := Finished(event, start, end, o);
            && (r.state == AvailableState <==> event.windowState != OpenWindow && r.unavailable == [])
            && (r.state == AvailableState ==>
                  && Some(r.covered) == r.requested && r.parts != []
                  && forall t | start <= t < end :: Count(LinearSpans(r.parts), t) == 1)
  {
    hide Timeline, SortParts, Sort, Swept, Distinct, Reasons, RemainingOf;
    var r := Finished(event, start, end, o);
    if o.unavailable == [] {
      NothingRemains(o.covered, start, end);
      assert SpansOf(r.unavailable) == [];
      assert Count(LinearSpans(r.parts), start) == 1;
    }
  }

  lemma NothingRemains(covered: seq<Span>, a: int, b: int)
    requires a < b && Within(covered, a, b) && forall t | a <= t < b :: Count(covered, t) == 1
    ensures RemainingOf(a, b, covered) == []
  {
    RemainingIsExact(a, b, covered);
    var holes := RemainingOf(a, b, covered);
    if holes != [] {
      FirstHoleCounts(holes, a, b);
    }
  }

  lemma FirstHoleCounts(holes: seq<Span>, a: int, b: int)
    requires Follow(holes, a) && Fit(holes, b) && holes != []
    ensures exists t :: a <= t < b && Count(holes, t) > 0
  {
    CountPositive(holes, holes[0].left);
    assert holes[0].Holds(holes[0].left);
  }

  /** The parts of every replay tile its relative timeline from zero to the playback total without a hole. */
  lemma ReplayTimelineIsSeamless(event: Event, now: int, days: map<int, Day>)
    requires ValidDays(days)
    ensures var r := Resolved(event, now, days); Seamless(r.parts, r.playbackSeconds)
  {
    hide Walk, StateOf, Tiles;
    if Known(event, now) && WithinLimit(event, now, days) {
      var o := WalkedReplay(event, now, days);
      SortedPartsPlay(o.parts);
      TimelineIsSeamless(SortParts(o.parts));
    }
  }
}
