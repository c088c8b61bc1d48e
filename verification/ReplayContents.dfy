/** What a replay plays and why it plays nothing: each part second by second, each unavailable stretch, each reason, the state. */
module ReplayContents {
  import opened Basics
  import opened Intervals
  import opened ReplayModel
  import opened ReplayResolver
  import opened ReplayCoverage
  import opened ReplayTheorems

  // ---- Korean days ----

  /** Days of 24 hours follow one another from nine hours before the epoch's midnight, and an instant has the date of its day. */
  lemma KoreanDays(t: int, date: int)
    ensures DateOf(t) == date <==> Midnight(date) <= t < Midnight(date + 1)
    ensures Midnight(0) == -9 * 3600 * SECOND && Midnight(date + 1) - Midnight(date) == 24 * 3600 * SECOND
  {
  }

  // ---- A window is the sum of its days ----

  /** What the day of an instant says about the part of the window that lies in it. */
  function SegmentOutcome(days: map<int, Day>, x: int, start: int, end: int, now: int): Outcome {
    DayOutcome(Lookup(days, DateOf(x)), MaxInt(start, Midnight(DateOf(x))), MinInt(end, Midnight(DateOf(x) + 1)), now)
  }

  /** The whole walk without the segment limit. */
  function Everything(days: map<int, Day>, current: int, end: int, now: int): Outcome
    decreases end - current
  {
    if current >= end then Nothing()
    else
      var until := SegmentEnd(current, end);
      Join(DayOutcome(Lookup(days, DateOf(current)), current, until, now), Everything(days, until, end, now))
  }

  lemma JoinAssociates(a: Outcome, b: Outcome, c: Outcome)
    ensures Join(Join(a, b), c) == Join(a, Join(b, c)) && Join(a, Nothing()) == a == Join(Nothing(), a)
  {
  }

  /** The limit refuses exactly the walks that would end with more than 2000 segments; every other is complete. */
  lemma {:induction false} LimitIsExact(days: map<int, Day>, current: int, end: int, now: int, so: Outcome)
    requires |so.parts| + |so.unavailable| <= 2000
    ensures var all := Join(so, Everything(days, current, end, now));
            Walk(days, current, end, now, so) == if |all.parts| + |all.unavailable| <= 2000 then Some(all) else None
    decreases end - current
  {
    hide DayOutcome;
    JoinAssociates(so, so, so);
    if current < end {
      var until := SegmentEnd(current, end);
      var o := DayOutcome(Lookup(days, DateOf(current)), current, until, now);
      JoinAssociates(so, o, Everything(days, until, end, now));
      if |Join(so, o).parts| + |Join(so, o).unavailable| <= 2000 {
        LimitIsExact(days, until, end, now, Join(so, o));
      }
    }
  }

  /** A walk begins with the window or at a midnight. */
  predicate AtSegmentStart(current: int, start: int) { current == start || (start < current && current == Midnight(DateOf(current))) }

  lemma SegmentIs(days: map<int, Day>, current: int, x: int, start: int, end: int, now: int)
    requires start <= current <= x < SegmentEnd(current, end) && AtSegmentStart(current, start)
    ensures DayOutcome(Lookup(days, DateOf(current)), current, SegmentEnd(current, end), now) == SegmentOutcome(days, x, start, end, now)
  {
    hide DayOutcome, Lookup;
    assert DateOf(x) == DateOf(current);
  }

  lemma NextStart(current: int, start: int, end: int)
    requires start <= current < end && SegmentEnd(current, end) < end
    ensures AtSegmentStart(SegmentEnd(current, end), start)
  {
  }

  /** One entry of an outcome. */
  datatype Entry = Shown(part: Part) | Lacking(unavailable: Unavailable) | Noted(code: string)

  predicate Has(o: Outcome, e: Entry) {
    match e
    case Shown(p) => p in o.parts
    case Lacking(u) => u in o.unavailable
    case Noted(code) => code in o.reasons
  }

  lemma HasJoin(a: Outcome, b: Outcome, e: Entry)
    ensures Has(Join(a, b), e) <==> Has(a, e) || Has(b, e)
  {
  }

  ghost predicate HasSegment(days: map<int, Day>, from: int, start: int, end: int, now: int, e: Entry) {
    exists x | from <= x < end :: Has(SegmentOutcome(days, x, start, end, now), e)
  }

  /** Exactly what the days of the window's instants say is in the walk. */
  lemma {:induction false} WalkIsItsSegments(days: map<int, Day>, current: int, start: int, end: int, now: int, e: Entry)
    requires start <= current && (current < end ==> AtSegmentStart(current, start))
    ensures Has(Everything(days, current, end, now), e) <==> HasSegment(days, current, start, end, now, e)
    decreases end - current
  {
    hide DayOutcome, SegmentOutcome, Has, AtSegmentStart;
    if current < end {
      var until := SegmentEnd(current, end);
      var o := DayOutcome(Lookup(days, DateOf(current)), current, until, now);
      forall x | current <= x < until
        ensures SegmentOutcome(days, x, start, end, now) == o
      {
        SegmentIs(days, current, x, start, end, now);
      }
      if until < end {
        NextStart(current, start, end);
      }
      WalkIsItsSegments(days, until, start, end, now, e);
      HasJoin(o, Everything(days, until, end, now), e);
      assert Has(o, e) ==> Has(SegmentOutcome(days, current, start, end, now), e);
    } else {
      assert !Has(Nothing(), e) by { NothingHas(e); }
    }
  }

  lemma NothingHas(e: Entry)
    ensures !Has(Nothing(), e)
  {
  }

  // ---- What an interval shows ----

  /** The recording is still kept. */
  predicate Held(day: Day, now: int) {
    day.status != Deleted && day.status != Expired && (day.expiresAt.Some? ==> now < day.expiresAt.value)
  }

  predicate Ready(day: Day) { day.playback == PlaybackState.Ready && day.path.Some? && day.playableUntil.Some? }

  /** The stretch of an interval that lies in the window, is past, confirmed and playable. */
  function Stretch(day: Day, a: Available, start: int, end: int, now: int): Span
    requires Ready(day)
  {
    Span(MaxInt(a.span.left, start),
         MinInt(a.span.right, MinInt(MinInt(end, now), MinInt(day.coverageAsOf, day.playableUntil.value))))
  }

  predicate Disturbs(gap: Gap, c: Span) { gap.span.left < c.right && c.left < gap.span.right }

  predicate Undisturbed(day: Day, c: Span) { forall i | 0 <= i < |day.gaps| :: !Disturbs(day.gaps[i], c) }

  /** An interval of a kept and ready day plays if it is a point in the window, or a stretch no gap disturbs. */
  predicate Plays(day: Day, a: Available, start: int, end: int, now: int) {
    && Held(day, now) && Ready(day)
    && if a.span.left == a.span.right then
         && start <= a.span.left < end && a.span.left < now && a.span.left < Midnight(day.date + 1)
         && a.span.left <= day.coverageAsOf && a.span.left <= day.playableUntil.value
       else
         var c := Stretch(day, a, start, end, now);
         c.left < c.right && Undisturbed(day, c)
  }

  /** The second of the recording lies in its playback range as the instant lies in the interval. */
  predicate AtSecond(a: Available, t: int, second: real) {
    (second - a.playStart) * a.span.Length() as real == (a.playEnd - a.playStart) * (t - a.span.left) as real
  }

  /** The part is what the interval shows: all of a point, or exactly its stretch, from the second it was recorded at. */
  predicate Shows(p: Part, day: Day, a: Available, start: int, end: int, now: int)
    requires Ready(day)
  {
    && p.recordingId == day.recordingId && p.date == day.date && Some(p.path) == day.path
    && if a.span.left == a.span.right then p.point && p.span == a.span && p.startSeconds == a.playStart && p.endSeconds == a.playEnd
       else
         && !p.point && p.span == Stretch(day, a, start, end, now)
         && AtSecond(a, p.span.left, p.startSeconds) && AtSecond(a, p.span.right, p.endSeconds)
  }

  lemma PositionIsAtSecond(a: Available, t: int)
    requires a.span.left < a.span.right
    ensures AtSecond(a, t, Position(a, t))
  {
    var (w, x, d) := (a.playEnd - a.playStart, (t - a.span.left) as real, a.span.Length() as real);
    assert w * x / d * d == w * x;
  }

  // ---- Gaps as the segment sees them ----

  /** A gap is reported with the stretch of it that lies in the window and is past, or as the point it is. */
  predicate Reports(u: Unavailable, g: Gap, start: int, confirmed: int) {
    && u.kind == GapKind && u.reason == g.reason
    && u.span == Span(MaxInt(g.span.left, start), MinInt(g.span.right, confirmed))
  }

  predicate IsReported(g: Gap, start: int, confirmed: int) {
    || MaxInt(g.span.left, start) < MinInt(g.span.right, confirmed)
    || (g.span.left == g.span.right && start <= g.span.left < confirmed)
  }

  predicate OneReports(gaps: seq<Gap>, u: Unavailable, start: int, confirmed: int) {
    exists i | 0 <= i < |gaps| :: IsReported(gaps[i], start, confirmed) && Reports(u, gaps[i], start, confirmed)
  }

  lemma OneIsReported(gap: Gap, u: Unavailable, start: int, confirmed: int)
    ensures u in GapIn(gap, start, confirmed) <==> IsReported(gap, start, confirmed) && Reports(u, gap, start, confirmed)
  {
  }

  lemma {:induction false} GapsAreReported(gaps: seq<Gap>, u: Unavailable, start: int, confirmed: int)
    ensures u in GapsIn(gaps, start, confirmed) <==> OneReports(gaps, u, start, confirmed)
  {
    hide GapIn, IsReported, Reports;
    if gaps != [] {
      var n := |gaps| - 1;
      GapsAreReported(gaps[..n], u, start, confirmed);
      OneIsReported(gaps[n], u, start, confirmed);
      assert OneReports(gaps, u, start, confirmed)
        <==> OneReports(gaps[..n], u, start, confirmed)
             || (IsReported(gaps[n], start, confirmed) && Reports(u, gaps[n], start, confirmed));
    }
  }

  lemma ConflictIsDisturbance(gaps: seq<Gap>, c: Span, start: int, confirmed: int)
    requires start <= c.left < c.right <= confirmed && forall i | 0 <= i < |gaps| :: gaps[i].span.left <= gaps[i].span.right
    ensures Conflicts(SpansOf(GapsIn(gaps, start, confirmed)), c) <==> exists i | 0 <= i < |gaps| :: Disturbs(gaps[i], c)
  {
    var found := GapsIn(gaps, start, confirmed);
    hide GapsIn;
    if Conflicts(SpansOf(found), c) {
      var k :| 0 <= k < |found| && found[k].span.left < c.right && found[k].span.right > c.left;
      GapsAreReported(gaps, found[k], start, confirmed);
      var i :| 0 <= i < |gaps| && IsReported(gaps[i], start, confirmed) && Reports(found[k], gaps[i], start, confirmed);
      assert Disturbs(gaps[i], c);
    }
    if i :| 0 <= i < |gaps| && Disturbs(gaps[i], c) {
      var u := Unavailable(Span(MaxInt(gaps[i].span.left, start), MinInt(gaps[i].span.right, confirmed)), GapKind, gaps[i].reason);
      assert IsReported(gaps[i], start, confirmed) && Reports(u, gaps[i], start, confirmed);
      GapsAreReported(gaps, u, start, confirmed);
      var k :| 0 <= k < |found| && found[k] == u;
      assert SpansOf(found)[k].left < c.right;
    }
  }

  // ---- One interval of one day ----

  /** A stretch of the interval would play, but metadata of a gap contradicts it. */
  predicate Contradicted(day: Day, a: Available, start: int, end: int, now: int) {
    && Held(day, now) && Ready(day) && a.span.left != a.span.right
    && var c := Stretch(day, a, start, end, now);
    && c.left < c.right && !Undisturbed(day, c)
  }

  function From(date: int, start: int): int { MaxInt(start, Midnight(date)) }

  function To(date: int, end: int, now: int): int { MinInt(MinInt(end, Midnight(date + 1)), now) }

  function IntervalOutcome(day: Day, a: Available, from: int, confirmed: int): Outcome
    requires Ready(day)
  {
    AvailableIn(day, day.path.value, a, from, confirmed, AvailableTo(day, confirmed), SpansOf(GapsIn(day.gaps, from, confirmed)))
  }

  lemma StretchIsClip(day: Day, a: Available, start: int, end: int, now: int)
    requires day.Valid() && Ready(day) && a in day.available
    ensures Stretch(day, a, start, end, now) == Clip(a.span, From(day.date, start), AvailableTo(day, To(day.date, end, now)))
  {
  }

  /** In the segment of its own day an interval gives its part, or the contradiction, or nothing. */
  lemma OneShows(day: Day, a: Available, start: int, end: int, now: int)
    requires day.Valid() && Ready(day) && Held(day, now) && a in day.available
    requires From(day.date, start) < To(day.date, end, now)
    ensures var o := IntervalOutcome(day, a, From(day.date, start), To(day.date, end, now));
            && (o.parts != [] <==> Plays(day, a, start, end, now))
            && (o.parts != [] ==> |o.parts| == 1 && Shows(o.parts[0], day, a, start, end, now))
            && o.reasons == if Contradicted(day, a, start, end, now) then ["COVERAGE_METADATA_CONFLICT"] else []
  {
    var (from, confirmed) := (From(day.date, start), To(day.date, end, now));
    StretchIsClip(day, a, start, end, now);
    if a.span.left < a.span.right {
      var c := Stretch(day, a, start, end, now);
      if c.left < c.right {
        ConflictIsDisturbance(day.gaps, c, from, confirmed);
        PositionIsStrict(a, c.left, c.right);
        PositionIsAtSecond(a, c.left);
        PositionIsAtSecond(a, c.right);
      }
    }
    hide Conflicts, GapsIn, Position, Disturbs, AtSecond, GapsOrdered, AvailableOrdered;
  }

  predicate IntervalHas(day: Day, i: nat, from: int, confirmed: int, e: Entry)
    requires Ready(day) && i < |day.available|
  {
    Has(IntervalOutcome(day, day.available[i], from, confirmed), e)
  }

  predicate OneHas(day: Day, path: string, available: seq<Available>, i: nat, from: int, confirmed: int, to: int, gaps: seq<Span>, e: Entry) {
    i < |available| && Has(AvailableIn(day, path, available[i], from, confirmed, to, gaps), e)
  }

  lemma {:induction false} AvailableHas(
    day: Day, path: string, available: seq<Available>, from: int, confirmed: int, to: int, gaps: seq<Span>, e: Entry)
    ensures Has(AvailableAll(day, path, available, from, confirmed, to, gaps), e)
       <==> exists i | 0 <= i < |available| :: OneHas(day, path, available, i, from, confirmed, to, gaps, e)
  {
    hide AvailableIn, Has;
    if available == [] {
      NothingHas(e);
    } else {
      var n := |available| - 1;
      var rest := available[..n];
      AvailableHas(day, path, rest, from, confirmed, to, gaps, e);
      HasJoin(AvailableAll(day, path, rest, from, confirmed, to, gaps),
              AvailableIn(day, path, available[n], from, confirmed, to, gaps), e);
      if i :| 0 <= i < |available| && OneHas(day, path, available, i, from, confirmed, to, gaps, e) {
        assert i < n ==> OneHas(day, path, rest, i, from, confirmed, to, gaps, e);
      }
      if i :| 0 <= i < n && OneHas(day, path, rest, i, from, confirmed, to, gaps, e) {
        assert OneHas(day, path, available, i, from, confirmed, to, gaps, e);
      }
      assert Has(AvailableIn(day, path, available[n], from, confirmed, to, gaps), e)
        <==> OneHas(day, path, available, n, from, confirmed, to, gaps, e);
    }
  }

  /** The parts and the notes of a day's segment are those of its intervals, and the day's own error. */
  lemma SegmentHas(days: map<int, Day>, x: int, start: int, end: int, now: int, e: Entry)
    requires start <= x < end && !e.Lacking?
    ensures Has(SegmentOutcome(days, x, start, end, now), e)
       <==> && DateOf(x) in days
            && var (day, from, confirmed) := (days[DateOf(x)], From(DateOf(x), start), To(DateOf(x), end, now));
            && from < confirmed && Held(day, now)
            && (|| (e.Noted? && day.error == Some(e.code))
                || (Ready(day) && exists i | 0 <= i < |day.available| :: IntervalHas(day, i, from, confirmed, e)))
  {
    if DateOf(x) in days && Ready(days[DateOf(x)]) {
      var (day, from, confirmed) := (days[DateOf(x)], From(DateOf(x), start), To(DateOf(x), end, now));
      var gaps := SpansOf(GapsIn(day.gaps, from, confirmed));
      AvailableHas(day, day.path.value, day.available, from, confirmed, AvailableTo(day, confirmed), gaps, e);
      forall i | 0 <= i < |day.available|
        ensures OneHas(day, day.path.value, day.available, i, from, confirmed, AvailableTo(day, confirmed), gaps, e)
           <==> IntervalHas(day, i, from, confirmed, e)
      {
      }
    }
    hide AvailableAll, GapsIn, AvailableTo, RemainingOf, HolesIn, IntervalHas, OneHas, DateOf, Midnight;
  }

  // ---- The parts of a replay ----

  ghost predicate PlaysInReplay(r: Replay, day: Day, a: Available, start: int, end: int, now: int)
    requires Ready(day)
  {
    exists k | 0 <= k < |r.parts| :: Shows(r.parts[k], day, a, start, end, now)
  }

  ghost predicate ShownByOne(p: Part, days: map<int, Day>, start: int, end: int, now: int) {
    && p.date in days
    && exists i | 0 <= i < |days[p.date].available| ::
         && Plays(days[p.date], days[p.date].available[i], start, end, now)
         && Shows(p, days[p.date], days[p.date].available[i], start, end, now)
  }

  lemma IntervalShows(day: Day, i: nat, start: int, end: int, now: int, p: Part)
    requires day.Valid() && Ready(day) && Held(day, now) && i < |day.available|
    requires From(day.date, start) < To(day.date, end, now)
    requires IntervalHas(day, i, From(day.date, start), To(day.date, end, now), Shown(p))
    ensures Plays(day, day.available[i], start, end, now) && Shows(p, day, day.available[i], start, end, now)
  {
    OneShows(day, day.available[i], start, end, now);
    hide IntervalOutcome, Plays, Shows, From, To, Held;
  }

  lemma SegmentShows(days: map<int, Day>, x: int, start: int, end: int, now: int, p: Part)
    requires ValidDays(days) && start <= x < end && p in SegmentOutcome(days, x, start, end, now).parts
    ensures ShownByOne(p, days, start, end, now)
  {
    SegmentHas(days, x, start, end, now, Shown(p));
    var d := DateOf(x);
    var day := days[d];
    var i :| 0 <= i < |day.available| && IntervalHas(day, i, From(d, start), To(d, end, now), Shown(p));
    IntervalShows(day, i, start, end, now, p);
    hide Plays, SegmentOutcome, DateOf, Midnight, IntervalHas, From, To, Stretch, AtSecond;
  }

  lemma PlaysWhere(day: Day, a: Available, start: int, end: int, now: int) returns (x: int)
    requires day.Valid() && a in day.available && Plays(day, a, start, end, now)
    ensures start <= x < end && DateOf(x) == day.date && From(day.date, start) < To(day.date, end, now)
  {
    x := if a.span.left == a.span.right then a.span.left else Stretch(day, a, start, end, now).left;
    assert Midnight(day.date) <= x < Midnight(day.date + 1);
    DateIs(x, day.date);
  }

  lemma DateIs(x: int, date: int)
    requires Midnight(date) <= x < Midnight(date + 1)
    ensures DateOf(x) == date
  {
  }

  lemma SegmentPlays(days: map<int, Day>, d: int, i: nat, start: int, end: int, now: int) returns (x: int, p: Part)
    requires ValidDays(days) && d in days && i < |days[d].available| && Plays(days[d], days[d].available[i], start, end, now)
    ensures start <= x < end && p in SegmentOutcome(days, x, start, end, now).parts
    ensures Shows(p, days[d], days[d].available[i], start, end, now)
  {
    var day := days[d];
    x := PlaysWhere(day, day.available[i], start, end, now);
    OneShows(day, day.available[i], start, end, now);
    p := IntervalOutcome(day, day.available[i], From(d, start), To(d, end, now)).parts[0];
    SegmentHas(days, x, start, end, now, Shown(p));
    assert IntervalHas(day, i, From(d, start), To(d, end, now), Shown(p));
    hide IntervalOutcome, SegmentOutcome, DateOf, Midnight;
  }

  // ---- Sorted and placed ----

  lemma {:induction false} TimelineShows(parts: seq<Part>)
    ensures |Timeline(parts)| == |parts|
    ensures forall k | 0 <= k < |parts| ::
              Timeline(parts)[k].(relativeStart := 0.0, relativeEnd := 0.0) == parts[k].(relativeStart := 0.0, relativeEnd := 0.0)
  {
    if parts != [] {
      TimelineShows(parts[..|parts| - 1]);
    }
  }

  predicate SamePart(p: Part, q: Part) { p.(relativeStart := 0.0, relativeEnd := 0.0) == q.(relativeStart := 0.0, relativeEnd := 0.0) }

  /** Every placed part is a collected one. */
  lemma PlacedFrom(parts: seq<Part>, k: nat) returns (p: Part)
    requires k < |Timeline(SortParts(parts))|
    ensures p in parts && SamePart(Timeline(SortParts(parts))[k], p)
  {
    var sorted := SortParts(parts);
    SortPartsElements(parts);
    TimelineShows(sorted);
    hide Timeline, SortParts;
    p := sorted[k];
    assert p in multiset(parts);
  }

  /** Every collected part is placed. */
  lemma PlacedAs(parts: seq<Part>, p: Part) returns (k: nat)
    requires p in parts
    ensures k < |Timeline(SortParts(parts))| && SamePart(Timeline(SortParts(parts))[k], p)
  {
    var sorted := SortParts(parts);
    SortPartsElements(parts);
    TimelineShows(sorted);
    hide Timeline, SortParts;
    assert p in multiset(sorted);
    k :| 0 <= k < |sorted| && sorted[k] == p;
  }

  predicate InOrder(parts: seq<Part>) {
    forall i, j | 0 <= i < j < |parts| :: PartBefore(parts[i], parts[j])
  }

  lemma {:induction false} InsertKeepsOrder(parts: seq<Part>, p: Part)
    requires InOrder(parts)
    ensures InOrder(InsertPart(parts, p))
    ensures forall q <- InsertPart(parts, p) :: q == p || q in parts
  {
    hide PartBefore;
    if parts != [] {
      if PartBefore(parts[0], p) {
        InsertKeepsOrder(parts[1..], p);
        forall q <- InsertPart(parts[1..], p)
          ensures PartBefore(parts[0], q)
        {
        }
      } else {
        BeforeIsOrder(parts[0], p, p);
        forall q <- parts
          ensures PartBefore(p, q)
        {
          BeforeIsOrder(p, parts[0], q);
        }
      }
    }
  }

  lemma BeforeIsOrder(a: Part, b: Part, c: Part)
    ensures PartBefore(a, b) || PartBefore(b, a)
    ensures PartBefore(a, b) && PartBefore(b, c) ==> PartBefore(a, c)
    ensures PartBefore(a, a)
  {
  }

  lemma {:induction false} SortedIsInOrder(parts: seq<Part>)
    ensures InOrder(SortParts(parts))
  {
    hide InOrder, InsertPart;
    if parts != [] {
      SortedIsInOrder(parts[..|parts| - 1]);
      InsertKeepsOrder(SortParts(parts[..|parts| - 1]), parts[|parts| - 1]);
    } else {
      assert InOrder([]) by { NothingIsInOrder(); }
    }
  }

  lemma NothingIsInOrder()
    ensures InOrder([])
  {
  }

  /** Parts follow one another by the instant they start at. */
  lemma PlacedAreInOrder(parts: seq<Part>)
    ensures var placed := Timeline(SortParts(parts));
            forall i, j | 0 <= i < j < |placed| :: placed[i].span.left <= placed[j].span.left
  {
    var sorted := SortParts(parts);
    var placed := Timeline(sorted);
    SortedIsInOrder(parts);
    TimelineShows(sorted);
    hide Timeline, SortParts;
    forall i, j | 0 <= i < j < |placed|
      ensures placed[i].span.left <= placed[j].span.left
    {
      assert PartBefore(sorted[i], sorted[j]);
      assert SamePart(placed[i], sorted[i]) && SamePart(placed[j], sorted[j]);
    }
  }

  lemma SamePartShows(p: Part, q: Part, day: Day, a: Available, start: int, end: int, now: int)
    requires Ready(day) && SamePart(p, q)
    ensures Shows(p, day, a, start, end, now) <==> Shows(q, day, a, start, end, now)
  {
    assert p.(relativeStart := 0.0, relativeEnd := 0.0).span == p.span;
    assert q.(relativeStart := 0.0, relativeEnd := 0.0).span == q.span;
  }

  /** What a known replay within the limit is made of. */
  lemma ReplayIs(event: Event, now: int, days: map<int, Day>) returns (o: Outcome)
    requires Known(event, now) && WithinLimit(event, now, days)
    ensures o == Everything(days, event.windowFrom, WindowEnd(event, now), now)
    ensures Resolved(event, now, days) == Finished(event, event.windowFrom, WindowEnd(event, now), o)
  {
    hide Everything, Finished;
    o := Everything(days, event.windowFrom, WindowEnd(event, now), now);
    LimitIsExact(days, event.windowFrom, WindowEnd(event, now), now, Nothing());
    JoinAssociates(o, o, o);
    hide Walk;
  }

  lemma CollectedAreShown(days: map<int, Day>, start: int, end: int, now: int, p: Part)
    requires ValidDays(days) && p in Everything(days, start, end, now).parts
    ensures ShownByOne(p, days, start, end, now)
  {
    hide ValidDays, Everything, SegmentOutcome, ShownByOne;
    assert Has(Everything(days, start, end, now), Shown(p));
    WalkIsItsSegments(days, start, start, end, now, Shown(p));
    var x :| start <= x < end && Has(SegmentOutcome(days, x, start, end, now), Shown(p));
    SegmentShows(days, x, start, end, now, p);
  }

  /** Every part of a replay is what some interval of the recording of its date shows, and follows the one before it. */
  lemma EveryPartIsRecorded(event: Event, now: int, days: map<int, Day>, k: nat)
    requires ValidDays(days) && Known(event, now) && WithinLimit(event, now, days) && k < |Resolved(event, now, days).parts|
    ensures ShownByOne(Resolved(event, now, days).parts[k], days, event.windowFrom, WindowEnd(event, now), now)
    ensures k > 0 ==> Resolved(event, now, days).parts[k - 1].span.left <= Resolved(event, now, days).parts[k].span.left
  {
    hide WithinLimit, Finished, ValidDays, Everything, Timeline, SortParts, ShownByOne, SamePart, Resolved, Known;
    var (start, end) := (event.windowFrom, WindowEnd(event, now));
    var o := ReplayIs(event, now, days);
    var parts := Resolved(event, now, days).parts;
    FinishedParts(event, start, end, o);
    PlacedAreInOrder(o.parts);
    var p := PlacedFrom(o.parts, k);
    CollectedAreShown(days, start, end, now, p);
    SamePartIsShown(parts[k], p, days, start, end, now);
  }

  lemma FinishedParts(event: Event, start: int, end: int, o: Outcome)
    ensures Finished(event, start, end, o).parts == Timeline(SortParts(o.parts))
  {
    hide Timeline, SortParts, Distinct, StateOf;
  }

  lemma SamePartIsShown(p: Part, q: Part, days: map<int, Day>, start: int, end: int, now: int)
    requires SamePart(p, q) && ShownByOne(q, days, start, end, now)
    ensures ShownByOne(p, days, start, end, now)
  {
    assert p.(relativeStart := 0.0, relativeEnd := 0.0).date == p.date;
    assert q.(relativeStart := 0.0, relativeEnd := 0.0).date == q.date;
    var day := days[q.date];
    var i :| 0 <= i < |day.available| && Plays(day, day.available[i], start, end, now) && Shows(q, day, day.available[i], start, end, now);
    SamePartShows(p, q, day, day.available[i], start, end, now);
    hide Shows, Plays;
  }

  /** And every interval that plays in the window is shown by some part. */
  lemma EveryRecordingIsPlayed(event: Event, now: int, days: map<int, Day>, d: int, i: nat)
    requires ValidDays(days) && Known(event, now) && WithinLimit(event, now, days)
    requires d in days && i < |days[d].available| && Plays(days[d], days[d].available[i], event.windowFrom, WindowEnd(event, now), now)
    ensures PlaysInReplay(Resolved(event, now, days), days[d], days[d].available[i], event.windowFrom, WindowEnd(event, now), now)
  {
    hide Walk, Finished, ValidDays;
    var (start, end) := (event.windowFrom, WindowEnd(event, now));
    var o := ReplayIs(event, now, days);
    var x, p := SegmentPlays(days, d, i, start, end, now);
    assert Has(SegmentOutcome(days, x, start, end, now), Shown(p));
    WalkIsItsSegments(days, start, start, end, now, Shown(p));
    FinishedParts(event, start, end, o);
    var k := PlacedAs(o.parts, p);
    SamePartShows(Resolved(event, now, days).parts[k], p, days[d], days[d].available[i], start, end, now);
  }

  // ---- Why something is unavailable ----

  /** Why a stretch is unconfirmed: it lies past the coverage, or the recording cannot be played yet, or nothing says more. */
  function WhyUnconfirmed(day: Day, left: int): string {
    if left >= day.coverageAsOf then "COVERAGE_PENDING" else if !Ready(day) then "PLAYBACK_NOT_READY" else "COVERAGE_UNCONFIRMED"
  }

  /** What stands behind an unavailable stretch of one segment of a day. */
  predicate Explained(u: Unavailable, day: Option<Day>, from: int, until: int, now: int) {
    && from <= u.span.left <= u.span.right <= until
    && match u.kind
       case Future => u.span.left >= now && u.reason == "FUTURE_INTERVAL"
       case Missing => u.span.right <= now && day.None? && u.reason == "DAILY_RECORDING_NOT_FOUND"
       case ExpiredKind => u.span.right <= now && day.Some? && !Held(day.value, now) && u.reason == "DAILY_RECORDING_EXPIRED"
       case GapKind => day.Some? && Held(day.value, now) && OneReports(day.value.gaps, u, from, MinInt(until, now))
       case Unconfirmed =>
         u.span.right <= now && day.Some? && Held(day.value, now) && u.reason == WhyUnconfirmed(day.value, u.span.left)
  }

  /** The stretch is explained by the metadata of a date, in that date's part of the window. */
  predicate ExplainedOn(u: Unavailable, days: map<int, Day>, d: int, start: int, end: int, now: int) {
    Explained(u, Lookup(days, d), From(d, start), MinInt(end, Midnight(d + 1)), now)
  }

  lemma {:induction false} HolesHave(day: Day, holes: seq<Span>, u: Unavailable)
    requires u in HolesIn(day, holes)
    ensures u.kind == Unconfirmed && u.span in holes && u.span.left <= u.span.right
    ensures u.reason == WhyUnconfirmed(day, u.span.left)
  {
    var n := |holes| - 1;
    if u in HolesIn(day, holes[..n]) {
      HolesHave(day, holes[..n], u);
    }
  }

  lemma HoleIsWithin(day: Day, from: int, confirmed: int, hole: Span)
    requires day.Valid() && from < confirmed
    requires hole in RemainingOf(from, confirmed, LiveOutcome(day, from, confirmed).covered + SpansOf(GapsIn(day.gaps, from, confirmed)))
    ensures from <= hole.left && hole.right <= confirmed
  {
    hide RemainingOf, LiveOutcome, GapsIn, SpansOf, Ordered, Clear;
    LiveCovered(day, from, confirmed);
    var (c, g) := (LiveOutcome(day, from, confirmed).covered, SpansOf(GapsIn(day.gaps, from, confirmed)));
    WithinAppend(c, g, from, confirmed);
    RestIsWithin(c + g, from, confirmed);
  }

  lemma LiveLacks(day: Day, from: int, confirmed: int, u: Unavailable)
    requires day.Valid() && from < confirmed && u in LiveOutcome(day, from, confirmed).unavailable
    ensures || (u.kind == GapKind && OneReports(day.gaps, u, from, confirmed))
            || (&& u.kind == Unconfirmed && from <= u.span.left <= u.span.right <= confirmed
                && u.reason == WhyUnconfirmed(day, u.span.left))
  {
    var gaps := GapsIn(day.gaps, from, confirmed);
    GapsAreReported(day.gaps, u, from, confirmed);
    if u !in gaps {
      var holes := RemainingOf(from, confirmed, LiveOutcome(day, from, confirmed).covered + SpansOf(gaps));
      assert u in HolesIn(day, holes);
      HolesHave(day, holes, u);
      HoleIsWithin(day, from, confirmed, u.span);
    }
    hide HolesIn, GapsIn, RemainingOf, AvailableAll, OneReports, Day.Valid;
  }

  lemma ReportedIsWithin(gaps: seq<Gap>, u: Unavailable, from: int, confirmed: int)
    requires from < confirmed && OneReports(gaps, u, from, confirmed)
    ensures from <= u.span.left <= u.span.right <= confirmed
    ensures u.span.left < confirmed
  {
  }

  /** What a segment lacks: its future, all of its past without a usable recording, or what a kept recording lacks. */
  lemma DayLacks(day: Option<Day>, from: int, until: int, now: int, u: Unavailable)
    requires from < until && u in DayOutcome(day, from, until, now).unavailable
    ensures var confirmed := MinInt(until, now);
            || (now < until && u == Unavailable(Span(MaxInt(from, now), until), Future, "FUTURE_INTERVAL"))
            || (&& from < confirmed
                && (|| (day.None? && u == Unavailable(Span(from, confirmed), Missing, "DAILY_RECORDING_NOT_FOUND"))
                    || (day.Some? && !Held(day.value, now) && u == Unavailable(Span(from, confirmed), ExpiredKind, "DAILY_RECORDING_EXPIRED"))
                    || (day.Some? && Held(day.value, now) && u in LiveOutcome(day.value, from, confirmed).unavailable)))
  {
    hide LiveOutcome;
  }

  lemma LackIsExplained(day: Option<Day>, from: int, until: int, now: int, u: Unavailable)
    requires from < until && (day.Some? ==> day.value.Valid()) && u in DayOutcome(day, from, until, now).unavailable
    ensures Explained(u, day, from, until, now)
  {
    var confirmed := MinInt(until, now);
    DayLacks(day, from, until, now, u);
    hide DayOutcome, LiveOutcome, OneReports, Day.Valid, Held, WhyUnconfirmed;
    if from < confirmed && day.Some? && Held(day.value, now) && u in LiveOutcome(day.value, from, confirmed).unavailable {
      LiveLacks(day.value, from, confirmed, u);
      if u.kind == GapKind {
        ReportedIsWithin(day.value.gaps, u, from, confirmed);
      }
    }
  }

  lemma SegmentLacks(days: map<int, Day>, x: int, start: int, end: int, now: int, u: Unavailable)
    requires ValidDays(days) && start <= x < end && u in SegmentOutcome(days, x, start, end, now).unavailable
    ensures ExplainedOn(u, days, DateOf(x), start, end, now)
  {
    hide DayOutcome, Explained, Day.Valid, DateOf, Midnight;
    KoreanDays(x, DateOf(x));
    LackIsExplained(Lookup(days, DateOf(x)), From(DateOf(x), start), MinInt(end, Midnight(DateOf(x) + 1)), now, u);
  }

  /** Every unavailable stretch of a replay has its kind and its reason from the clock and from the metadata of its day. */
  lemma EveryLackIsExplained(event: Event, now: int, days: map<int, Day>, u: Unavailable)
    requires ValidDays(days) && Known(event, now) && WithinLimit(event, now, days) && u in Resolved(event, now, days).unavailable
    ensures exists d :: ExplainedOn(u, days, d, event.windowFrom, WindowEnd(event, now), now)
  {
    hide WithinLimit, ValidDays, Everything, Resolved, Known, SegmentOutcome, ExplainedOn, Timeline, SortParts, StateOf, Distinct;
    var (start, end) := (event.windowFrom, WindowEnd(event, now));
    var o := ReplayIs(event, now, days);
    assert Has(o, Lacking(u));
    WalkIsItsSegments(days, start, start, end, now, Lacking(u));
    var x :| start <= x < end && Has(SegmentOutcome(days, x, start, end, now), Lacking(u));
    SegmentLacks(days, x, start, end, now, u);
  }

  /** What a gap of a kept day leaves to report in the window. */
  function GapStretch(g: Gap, start: int, end: int, now: int): Span {
    Span(MaxInt(g.span.left, start), MinInt(g.span.right, MinInt(end, now)))
  }

  predicate GapCounts(day: Day, g: Gap, start: int, end: int, now: int) {
    && Held(day, now)
    && (|| GapStretch(g, start, end, now).left < GapStretch(g, start, end, now).right
        || (g.span.left == g.span.right && start <= g.span.left < MinInt(end, now) && g.span.left < Midnight(day.date + 1)))
  }

  lemma LiveReports(day: Day, u: Unavailable, from: int, confirmed: int)
    requires u in GapsIn(day.gaps, from, confirmed)
    ensures u in LiveOutcome(day, from, confirmed).unavailable
  {
    hide GapsIn, AvailableAll, RemainingOf, HolesIn;
  }

  lemma SegmentHasLive(days: map<int, Day>, x: int, start: int, end: int, now: int, u: Unavailable)
    requires DateOf(x) in days && Held(days[DateOf(x)], now) && From(DateOf(x), start) < To(DateOf(x), end, now)
    requires u in LiveOutcome(days[DateOf(x)], From(DateOf(x), start), To(DateOf(x), end, now)).unavailable
    ensures u in SegmentOutcome(days, x, start, end, now).unavailable
  {
    hide LiveOutcome, DateOf, Midnight;
  }

  lemma SegmentReports(days: map<int, Day>, d: int, i: nat, start: int, end: int, now: int) returns (x: int)
    requires ValidDays(days) && d in days && i < |days[d].gaps| && GapCounts(days[d], days[d].gaps[i], start, end, now)
    ensures start <= x < end
    ensures var g := days[d].gaps[i];
            Unavailable(GapStretch(g, start, end, now), GapKind, g.reason) in SegmentOutcome(days, x, start, end, now).unavailable
  {
    var g := days[d].gaps[i];
    x := GapStretch(g, start, end, now).left;
    DateIs(x, d);
    var (from, confirmed) := (From(d, start), To(d, end, now));
    var u := Unavailable(GapStretch(g, start, end, now), GapKind, g.reason);
    assert IsReported(g, from, confirmed) && Reports(u, g, from, confirmed);
    hide LiveOutcome, SegmentOutcome, GapsIn, Midnight, DateOf, Day.Valid, IsReported, Reports;
    GapsAreReported(days[d].gaps, u, from, confirmed);
    LiveReports(days[d], u, from, confirmed);
    SegmentHasLive(days, x, start, end, now, u);
  }

  /** Every gap that touches the past of the window is reported, with all of its stretch there. */
  lemma EveryGapIsReported(event: Event, now: int, days: map<int, Day>, d: int, i: nat)
    requires ValidDays(days) && Known(event, now) && WithinLimit(event, now, days)
    requires d in days && i < |days[d].gaps| && GapCounts(days[d], days[d].gaps[i], event.windowFrom, WindowEnd(event, now), now)
    ensures var g := days[d].gaps[i];
            Unavailable(GapStretch(g, event.windowFrom, WindowEnd(event, now), now), GapKind, g.reason)
            in Resolved(event, now, days).unavailable
  {
    hide WithinLimit, Everything, Resolved, SegmentOutcome, Timeline, SortParts, StateOf, Distinct;
    var (start, end) := (event.windowFrom, WindowEnd(event, now));
    var o := ReplayIs(event, now, days);
    var x := SegmentReports(days, d, i, start, end, now);
    var u := Unavailable(GapStretch(days[d].gaps[i], start, end, now), GapKind, days[d].gaps[i].reason);
    assert Has(SegmentOutcome(days, x, start, end, now), Lacking(u));
    WalkIsItsSegments(days, start, start, end, now, Lacking(u));
  }

  // ---- The state ----

  /** What may still come: the future, a stretch not confirmed yet, a recording not ready yet. */
  predicate MayCome(u: Unavailable) { u.kind == Future || u.reason in {"COVERAGE_PENDING", "PLAYBACK_NOT_READY"} }

  /**
   * A replay is AVAILABLE when its collection is closed and nothing is unavailable; otherwise PARTIAL exactly when it
   * plays anything; otherwise PROCESSING exactly when everything unavailable may still come.
   */
  lemma StateIsExact(event: Event, now: int, days: map<int, Day>)
    requires ValidDays(days) && Known(event, now) && WithinLimit(event, now, days)
    ensures var r := Resolved(event, now, days);
            && (r.state == AvailableState <==> event.windowState != OpenWindow && r.unavailable == [])
            && (r.state == Partial <==> (event.windowState == OpenWindow || r.unavailable != []) && r.parts != [])
            && (r.state == Processing <==> r.parts == [] && forall u <- r.unavailable :: MayCome(u))
            && (r.state == UnavailableState <==> r.parts == [] && exists u <- r.unavailable :: !MayCome(u))
  {
    var (start, end) := (event.windowFrom, WindowEnd(event, now));
    assert start < end;
    hide WithinLimit, ValidDays, Everything, Resolved, Known, Timeline, SortParts, Distinct;
    AvailableMeansComplete(event, now, days);
    ReplayAccountsForEveryInstant(event, now, days);
    var o := ReplayIs(event, now, days);
    PlacedLength(o.parts);
    AllWait(o.unavailable);
    if Resolved(event, now, days).parts == [] {
      SomethingIsSaid(Resolved(event, now, days), start, end);
    }
  }

  lemma AllWait(unavailable: seq<Unavailable>)
    ensures (forall i | 0 <= i < |unavailable| :: Waiting(unavailable[i])) <==> (forall u <- unavailable :: MayCome(u))
  {
    if forall u <- unavailable :: MayCome(u) {
      forall i | 0 <= i < |unavailable|
        ensures Waiting(unavailable[i])
      {
        assert MayCome(unavailable[i]);
      }
    }
  }

  lemma SomethingIsSaid(r: Replay, start: int, end: int)
    requires Accounted(r, start, end) && start < end && r.parts == []
    ensures r.unavailable != []
  {
    assert Count(LinearSpans(r.parts), start) == 0;
    assert r.unavailable == [] ==> SpansOf(r.unavailable) == [];
  }

  lemma PlacedLength(parts: seq<Part>)
    ensures |Timeline(SortParts(parts))| == |parts|
  {
    SortPartsElements(parts);
    TimelineShows(SortParts(parts));
    assert |SortParts(parts)| == |multiset(SortParts(parts))| && |parts| == |multiset(parts)|;
  }

  // ---- The reasons ----

  lemma {:induction false} DistinctKeeps(codes: seq<string>, code: string)
    ensures code in Distinct(codes) <==> code in codes
  {
    if codes != [] {
      DistinctKeeps(codes[..|codes| - 1], code);
    }
  }

  lemma {:induction false} DistinctNeverRepeats(codes: seq<string>)
    ensures forall i, j | 0 <= i < j < |Distinct(codes)| :: Distinct(codes)[i] != Distinct(codes)[j]
  {
    if codes != [] {
      DistinctNeverRepeats(codes[..|codes| - 1]);
    }
  }

  /** A kept day of the window's past notes its own error, and a gap that contradicts what would play. */
  predicate DayNotes(days: map<int, Day>, x: int, code: string, start: int, end: int, now: int) {
    && DateOf(x) in days && Held(days[DateOf(x)], now)
    && (|| days[DateOf(x)].error == Some(code)
        || (code == "COVERAGE_METADATA_CONFLICT" && AnyContradicted(days[DateOf(x)], start, end, now)))
  }

  predicate AnyContradicted(day: Day, start: int, end: int, now: int) {
    exists i | 0 <= i < |day.available| :: Contradicted(day, day.available[i], start, end, now)
  }

  lemma IntervalsNote(day: Day, code: string, start: int, end: int, now: int)
    requires day.Valid() && Ready(day) && Held(day, now) && From(day.date, start) < To(day.date, end, now)
    ensures (exists i | 0 <= i < |day.available| :: IntervalHas(day, i, From(day.date, start), To(day.date, end, now), Noted(code)))
       <==> code == "COVERAGE_METADATA_CONFLICT" && AnyContradicted(day, start, end, now)
  {
    var (from, confirmed) := (From(day.date, start), To(day.date, end, now));
    hide IntervalOutcome, Contradicted, From, To, Day.Valid, Held, Plays, Shows;
    forall i | 0 <= i < |day.available|
      ensures IntervalHas(day, i, from, confirmed, Noted(code))
         <==> code == "COVERAGE_METADATA_CONFLICT" && Contradicted(day, day.available[i], start, end, now)
    {
      OneShows(day, day.available[i], start, end, now);
    }
  }

  lemma SegmentNotes(days: map<int, Day>, x: int, start: int, end: int, now: int, code: string)
    requires ValidDays(days) && start <= x < end
    ensures Has(SegmentOutcome(days, x, start, end, now), Noted(code))
       <==> From(DateOf(x), start) < To(DateOf(x), end, now) && DayNotes(days, x, code, start, end, now)
  {
    SegmentHas(days, x, start, end, now, Noted(code));
    hide SegmentOutcome, IntervalHas, DateOf, From, To, Day.Valid, Held, Ready, Has, AnyContradicted;
    if DateOf(x) in days && From(DateOf(x), start) < To(DateOf(x), end, now) && Held(days[DateOf(x)], now) {
      if Ready(days[DateOf(x)]) {
        IntervalsNote(days[DateOf(x)], code, start, end, now);
      } else {
        NotReadyIsNotContradicted(days[DateOf(x)], start, end, now);
      }
    }
  }

  lemma NotReadyIsNotContradicted(day: Day, start: int, end: int, now: int)
    requires !Ready(day)
    ensures !AnyContradicted(day, start, end, now)
  {
  }

  ghost predicate WindowNotes(days: map<int, Day>, code: string, start: int, end: int, now: int) {
    exists x | start <= x < MinInt(end, now) :: DayNotes(days, x, code, start, end, now)
  }

  /** A segment reaches into the past exactly when some instant of it is past. */
  lemma PastOfSegment(x: int, start: int, end: int, now: int) returns (y: int)
    requires start <= x < end && From(DateOf(x), start) < To(DateOf(x), end, now)
    ensures start <= y < MinInt(end, now) && DateOf(y) == DateOf(x)
  {
    y := From(DateOf(x), start);
    DateIs(y, DateOf(x));
  }

  lemma PastReaches(x: int, start: int, end: int, now: int)
    requires start <= x < MinInt(end, now)
    ensures From(DateOf(x), start) < To(DateOf(x), end, now)
  {
  }

  lemma WalkNotes(days: map<int, Day>, start: int, end: int, now: int, code: string)
    requires ValidDays(days)
    ensures code in Everything(days, start, end, now).reasons <==> WindowNotes(days, code, start, end, now)
  {
    hide Everything, SegmentOutcome, DayNotes, ValidDays, From, To, DateOf;
    var all := Everything(days, start, end, now);
    WalkIsItsSegments(days, start, start, end, now, Noted(code));
    assert Has(all, Noted(code)) <==> code in all.reasons;
    if x :| start <= x < end && Has(SegmentOutcome(days, x, start, end, now), Noted(code)) {
      SegmentNotes(days, x, start, end, now, code);
      var y := PastOfSegment(x, start, end, now);
      SameDateNotes(days, x, y, code, start, end, now);
    }
    if x :| start <= x < MinInt(end, now) && DayNotes(days, x, code, start, end, now) {
      PastReaches(x, start, end, now);
      SegmentNotes(days, x, start, end, now, code);
    }
  }

  lemma SameDateNotes(days: map<int, Day>, x: int, y: int, code: string, start: int, end: int, now: int)
    requires DateOf(x) == DateOf(y)
    ensures DayNotes(days, x, code, start, end, now) <==> DayNotes(days, y, code, start, end, now)
  {
    hide DateOf, Held, AnyContradicted;
  }

  /**
   * The reasons of a replay are, each once, those of its unavailable stretches, that its collection is open, and what
   * the kept days of its past note: their errors, and gaps that contradict what would play.
   */
  lemma ReasonsAreExact(event: Event, now: int, days: map<int, Day>, code: string)
    requires ValidDays(days) && Known(event, now) && WithinLimit(event, now, days)
    ensures var r := Resolved(event, now, days);
            && (forall i, j | 0 <= i < j < |r.reasonCodes| :: r.reasonCodes[i] != r.reasonCodes[j])
            && (code in r.reasonCodes
                <==> || (exists u <- r.unavailable :: u.reason == code)
                     || (event.windowState == OpenWindow && code == "COLLECTION_IN_PROGRESS")
                     || WindowNotes(days, code, event.windowFrom, WindowEnd(event, now), now))
  {
    hide WithinLimit, ValidDays, Everything, Resolved, Known, Timeline, SortParts, Distinct, WindowNotes;
    var (start, end) := (event.windowFrom, WindowEnd(event, now));
    var o := ReplayIs(event, now, days);
    var open := if event.windowState == OpenWindow then ["COLLECTION_IN_PROGRESS"] else [];
    var codes := o.reasons + open + Reasons(o.unavailable);
    DistinctKeeps(codes, code);
    DistinctNeverRepeats(codes);
    WalkNotes(days, start, end, now, code);
    ReasonsHave(o.unavailable, code);
    assert code in codes <==> code in o.reasons || code in open || code in Reasons(o.unavailable);
  }

  lemma ReasonsHave(unavailable: seq<Unavailable>, code: string)
    ensures code in Reasons(unavailable) <==> exists u <- unavailable :: u.reason == code
  {
    if u :| u in unavailable && u.reason == code {
      var i :| 0 <= i < |unavailable| && unavailable[i] == u;
      assert Reasons(unavailable)[i] == code;
    }
    if code in Reasons(unavailable) {
      var i :| 0 <= i < |unavailable| && Reasons(unavailable)[i] == code;
      assert unavailable[i].reason == code;
    }
  }

  // ---- Replays that are not resolved ----

  /**
   * A replay without a known window says why, and so does one of an empty window, or of more than 2000 segments; they
   * hold nothing, and every other replay is of at most 2000 segments.
   */
  lemma RefusalsAreExact(event: Event, now: int, days: map<int, Day>)
    ensures var r := Resolved(event, now, days);
            var end := WindowEnd(event, now);
            if event.windowState == UnknownWindow then
              r == Replay(UnavailableState, None, None, 0, 0.0, [], [], event.reasonCodes)
            else if end <= event.windowFrom then
              r == Replay(UnavailableState, Some(end), Some(end - event.windowFrom), 0, 0.0, [], [], ["EVENT_WINDOW_EMPTY"])
            else
              var all := Everything(days, event.windowFrom, end, now);
              if |all.parts| + |all.unavailable| > 2000 then
                r == Replay(UnavailableState, Some(end), Some(end - event.windowFrom), 0, 0.0, [], [], ["EVENT_REPLAY_SEGMENT_LIMIT"])
              else
                && WithinLimit(event, now, days) && r.effectiveTo == Some(end)
                && |r.parts| == |all.parts| && |r.unavailable| == |all.unavailable|
  {
    hide Everything, Timeline, SortParts, StateOf, Distinct;
    var all := Everything(days, event.windowFrom, WindowEnd(event, now), now);
    LimitIsExact(days, event.windowFrom, WindowEnd(event, now), now, Nothing());
    JoinAssociates(all, all, all);
    PlacedLength(all.parts);
    hide Walk;
  }
}
