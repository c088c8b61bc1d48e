/** List summaries drop dates and intervals an event cannot use; the replay they report is unchanged. */
module ReplaySummaries {
  import opened Basics
  import opened Intervals
  import opened ReplayModel
  import opened ReplayResolver

  /** An interval may touch the window [start, end). */
  predicate Touches(s: Span, start: int, end: int) { s.left < end && s.right >= start }

  function KeepGaps(gaps: seq<Gap>, start: int, end: int): seq<Gap> {
    if gaps == [] then []
    else
      var n := |gaps| - 1;
      KeepGaps(gaps[..n], start, end) + if Touches(gaps[n].span, start, end) then [gaps[n]] else []
  }

  function KeepAvailable(available: seq<Available>, start: int, end: int): seq<Available> {
    if available == [] then []
    else
      var n := |available| - 1;
      KeepAvailable(available[..n], start, end) + if Touches(available[n].span, start, end) then [available[n]] else []
  }

  function Narrowed(day: Day, start: int, end: int): Day {
    day.(gaps := KeepGaps(day.gaps, start, end), available := KeepAvailable(day.available, start, end))
  }

  lemma {:induction false} DroppedGapsCountNothing(gaps: seq<Gap>, start: int, end: int, a: int, b: int)
    requires start <= a && b <= end && a < b
    ensures GapsIn(KeepGaps(gaps, start, end), a, b) == GapsIn(gaps, a, b)
  {
    if gaps != [] {
      var n := |gaps| - 1;
      DroppedGapsCountNothing(gaps[..n], start, end, a, b);
      var kept := KeepGaps(gaps[..n], start, end);
      if Touches(gaps[n].span, start, end) {
        assert (kept + [gaps[n]])[..|kept|] == kept;
      } else {
        assert kept + [] == kept;
        assert GapIn(gaps[n], a, b) == [];
      }
    }
  }

  lemma {:induction false} DroppedIntervalsPlayNothing(
    day: Day, other: Day, path: string, available: seq<Available>, start: int, end: int, a: int, b: int, to: int, gaps: seq<Span>)
    requires start <= a && b <= end && to <= b && day.recordingId == other.recordingId && day.date == other.date
    ensures AvailableAll(other, path, KeepAvailable(available, start, end), a, b, to, gaps)
         == AvailableAll(day, path, available, a, b, to, gaps)
  {
    if available != [] {
      var n := |available| - 1;
      DroppedIntervalsPlayNothing(day, other, path, available[..n], start, end, a, b, to, gaps);
      var kept := KeepAvailable(available[..n], start, end);
      SameContribution(day, other, path, available[n], start, end, a, b, to, gaps);
      if Touches(available[n].span, start, end) {
        assert (kept + [available[n]])[..|kept|] == kept;
      } else {
        assert kept + [] == kept;
        JoinNothing(AvailableAll(day, path, available[..n], a, b, to, gaps));
      }
    }
  }

  lemma SameContribution(
    day: Day, other: Day, path: string, v: Available, start: int, end: int, a: int, b: int, to: int, gaps: seq<Span>)
    requires start <= a && b <= end && to <= b && day.recordingId == other.recordingId && day.date == other.date
    ensures AvailableIn(other, path, v, a, b, to, gaps) == AvailableIn(day, path, v, a, b, to, gaps)
    ensures !Touches(v.span, start, end) ==> AvailableIn(day, path, v, a, b, to, gaps) == Nothing()
  {
  }

  lemma JoinNothing(o: Outcome)
    ensures Join(o, Nothing()) == o
  {
  }

  lemma {:induction false} SameHoles(day: Day, other: Day, holes: seq<Span>)
    requires day.coverageAsOf == other.coverageAsOf && day.Playable() == other.Playable()
    ensures HolesIn(day, holes) == HolesIn(other, holes)
  {
    if holes != [] {
      SameHoles(day, other, holes[..|holes| - 1]);
    }
  }

  /** Inside the window, narrowed metadata says exactly what the full metadata says. */
  lemma NarrowedDaySaysTheSame(day: Day, start: int, end: int, a: int, b: int, now: int)
    requires start <= a && MinInt(b, now) <= end
    ensures DayOutcome(Some(Narrowed(day, start, end)), a, b, now) == DayOutcome(Some(day), a, b, now)
  {
    hide AvailableAll, GapsIn, HolesIn, RemainingOf, SpansOf, KeepGaps, KeepAvailable;
    var (other, confirmed) := (Narrowed(day, start, end), MinInt(b, now));
    if a < confirmed && !day.ExpiredBy(now) {
      DroppedGapsCountNothing(day.gaps, start, end, a, confirmed);
      if day.Playable() {
        DroppedIntervalsPlayNothing(day, other, day.path.value, day.available, start, end, a, confirmed,
                                    AvailableTo(day, confirmed), SpansOf(GapsIn(day.gaps, a, confirmed)));
      }
      var played := LiveOutcome(day, a, confirmed);
      SameHoles(day, other, RemainingOf(a, confirmed, played.covered + SpansOf(GapsIn(day.gaps, a, confirmed))));
    }
  }

  // ---- Dates ----

  /** The dates an event window can use: those of its part before `now`. */
  predicate Uses(event: Event, now: int, date: int) {
    var end := UsableEnd(event, now);
    event.windowState != UnknownWindow && event.windowFrom < end && DateOf(event.windowFrom) <= date <= DateOf(end - 1)
  }

  /** The metadata handed to the resolver: only usable dates, only intervals that may touch the window. */
  function Prepared(event: Event, now: int, metadata: map<int, Day>): map<int, Day> {
    var end := UsableEnd(event, now);
    map d | d in metadata && Uses(event, now, d) :: Narrowed(metadata[d], event.windowFrom, end)
  }

  lemma DatesAreMonotone(s: int, t: int)
    requires s <= t
    ensures DateOf(s) <= DateOf(t)
  {
  }

  lemma {:induction false} PreparedWalk(event: Event, now: int, metadata: map<int, Day>, current: int, end: int, so: Outcome)
    requires event.windowState != UnknownWindow && event.windowFrom <= current
    requires end == if event.windowTo.Some? then event.windowTo.value else now
    ensures Walk(Prepared(event, now, metadata), current, end, now, so) == Walk(metadata, current, end, now, so)
    decreases end - current
  {
    hide DayOutcome;
    if current < end {
      var (until, date) := (SegmentEnd(current, end), DateOf(current));
      var (full, prepared) := (Lookup(metadata, date), Lookup(Prepared(event, now, metadata), date));
      assert DayOutcome(prepared, current, until, now) == DayOutcome(full, current, until, now) by {
        if MinInt(until, now) <= current {
          NothingConfirmed(prepared, full, current, until, now);
        } else {
          DatesAreMonotone(event.windowFrom, current);
          DatesAreMonotone(current, MinInt(end, now) - 1);
          if full.Some? {
            NarrowedDaySaysTheSame(full.value, event.windowFrom, MinInt(end, now), current, until, now);
          }
        }
      }
      PreparedWalk(event, now, metadata, until, end, Join(so, DayOutcome(full, current, until, now)));
    }
  }

  lemma NothingConfirmed(x: Option<Day>, y: Option<Day>, a: int, b: int, now: int)
    requires MinInt(b, now) <= a
    ensures DayOutcome(x, a, b, now) == DayOutcome(y, a, b, now)
  {
  }

  /** The list summary and the detail view resolve the same replay, field by field. */
  lemma SummaryMatchesDetail(event: Event, now: int, metadata: map<int, Day>)
    ensures Resolved(event, now, Prepared(event, now, metadata)) == Resolved(event, now, metadata)
  {
    hide Walk, Finished, Prepared;
    if event.windowState != UnknownWindow {
      PreparedWalk(event, now, metadata, event.windowFrom,
                   if event.windowTo.Some? then event.windowTo.value else now, Nothing());
    }
  }

  // ---- The summaries of one page ----

  const MAX_DATES: nat := 7
  const MAX_WORK: nat := 200_000

  datatype Summary = UnknownSummary(reason: string) | Summary(state: ReplayState, playbackSeconds: real, reasonCodes: seq<string>)

  function SummaryOf(replay: Replay): Summary {
    if "EVENT_REPLAY_SEGMENT_LIMIT" in replay.reasonCodes then UnknownSummary("EVENT_REPLAY_SEGMENT_LIMIT")
    else Summary(replay.state, replay.playbackSeconds, replay.reasonCodes)
  }

  function UsableEnd(event: Event, now: int): int {
    MinInt(if event.windowTo.Some? then event.windowTo.value else now, now)
  }

  /** The consecutive dates an event uses. */
  function DatesOf(event: Event, now: int): seq<int> {
    var end := UsableEnd(event, now);
    if event.windowState == UnknownWindow || end <= event.windowFrom then []
    else
      DatesAreMonotone(event.windowFrom, end - 1);
      var first := DateOf(event.windowFrom);
      seq(DateOf(end - 1) - first + 1, n => first + n)
  }

  lemma DatesAreUsed(event: Event, now: int, date: int)
    ensures date in DatesOf(event, now) <==> Uses(event, now, date)
  {
    if Uses(event, now, date) {
      assert DatesOf(event, now)[date - DateOf(event.windowFrom)] == date;
    }
  }

  function DateSet(dates: seq<int>): set<int> { set d | d in dates }

  /** The dates of one event, or None when they are too many. */
  method Dates(event: Event, now: int) returns (dates: Option<seq<int>>)
    ensures dates == if |DatesOf(event, now)| > MAX_DATES then None else Some(DatesOf(event, now))
  {
    var end := UsableEnd(event, now);
    if event.windowState == UnknownWindow || end <= event.windowFrom {
      return Some([]);
    }
    var first, last := DateOf(event.windowFrom), DateOf(end - 1);
    DatesAreMonotone(event.windowFrom, end - 1);
    var count := last - first + 1;
    if count > MAX_DATES {
      return None;
    }
    return Some(seq(count, n => first + n));
  }

  /** The dates of the events that were not refused. */
  function Union(windows: seq<Option<seq<int>>>): set<int> {
    if windows == [] then {}
    else
      var n := |windows| - 1;
      Union(windows[..n]) + if windows[n].Some? then DateSet(windows[n].value) else {}
  }

  lemma {:induction false} UnionHolds(windows: seq<Option<seq<int>>>, d: int)
    ensures d in Union(windows) <==> exists i :: 0 <= i < |windows| && windows[i].Some? && d in windows[i].value
  {
    if windows != [] {
      UnionHolds(windows[..|windows| - 1], d);
    }
  }

  /** An event's own dates are too many, or too many together with those already chosen. */
  predicate Refused(event: Event, now: int, chosen: set<int>) {
    |DatesOf(event, now)| > MAX_DATES || |chosen + DateSet(DatesOf(event, now))| > MAX_DATES
  }

  /** Choose the dates of a page: an event that would push the page past its date limit is refused, and only such an event. */
  method SelectDates(events: seq<Event>, now: int) returns (windows: seq<Option<seq<int>>>, selected: set<int>)
    ensures |windows| == |events| && |selected| <= MAX_DATES
    ensures selected == Union(windows)
    ensures forall i | 0 <= i < |events| ::
              windows[i] == if Refused(events[i], now, Union(windows[..i])) then None else Some(DatesOf(events[i], now))
  {
    hide DatesOf;
    windows, selected := [], {};
    for i := 0 to |events|
      invariant |windows| == i && |selected| <= MAX_DATES
      invariant selected == Union(windows)
      invariant forall j | 0 <= j < i ::
                  windows[j] == if Refused(events[j], now, Union(windows[..j])) then None else Some(DatesOf(events[j], now))
    {
      var dates := Dates(events[i], now);
      if dates.Some? {
        var wider := selected + DateSet(dates.value);
        if |wider| > MAX_DATES {
          dates := None;
        } else {
          selected := wider;
        }
      }
      ghost var before := windows;
      windows := windows + [dates];
      assert windows[..i] == before;
      assert forall j | 0 <= j < i :: windows[..j] == before[..j];
    }
  }

  method FilterGaps(gaps: seq<Gap>, start: int, end: int) returns (kept: seq<Gap>)
    ensures kept == KeepGaps(gaps, start, end)
  {
    kept := [];
    for i := 0 to |gaps|
      invariant kept == KeepGaps(gaps[..i], start, end)
    {
      assert gaps[..i + 1][..i] == gaps[..i];
      if gaps[i].span.left < end && gaps[i].span.right >= start {
        kept := kept + [gaps[i]];
      }
    }
    assert gaps[..|gaps|] == gaps;
  }

  method FilterAvailable(available: seq<Available>, start: int, end: int) returns (kept: seq<Available>)
    ensures kept == KeepAvailable(available, start, end)
  {
    kept := [];
    for i := 0 to |available|
      invariant kept == KeepAvailable(available[..i], start, end)
    {
      assert available[..i + 1][..i] == available[..i];
      if available[i].span.left < end && available[i].span.right >= start {
        kept := kept + [available[i]];
      }
    }
    assert available[..|available|] == available;
  }

  // ---- The work of one page ----

  /** What looking through the stored days of the dates costs. */
  function ScanOf(dates: seq<int>, metadata: map<int, Day>): nat {
    if dates == [] then 0
    else
      var n := |dates| - 1;
      ScanOf(dates[..n], metadata)
      + if dates[n] in metadata then |metadata[dates[n]].available| + |metadata[dates[n]].gaps| else 0
  }

  /** What comparing the narrowed intervals with the narrowed gaps of each day costs at most. */
  function CostOf(dates: seq<int>, metadata: map<int, Day>, start: int, end: int): nat {
    if dates == [] then 0
    else
      var n := |dates| - 1;
      CostOf(dates[..n], metadata, start, end)
      + if dates[n] in metadata then DayCost(Narrowed(metadata[dates[n]], start, end)) else 0
  }

  function DayCost(day: Day): nat { (|day.available| + 1) * (|day.gaps| + 1) }

  function EventCost(event: Event, now: int, dates: seq<int>, metadata: map<int, Day>): nat {
    CostOf(dates, metadata, event.windowFrom, UsableEnd(event, now))
  }

  /** The stored days of an event, narrowed to its window, with the work they cost to scan and to resolve. */
  method PrepareDays(event: Event, now: int, dates: seq<int>, metadata: map<int, Day>)
    returns (days: map<int, Day>, scan: nat, cost: nat)
    requires dates == DatesOf(event, now)
    ensures days == Prepared(event, now, metadata)
    ensures scan == ScanOf(dates, metadata) && cost == EventCost(event, now, dates, metadata)
  {
    hide DatesOf, Uses, KeepGaps, KeepAvailable, DayCost, UsableEnd;
    var start, end := event.windowFrom, UsableEnd(event, now);
    days, scan, cost := map[], 0, 0;
    for i := 0 to |dates|
      invariant days == map d | d in metadata && d in dates[..i] :: Narrowed(metadata[d], start, end)
      invariant scan == ScanOf(dates[..i], metadata) && cost == CostOf(dates[..i], metadata, start, end)
    {
      var d := dates[i];
      assert dates[..i + 1] == dates[..i] + [d];
      assert dates[..i + 1][..i] == dates[..i];
      if d in metadata {
        var day := metadata[d];
        var gaps := FilterGaps(day.gaps, start, end);
        var available := FilterAvailable(day.available, start, end);
        days := days[d := day.(gaps := gaps, available := available)];
        scan := scan + |day.available| + |day.gaps|;
        cost := cost + DayCost(day.(gaps := gaps, available := available));
      }
    }
    assert dates[..|dates|] == dates;
    forall d
      ensures d in dates <==> Uses(event, now, d)
    {
      DatesAreUsed(event, now, d);
    }
  }

  /** The error of the first date that has one. */
  function FirstErrorOf(dates: seq<int>, errors: map<int, string>): Option<string> {
    if dates == [] then None
    else if dates[0] in errors then Some(errors[dates[0]])
    else FirstErrorOf(dates[1..], errors)
  }

  method FirstError(dates: seq<int>, errors: map<int, string>) returns (error: Option<string>)
    ensures error == FirstErrorOf(dates, errors)
  {
    for i := 0 to |dates|
      invariant FirstErrorOf(dates[i..], errors) == FirstErrorOf(dates, errors)
    {
      if dates[i] in errors {
        return Some(errors[dates[i]]);
      }
      assert dates[i..][1..] == dates[i + 1..];
    }
    return None;
  }

  /** An event whose window was refused, or whose first failed date has a reason, costs nothing. */
  predicate Settled(window: Option<seq<int>>, errors: map<int, string>) {
    window.None? || (FirstErrorOf(window.value, errors).Some? && FirstErrorOf(window.value, errors).value != "")
  }

  predicate ScanExceeds(work: nat, dates: seq<int>, metadata: map<int, Day>) { work + ScanOf(dates, metadata) > MAX_WORK }

  /** The work of the events before plus this event's own exceeds the budget of the page. */
  predicate Exceeds(work: nat, event: Event, now: int, dates: seq<int>, metadata: map<int, Day>) {
    work + ScanOf(dates, metadata) + EventCost(event, now, dates, metadata) > MAX_WORK
  }

  /** The work after one event: scanning counts even when resolving would go too far. */
  function WorkAfter(work: nat, event: Event, now: int, window: Option<seq<int>>, metadata: map<int, Day>, errors: map<int, string>): nat {
    if Settled(window, errors) || ScanExceeds(work, window.value, metadata) then work
    else if Exceeds(work, event, now, window.value, metadata) then work + ScanOf(window.value, metadata)
    else work + ScanOf(window.value, metadata) + EventCost(event, now, window.value, metadata)
  }

  /** The work of the first events of a page. */
  function WorkOf(events: seq<Event>, now: int, windows: seq<Option<seq<int>>>, metadata: map<int, Day>, errors: map<int, string>, n: nat): nat
    requires |windows| == |events| && n <= |events|
  {
    if n == 0 then 0
    else WorkAfter(WorkOf(events, now, windows, metadata, errors, n - 1), events[n - 1], now, windows[n - 1], metadata, errors)
  }

  /** What a summary has to be: a refused window, a failed date, the work limit exactly when it is exceeded, or the detail replay itself. */
  function Expected(event: Event, now: int, window: Option<seq<int>>, metadata: map<int, Day>, errors: map<int, string>, work: nat): Summary {
    if window.None? then UnknownSummary("PLAYBACK_SUMMARY_DATE_LIMIT")
    else if Settled(window, errors) then UnknownSummary(FirstErrorOf(window.value, errors).value)
    else if Exceeds(work, event, now, window.value, metadata) then UnknownSummary("PLAYBACK_SUMMARY_WORK_LIMIT")
    else SummaryOf(Resolved(event, now, metadata))
  }

  predicate Admitted(event: Event, now: int, window: Option<seq<int>>) { window.Some? ==> window.value == DatesOf(event, now) }

  /** One event of a page: its summary and what it adds to the work. */
  method SummarizeOne(event: Event, now: int, window: Option<seq<int>>, metadata: map<int, Day>, errors: map<int, string>, work: nat)
    returns (summary: Summary, total: nat)
    requires work <= MAX_WORK && Admitted(event, now, window)
    ensures summary == Expected(event, now, window, metadata, errors, work)
    ensures total == WorkAfter(work, event, now, window, metadata, errors) <= MAX_WORK
  {
    hide Resolved, SummaryOf, Prepared, DatesOf, ScanOf, CostOf, FirstErrorOf;
    total := work;
    if window.None? {
      return UnknownSummary("PLAYBACK_SUMMARY_DATE_LIMIT"), total;
    }
    var error := FirstError(window.value, errors);
    if error.Some? && error.value != "" {
      return UnknownSummary(error.value), total;
    }
    var days, scan, cost := PrepareDays(event, now, window.value, metadata);
    if work + scan > MAX_WORK {
      return UnknownSummary("PLAYBACK_SUMMARY_WORK_LIMIT"), total;
    }
    total := work + scan;
    if total + cost > MAX_WORK {
      return UnknownSummary("PLAYBACK_SUMMARY_WORK_LIMIT"), total;
    }
    total := total + cost;
    var replay := ResolveEventReplay(event, now, days);
    SummaryMatchesDetail(event, now, metadata);
    summary := SummaryOf(replay);
  }

  /**
   * The list summaries of a page within one work budget. A summary is exactly what the detail view of
   * the same event reports from the full metadata, unless its window was refused, one of its dates failed,
   * or the work of the events before it and its own together exceed the budget, and then it says which.
   */
  method AddPlaybackSummaries(
    events: seq<Event>, now: int, windows: seq<Option<seq<int>>>, metadata: map<int, Day>, errors: map<int, string>)
    returns (summaries: seq<Summary>, work: nat)
    requires |windows| == |events|
    requires forall i | 0 <= i < |events| :: Admitted(events[i], now, windows[i])
    ensures |summaries| == |events|
    ensures work == WorkOf(events, now, windows, metadata, errors, |events|) <= MAX_WORK
    ensures forall i | 0 <= i < |events| ::
              summaries[i] == Expected(events[i], now, windows[i], metadata, errors, WorkOf(events, now, windows, metadata, errors, i))
  {
    hide Expected, Admitted, WorkAfter;
    summaries, work := [], 0;
    for i := 0 to |events|
      invariant |summaries| == i
      invariant work == WorkOf(events, now, windows, metadata, errors, i) <= MAX_WORK
      invariant forall j | 0 <= j < i ::
                  summaries[j] == Expected(events[j], now, windows[j], metadata, errors, WorkOf(events, now, windows, metadata, errors, j))
    {
      var summary, total := SummarizeOne(events[i], now, windows[i], metadata, errors, work);
      summaries, work := summaries + [summary], total;
    }
  }
}
