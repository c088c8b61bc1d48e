/** What a page of list summaries promises: which dates it reads, what it drops, and that only costly pages meet a limit. */
module ReplaySummaryLaws {
  import opened Basics
  import opened Intervals
  import opened ReplayModel
  import opened ReplayResolver
  import opened ReplayContents
  import opened ReplaySummaries

  // ---- Dates ----

  /** The window is known and some instant of it before now has the date. */
  ghost predicate HasInstantOn(event: Event, now: int, date: int) {
    event.windowState != UnknownWindow
    && exists t | event.windowFrom <= t < now && (event.windowTo.Some? ==> t < event.windowTo.value) :: DateOf(t) == date
  }

  lemma InItsDay(t: int)
    ensures Midnight(DateOf(t)) <= t < Midnight(DateOf(t) + 1)
  {
  }

  lemma DaysFollow(a: int, b: int)
    requires a <= b
    ensures Midnight(a) <= Midnight(b) < Midnight(b + 1)
  {
  }

  /** Every date from that of one instant to that of a later one is the date of an instant between them. */
  lemma DateIsOfSome(from: int, to: int, date: int) returns (t: int)
    requires from <= to && DateOf(from) <= date <= DateOf(to)
    ensures from <= t <= to && DateOf(t) == date
  {
    t := MaxInt(from, Midnight(date));
    InItsDay(from);
    InItsDay(to);
    KoreanDays(t, date);
    DaysFollow(DateOf(from) + 1, date + 1);
    DaysFollow(date, DateOf(to));
    hide DateOf, Midnight;
  }

  /** The dates an event reads are exactly those of the instants of its window before now. */
  lemma DatesAreOfInstants(event: Event, now: int, date: int)
    ensures date in DatesOf(event, now) <==> HasInstantOn(event, now, date)
  {
    DatesAreUsed(event, now, date);
    hide DateOf;
    var end := UsableEnd(event, now);
    if Uses(event, now, date) {
      var t := DateIsOfSome(event.windowFrom, end - 1, date);
    }
    if HasInstantOn(event, now, date) {
      var t :| event.windowFrom <= t < now && (event.windowTo.Some? ==> t < event.windowTo.value) && DateOf(t) == date;
      DatesAreMonotone(event.windowFrom, t);
      DatesAreMonotone(t, end - 1);
    }
  }

  /** Each once and in order. */
  lemma DatesFollow(event: Event, now: int)
    ensures forall i | 0 <= i < |DatesOf(event, now)| :: DatesOf(event, now)[i] == DateOf(event.windowFrom) + i
  {
  }

  lemma DatesAreDistinct(event: Event, now: int)
    ensures |DateSet(DatesOf(event, now))| == |DatesOf(event, now)|
  {
    var dates := DatesOf(event, now);
    if dates != [] {
      ConsecutiveSet(dates, |dates|);
      assert dates[..|dates|] == dates;
    }
  }

  lemma {:induction false} ConsecutiveSet(dates: seq<int>, n: nat)
    requires n <= |dates| && forall i | 0 <= i < |dates| :: dates[i] == dates[0] + i
    ensures |DateSet(dates[..n])| == n
  {
    if n > 0 {
      ConsecutiveSet(dates, n - 1);
      assert DateSet(dates[..n]) == DateSet(dates[..n - 1]) + {dates[n - 1]};
      assert dates[n - 1] !in dates[..n - 1];
    }
  }

  /** The dates of all events of a page. */
  function AllDates(events: seq<Event>, now: int): set<int> {
    if events == [] then {} else AllDates(events[..|events| - 1], now) + DateSet(DatesOf(events[|events| - 1], now))
  }

  lemma {:induction false} DatesAreAmongAll(events: seq<Event>, now: int, i: nat)
    requires i < |events|
    ensures DateSet(DatesOf(events[i], now)) <= AllDates(events, now)
  {
    hide DatesOf, DateSet;
    if i < |events| - 1 {
      DatesAreAmongAll(events[..|events| - 1], now, i);
    }
  }

  /** The windows as the selection of a page leaves them. */
  predicate Chosen(events: seq<Event>, now: int, windows: seq<Option<seq<int>>>) {
    && |windows| == |events|
    && forall i | 0 <= i < |events| ::
         windows[i] == if Refused(events[i], now, Union(windows[..i])) then None else Some(DatesOf(events[i], now))
  }

  lemma {:induction false} ChosenAreAmongAll(events: seq<Event>, now: int, windows: seq<Option<seq<int>>>, n: nat)
    requires Chosen(events, now, windows) && n <= |events|
    ensures Union(windows[..n]) <= AllDates(events, now)
  {
    hide DatesOf, DateSet, Refused;
    if n > 0 {
      ChosenAreAmongAll(events, now, windows, n - 1);
      assert windows[..n][..n - 1] == windows[..n - 1];
      DatesAreAmongAll(events, now, n - 1);
    }
  }

  /** A page whose events together use at most seven dates has none of them refused. */
  lemma SmallPageIsServed(events: seq<Event>, now: int, windows: seq<Option<seq<int>>>, i: nat)
    requires Chosen(events, now, windows) && |AllDates(events, now)| <= 7 && i < |events|
    ensures windows[i] == Some(DatesOf(events[i], now))
  {
    ChosenAreAmongAll(events, now, windows, i);
    DatesAreAmongAll(events, now, i);
    DatesAreDistinct(events[i], now);
    hide DatesOf, DateSet, Union, AllDates;
    var dates := DateSet(DatesOf(events[i], now));
    SubsetSize(dates, AllDates(events, now));
    SubsetSize(Union(windows[..i]) + dates, AllDates(events, now));
  }

  // ---- What is dropped ----

  /** Narrowing keeps, as often as it occurs, exactly what begins before the end of the past window and ends at its start or later. */
  lemma {:induction false} GapIsKeptIff(gaps: seq<Gap>, start: int, end: int, g: Gap)
    ensures multiset(KeepGaps(gaps, start, end))[g] == if g.span.left < end && g.span.right >= start then multiset(gaps)[g] else 0
  {
    if gaps != [] {
      var n := |gaps| - 1;
      GapIsKeptIff(gaps[..n], start, end, g);
      assert gaps == gaps[..n] + [gaps[n]];
      assert multiset([gaps[n]])[g] == if g == gaps[n] then 1 else 0;
    }
  }

  lemma {:induction false} IntervalIsKeptIff(available: seq<Available>, start: int, end: int, a: Available)
    ensures multiset(KeepAvailable(available, start, end))[a]
         == if a.span.left < end && a.span.right >= start then multiset(available)[a] else 0
  {
    if available != [] {
      var n := |available| - 1;
      IntervalIsKeptIff(available[..n], start, end, a);
      assert available == available[..n] + [available[n]];
      assert multiset([available[n]])[a] == if a == available[n] then 1 else 0;
    }
  }

  // ---- Work ----

  predicate NoneFailed(dates: seq<int>, errors: map<int, string>) { forall i | 0 <= i < |dates| :: dates[i] !in errors }

  /** What an event's stored days cost to look through, and then to compare, every kept interval with every kept gap. */
  function Effort(event: Event, now: int, metadata: map<int, Day>): nat {
    ScanOf(DatesOf(event, now), metadata) + EventCost(event, now, DatesOf(event, now), metadata)
  }

  function EffortOf(events: seq<Event>, now: int, metadata: map<int, Day>): nat {
    if events == [] then 0 else EffortOf(events[..|events| - 1], now, metadata) + Effort(events[|events| - 1], now, metadata)
  }

  lemma {:induction false} EffortGrows(events: seq<Event>, now: int, metadata: map<int, Day>, n: nat)
    requires n <= |events|
    ensures EffortOf(events[..n], now, metadata) <= EffortOf(events, now, metadata)
    decreases |events|
  {
    hide Effort;
    if n < |events| {
      EffortGrows(events[..|events| - 1], now, metadata, n);
      assert events[..|events| - 1][..n] == events[..n];
    } else {
      assert events[..n] == events;
    }
  }

  predicate AllAdmitted(events: seq<Event>, now: int, windows: seq<Option<seq<int>>>) {
    |windows| == |events| && forall i | 0 <= i < |events| :: Admitted(events[i], now, windows[i])
  }

  /** Whatever is refused or fails, the work of a page is at most the effort of its events. */
  lemma {:induction false} WorkIsEffort(
    events: seq<Event>, now: int, windows: seq<Option<seq<int>>>, metadata: map<int, Day>, errors: map<int, string>, n: nat)
    requires AllAdmitted(events, now, windows) && n <= |events|
    ensures WorkOf(events, now, windows, metadata, errors, n) <= EffortOf(events[..n], now, metadata)
  {
    hide DatesOf, ScanOf, EventCost, FirstErrorOf;
    if n > 0 {
      WorkIsEffort(events, now, windows, metadata, errors, n - 1);
      assert events[..n][..n - 1] == events[..n - 1];
    }
  }

  /**
   * A page whose effort is within 200 000 never meets the work limit: every event that was not refused and has no
   * failed date is summarised as its detail view reports it.
   */
  lemma CheapPageIsServed(
    events: seq<Event>, now: int, windows: seq<Option<seq<int>>>, metadata: map<int, Day>, errors: map<int, string>, i: nat)
    requires AllAdmitted(events, now, windows) && i < |events| && EffortOf(events, now, metadata) <= 200_000
    requires windows[i].Some? && NoneFailed(windows[i].value, errors)
    ensures var r := Resolved(events[i], now, metadata);
            Expected(events[i], now, windows[i], metadata, errors, WorkOf(events, now, windows, metadata, errors, i))
            == if "EVENT_REPLAY_SEGMENT_LIMIT" in r.reasonCodes then UnknownSummary("EVENT_REPLAY_SEGMENT_LIMIT")
               else Summary(r.state, r.playbackSeconds, r.reasonCodes)
  {
    hide DatesOf, ScanOf, EventCost, Resolved, WorkOf;
    WorkIsEffort(events, now, windows, metadata, errors, i);
    EffortGrows(events, now, metadata, i + 1);
    assert events[..i + 1][..i] == events[..i];
    FirstErrorIs(windows[i].value, errors);
  }

  /** The first date that failed names the error. */
  lemma {:induction false} FirstErrorIs(dates: seq<int>, errors: map<int, string>)
    ensures FirstErrorOf(dates, errors).None? <==> NoneFailed(dates, errors)
    ensures FirstErrorOf(dates, errors).Some? ==>
              exists i | 0 <= i < |dates| :: IsFirstError(dates, errors, i) && FirstErrorOf(dates, errors).value == errors[dates[i]]
  {
    if dates != [] && dates[0] !in errors {
      FirstErrorIs(dates[1..], errors);
      if FirstErrorOf(dates, errors).Some? {
        var i :| 0 <= i < |dates[1..]| && IsFirstError(dates[1..], errors, i) && FirstErrorOf(dates, errors).value == errors[dates[1..][i]];
        assert IsFirstError(dates, errors, i + 1);
      }
      assert forall i | 0 < i < |dates| :: dates[i] == dates[1..][i - 1];
    } else if dates != [] {
      assert dates[0] in dates && IsFirstError(dates, errors, 0);
    }
  }

  lemma {:induction false} FirstErrorAt(dates: seq<int>, errors: map<int, string>, i: nat)
    requires IsFirstError(dates, errors, i)
    ensures FirstErrorOf(dates, errors) == Some(errors[dates[i]])
  {
    if i > 0 {
      FirstErrorAt(dates[1..], errors, i - 1);
    }
  }

  predicate IsFirstError(dates: seq<int>, errors: map<int, string>, i: nat) {
    i < |dates| && dates[i] in errors && forall j | 0 <= j < i :: dates[j] !in errors
  }

  /** What else a summary says: why the window was refused, which date failed, or that the work so far left too little. */
  lemma OtherSummariesAreReasons(event: Event, now: int, window: Option<seq<int>>, metadata: map<int, Day>, errors: map<int, string>, work: nat)
    ensures var said := Expected(event, now, window, metadata, errors, work);
            && (window.None? ==> said == UnknownSummary("PLAYBACK_SUMMARY_DATE_LIMIT"))
            && (window.Some? ==>
                  && (forall i | 0 <= i < |window.value| && IsFirstError(window.value, errors, i) && errors[window.value[i]] != "" ::
                        said == UnknownSummary(errors[window.value[i]]))
                  && (window == Some(DatesOf(event, now)) && work + Effort(event, now, metadata) > 200_000
                      && NoneFailed(window.value, errors) ==>
                        said == UnknownSummary("PLAYBACK_SUMMARY_WORK_LIMIT")))
  {
    hide DatesOf, ScanOf, EventCost, Resolved;
    if window.Some? {
      FirstErrorIs(window.value, errors);
      forall i | 0 <= i < |window.value| && IsFirstError(window.value, errors, i)
        ensures FirstErrorOf(window.value, errors) == Some(errors[window.value[i]])
      {
        FirstErrorAt(window.value, errors, i);
      }
    }
  }

  /** The costs of several dates add up; one date costs its stored intervals and gaps, and the product of the kept ones and one more each. */
  lemma {:induction false} CostsAdd(a: seq<int>, b: seq<int>, metadata: map<int, Day>, start: int, end: int)
    ensures ScanOf(a + b, metadata) == ScanOf(a, metadata) + ScanOf(b, metadata)
    ensures CostOf(a + b, metadata, start, end) == CostOf(a, metadata, start, end) + CostOf(b, metadata, start, end)
    ensures |b| == 1 ==>
              if b[0] !in metadata then ScanOf(b, metadata) == CostOf(b, metadata, start, end) == 0
              else
                var day := metadata[b[0]];
                && ScanOf(b, metadata) == |day.available| + |day.gaps|
                && CostOf(b, metadata, start, end)
                   == (|KeepAvailable(day.available, start, end)| + 1) * (|KeepGaps(day.gaps, start, end)| + 1)
  {
    hide KeepGaps, KeepAvailable;
    if b == [] {
      assert a + b == a;
    } else {
      var n := |b| - 1;
      CostsAdd(a, b[..n], metadata, start, end);
      assert (a + b)[..|a + b| - 1] == a + b[..n];
    }
  }
}
