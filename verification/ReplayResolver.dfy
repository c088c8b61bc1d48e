/** The resolver as the program runs it: one result record filled day by day. */
module ReplayResolver {
  import opened Basics
  import opened Intervals
  import opened ReplayModel

  const MAX_PARTS: nat := 2000

  datatype WindowState = ClosedWindow | OpenWindow | UnknownWindow | PointWindow

  datatype Event = Event(windowState: WindowState, windowFrom: int, windowTo: Option<int>, reasonCodes: seq<string>)

  datatype ReplayState = AvailableState | Partial | Processing | UnavailableState

  datatype Replay = Replay(
    state: ReplayState, effectiveTo: Option<int>, requested: Option<int>, covered: int, playbackSeconds: real,
    parts: seq<Part>, unavailable: seq<Unavailable>, reasonCodes: seq<string>)

  // ---- The walk over the days of a window ----

  function SegmentEnd(current: int, end: int): (until: int)
    ensures current < end ==> current < until <= end
    ensures until <= Midnight(DateOf(current) + 1)
  {
    MinInt(end, Midnight(DateOf(current) + 1))
  }

  function Lookup(days: map<int, Day>, date: int): Option<Day> {
    if date in days then Some(days[date]) else None
  }

  predicate TooMany(o: Outcome) { |o.parts| + |o.unavailable| > MAX_PARTS }

  /** What the days from `current` on add to `so`; None when the segment limit stops the walk. */
  function Walk(days: map<int, Day>, current: int, end: int, now: int, so: Outcome): Option<Outcome>
    decreases end - current
  {
    if current >= end then Some(so)
    else
      var until := SegmentEnd(current, end);
      var next := Join(so, DayOutcome(Lookup(days, DateOf(current)), current, until, now));
      if TooMany(next) then None else Walk(days, until, end, now, next)
  }

  // ---- Ordering and the relative timeline ----

  predicate PartBefore(x: Part, y: Part) {
    || x.span.left < y.span.left
    || (x.span.left == y.span.left && (x.date < y.date || (x.date == y.date && x.startSeconds <= y.startSeconds)))
  }

  function InsertPart(parts: seq<Part>, p: Part): seq<Part> {
    if parts == [] then [p]
    else if PartBefore(parts[0], p) then [parts[0]] + InsertPart(parts[1..], p)
    else [p] + parts
  }

  function SortParts(parts: seq<Part>): seq<Part> {
    if parts == [] then [] else InsertPart(SortParts(parts[..|parts| - 1]), parts[|parts| - 1])
  }

  function Played(parts: seq<Part>): real {
    if parts == [] then 0.0 else Played(parts[..|parts| - 1]) + parts[|parts| - 1].endSeconds - parts[|parts| - 1].startSeconds
  }

  /** Parts placed one after another from zero. */
  function Timeline(parts: seq<Part>): seq<Part> {
    if parts == [] then []
    else
      var n := |parts| - 1;
      Timeline(parts[..n]) + [parts[n].(relativeStart := Played(parts[..n]), relativeEnd := Played(parts))]
  }

  // ---- Reason codes without repetition ----

  function Distinct(codes: seq<string>): seq<string> {
    if codes == [] then []
    else
      var (rest, last) := (Distinct(codes[..|codes| - 1]), codes[|codes| - 1]);
      if last in rest then rest else rest + [last]
  }

  function Reasons(unavailable: seq<Unavailable>): seq<string> {
    seq(|unavailable|, i requires 0 <= i < |unavailable| => unavailable[i].reason)
  }

  predicate Waiting(u: Unavailable) {
    u.kind == Future || u.reason == "COVERAGE_PENDING" || u.reason == "PLAYBACK_NOT_READY"
  }

  function StateOf(event: Event, start: int, end: int, o: Outcome): ReplayState {
    var complete := RemainingOf(start, end, o.covered) == [] && o.unavailable == [];
    if complete && event.windowState != OpenWindow then AvailableState
    else if o.parts != [] then Partial
    else if o.unavailable != [] && forall i | 0 <= i < |o.unavailable| :: Waiting(o.unavailable[i]) then Processing
    else UnavailableState
  }

  function Finished(event: Event, start: int, end: int, o: Outcome): Replay {
    var parts := SortParts(o.parts);
    var open := if event.windowState == OpenWindow then ["COLLECTION_IN_PROGRESS"] else [];
    Replay(StateOf(event, start, end, o), Some(end), Some(end - start), Swept(None, Sort(o.covered)), Played(parts),
           Timeline(parts), o.unavailable, Distinct(o.reasons + open + Reasons(o.unavailable)))
  }

  function Resolved(event: Event, now: int, days: map<int, Day>): Replay {
    var blank := Replay(UnavailableState, None, None, 0, 0.0, [], [], []);
    if event.windowState == UnknownWindow then blank.(reasonCodes := event.reasonCodes)
    else
      var end := if event.windowTo.Some? then event.windowTo.value else now;
      var start := event.windowFrom;
      var sized := blank.(effectiveTo := Some(end), requested := Some(end - start));
      if end <= start then sized.(reasonCodes := ["EVENT_WINDOW_EMPTY"])
      else
        match Walk(days, start, end, now, Nothing())
        case None => sized.(reasonCodes := ["EVENT_REPLAY_SEGMENT_LIMIT"])
        case Some(o) => Finished(event, start, end, o)
  }

  lemma GapsGrow(gaps: seq<Gap>, i: nat, start: int, confirmed: int)
    requires i < |gaps|
    ensures GapsIn(gaps[..i + 1], start, confirmed) == GapsIn(gaps[..i], start, confirmed) + GapIn(gaps[i], start, confirmed)
    ensures SpansOf(GapsIn(gaps[..i + 1], start, confirmed))
         == SpansOf(GapsIn(gaps[..i], start, confirmed)) + SpansOf(GapIn(gaps[i], start, confirmed))
  {
    hide GapIn;
    assert gaps[..i + 1][..i] == gaps[..i];
  }

  lemma AvailableGrows(day: Day, path: string, available: seq<Available>, i: nat, start: int, confirmed: int, to: int, gaps: seq<Span>)
    requires i < |available|
    ensures AvailableAll(day, path, available[..i + 1], start, confirmed, to, gaps)
         == Join(AvailableAll(day, path, available[..i], start, confirmed, to, gaps),
                 AvailableIn(day, path, available[i], start, confirmed, to, gaps))
  {
    hide AvailableIn, Join;
    assert available[..i + 1][..i] == available[..i];
  }

  lemma NothingAvailable(day: Day, path: string, available: seq<Available>, start: int, confirmed: int, to: int, gaps: seq<Span>)
    ensures AvailableAll(day, path, available[..0], start, confirmed, to, gaps) == Nothing()
  {
  }

  lemma GapsStart(gaps: seq<Gap>, start: int, confirmed: int)
    ensures GapsIn(gaps[..0], start, confirmed) == [] && SpansOf(GapsIn(gaps[..0], start, confirmed)) == []
  {
  }

  lemma OneGap(gap: Gap, start: int, confirmed: int)
    ensures GapIn(gap, start, confirmed) == [] || |GapIn(gap, start, confirmed)| == 1
    ensures SpansOf(GapIn(gap, start, confirmed))
         == if GapIn(gap, start, confirmed) == [] then [] else [GapIn(gap, start, confirmed)[0].span]
  {
  }

  // ---- The imperative resolver ----

  class ReplayBuilder {
    var parts: seq<Part>
    var unavailable: seq<Unavailable>
    var reasonCodes: seq<string>

    constructor ()
      ensures parts == [] && unavailable == [] && reasonCodes == []
    {
      parts, unavailable, reasonCodes := [], [], [];
    }

    method Miss(span: Span, kind: Kind, reason: string)
      modifies this`unavailable
      ensures unavailable == old(unavailable) + Missed(span, kind, reason)
    {
      if span.right >= span.left {
        unavailable := unavailable + [Unavailable(span, kind, reason)];
      }
    }

    method CollectGaps(gaps: seq<Gap>, start: int, confirmed: int) returns (spans: seq<Span>)
      modifies this`unavailable
      ensures unavailable == old(unavailable) + GapsIn(gaps, start, confirmed)
      ensures spans == SpansOf(GapsIn(gaps, start, confirmed))
    {
      hide GapsIn, SpansOf;
      spans := [];
      GapsStart(gaps, start, confirmed);
      for i := 0 to |gaps|
        invariant unavailable == old(unavailable) + GapsIn(gaps[..i], start, confirmed)
        invariant spans == SpansOf(GapsIn(gaps[..i], start, confirmed))
      {
        var gap := gaps[i];
        GapsGrow(gaps, i, start, confirmed);
        OneGap(gap, start, confirmed);
        var left, right := MaxInt(start, gap.span.left), MinInt(confirmed, gap.span.right);
        if left < right || (left == right && start <= gap.span.left < confirmed && gap.span.left == gap.span.right) {
          Miss(Span(left, right), GapKind, gap.reason);
          spans := spans + [Span(left, right)];
        }
      }
      assert gaps[..|gaps|] == gaps;
    }

    method CollectAvailable(day: Day, path: string, start: int, confirmed: int, availableTo: int, gaps: seq<Span>)
      returns (covered: seq<Span>)
      modifies this`parts, this`reasonCodes
      ensures var o := AvailableAll(day, path, day.available, start, confirmed, availableTo, gaps);
        parts == old(parts) + o.parts && reasonCodes == old(reasonCodes) + o.reasons && covered == o.covered
    {
      hide AvailableIn, AvailableAll;
      covered := [];
      assert AvailableAll(day, path, day.available[..0], start, confirmed, availableTo, gaps) == Nothing() by {
        NothingAvailable(day, path, day.available, start, confirmed, availableTo, gaps);
      }
      for i := 0 to |day.available|
        invariant var o := AvailableAll(day, path, day.available[..i], start, confirmed, availableTo, gaps);
          parts == old(parts) + o.parts && reasonCodes == old(reasonCodes) + o.reasons && covered == o.covered
      {
        var a := day.available[i];
        AvailableGrows(day, path, day.available, i, start, confirmed, availableTo, gaps);
        var span := CollectOne(day, path, a, start, confirmed, availableTo, gaps);
        covered := covered + span;
      }
      assert day.available[..|day.available|] == day.available;
    }

    method CollectOne(day: Day, path: string, a: Available, start: int, confirmed: int, availableTo: int, gaps: seq<Span>)
      returns (covered: seq<Span>)
      modifies this`parts, this`reasonCodes
      ensures var o := AvailableIn(day, path, a, start, confirmed, availableTo, gaps);
        parts == old(parts) + o.parts && reasonCodes == old(reasonCodes) + o.reasons && covered == o.covered
    {
      covered := [];
      if a.span.left == a.span.right {
        var point := a.span.left;
        if start <= point < confirmed && point <= availableTo {
          parts := parts + [PartOf(day, path, Span(point, point), a.playStart, a.playEnd, true)];
        }
        return;
      }
      var left, right := MaxInt(start, a.span.left), MinInt(availableTo, a.span.right);
      if left >= right {
        return;
      }
      if Conflicts(gaps, Span(left, right)) {
        reasonCodes := reasonCodes + ["COVERAGE_METADATA_CONFLICT"];
        return;
      }
      var begin, finish := Position(a, left), Position(a, right);
      if finish <= begin {
        reasonCodes := reasonCodes + ["PLAYBACK_MAPPING_PRECISION"];
        return;
      }
      parts := parts + [PartOf(day, path, Span(left, right), begin, finish, false)];
      covered := [Span(left, right)];
    }

    method ResolveLive(day: Day, start: int, confirmed: int) returns (covered: seq<Span>)
      modifies this
      ensures var o := LiveOutcome(day, start, confirmed);
        && parts == old(parts) + o.parts && unavailable == old(unavailable) + o.unavailable
        && reasonCodes == old(reasonCodes) + o.reasons && covered == o.covered
    {
      hide GapsIn, AvailableAll, AvailableTo, RemainingOf, HolesIn, Day.Playable;
      covered := [];
      if day.error.Some? {
        reasonCodes := reasonCodes + [day.error.value];
      }
      var gaps := CollectGaps(day.gaps, start, confirmed);
      if day.Playable() {
        covered := CollectAvailable(day, day.path.value, start, confirmed, AvailableTo(day, confirmed), gaps);
      }
      var holes := Remaining(start, confirmed, covered + gaps);
      CollectHoles(day, holes);
    }

    method CollectHoles(day: Day, holes: seq<Span>)
      modifies this`unavailable
      ensures unavailable == old(unavailable) + HolesIn(day, holes)
    {
      hide HoleReason, Day.Playable;
      for i := 0 to |holes|
        invariant unavailable == old(unavailable) + HolesIn(day, holes[..i])
      {
        assert holes[..i + 1][..i] == holes[..i];
        var reason := ReasonFor(day, holes[i]);
        Miss(holes[i], Unconfirmed, reason);
      }
      assert holes[..|holes|] == holes;
    }

    method ReasonFor(day: Day, hole: Span) returns (reason: string)
      ensures reason == HoleReason(day, hole)
    {
      reason :=
        if hole.left >= day.coverageAsOf then "COVERAGE_PENDING"
        else if !day.Playable() then "PLAYBACK_NOT_READY"
        else "COVERAGE_UNCONFIRMED";
    }

    method ResolveDay(day: Option<Day>, start: int, end: int, now: int) returns (covered: seq<Span>)
      modifies this
      ensures var o := DayOutcome(day, start, end, now);
        && parts == old(parts) + o.parts && unavailable == old(unavailable) + o.unavailable
        && reasonCodes == old(reasonCodes) + o.reasons && covered == o.covered
    {
      hide LiveOutcome, Day.ExpiredBy;
      covered := [];
      var confirmed := MinInt(end, now);
      if end > now {
        Miss(Span(MaxInt(start, now), end), Future, "FUTURE_INTERVAL");
      }
      if confirmed <= start {
        return;
      }
      if day.None? {
        Miss(Span(start, confirmed), Missing, "DAILY_RECORDING_NOT_FOUND");
        return;
      }
      if day.value.ExpiredBy(now) {
        Miss(Span(start, confirmed), ExpiredKind, "DAILY_RECORDING_EXPIRED");
        return;
      }
      covered := ResolveLive(day.value, start, confirmed);
    }
  }

  /** Place sorted parts on the relative timeline with one running total. */
  method PlaceParts(sorted: seq<Part>) returns (parts: seq<Part>, playbackSeconds: real)
    ensures parts == Timeline(sorted) && playbackSeconds == Played(sorted)
  {
    parts, playbackSeconds := [], 0.0;
    for i := 0 to |sorted|
      invariant parts == Timeline(sorted[..i]) && playbackSeconds == Played(sorted[..i])
    {
      assert sorted[..i + 1][..i] == sorted[..i];
      var relativeStart := playbackSeconds;
      playbackSeconds := playbackSeconds + sorted[i].endSeconds - sorted[i].startSeconds;
      parts := parts + [sorted[i].(relativeStart := relativeStart, relativeEnd := playbackSeconds)];
    }
    assert sorted[..|sorted|] == sorted;
  }

  method WithoutRepetition(codes: seq<string>) returns (distinct: seq<string>)
    ensures distinct == Distinct(codes)
  {
    distinct := [];
    for i := 0 to |codes|
      invariant distinct == Distinct(codes[..i])
    {
      assert codes[..i + 1][..i] == codes[..i];
      if codes[i] !in distinct {
        distinct := distinct + [codes[i]];
      }
    }
    assert codes[..|codes|] == codes;
  }

  method ResolveEventReplay(event: Event, now: int, days: map<int, Day>) returns (replay: Replay)
    ensures replay == Resolved(event, now, days)
  {
    hide Walk, Finished;
    replay := Replay(UnavailableState, None, None, 0, 0.0, [], [], []);
    if event.windowState == UnknownWindow {
      replay := replay.(reasonCodes := event.reasonCodes);
      return;
    }
    var end := if event.windowTo.Some? then event.windowTo.value else now;
    var start := event.windowFrom;
    replay := replay.(effectiveTo := Some(end), requested := Some(end - start));
    if end <= start {
      replay := replay.(reasonCodes := ["EVENT_WINDOW_EMPTY"]);
      return;
    }
    var walked := WalkDays(days, start, end, now);
    if walked.None? {
      replay := replay.(reasonCodes := ["EVENT_REPLAY_SEGMENT_LIMIT"]);
      return;
    }
    replay := Finish(event, start, end, walked.value, replay);
  }

  method WalkDays(days: map<int, Day>, start: int, end: int, now: int) returns (walked: Option<Outcome>)
    ensures walked == Walk(days, start, end, now, Nothing())
  {
    hide DayOutcome;
    var result := new ReplayBuilder();
    var covered: seq<Span> := [];
    var current := start;
    while current < end
      invariant fresh(result)
      invariant Walk(days, start, end, now, Nothing())
             == Walk(days, current, end, now, Outcome(result.parts, result.unavailable, result.reasonCodes, covered))
      decreases end - current
    {
      var until := SegmentEnd(current, end);
      var more := result.ResolveDay(Lookup(days, DateOf(current)), current, until, now);
      covered := covered + more;
      if |result.parts| + |result.unavailable| > MAX_PARTS {
        return None;
      }
      current := until;
    }
    walked := Some(Outcome(result.parts, result.unavailable, result.reasonCodes, covered));
  }

  method Finish(event: Event, start: int, end: int, o: Outcome, sized: Replay) returns (replay: Replay)
    requires sized.effectiveTo == Some(end) && sized.requested == Some(end - start) && sized.state == UnavailableState
    ensures replay == Finished(event, start, end, o)
  {
    var covered := Duration(o.covered);
    var parts, playbackSeconds := PlaceParts(SortParts(o.parts));
    var left := Remaining(start, end, o.covered);
    var complete := left == [] && o.unavailable == [];
    var state := sized.state;
    if complete && event.windowState != OpenWindow {
      state := AvailableState;
    } else if o.parts != [] {
      state := Partial;
    } else if o.unavailable != [] && forall i | 0 <= i < |o.unavailable| :: Waiting(o.unavailable[i]) {
      state := Processing;
    }
    var codes := o.reasons;
    if event.windowState == OpenWindow {
      codes := codes + ["COLLECTION_IN_PROGRESS"];
    }
    assert event.windowState != OpenWindow ==> o.reasons + [] == o.reasons;
    var reasonCodes := WithoutRepetition(codes + Reasons(o.unavailable));
    replay := Replay(state, sized.effectiveTo, sized.requested, covered, playbackSeconds, parts, o.unavailable, reasonCodes);
  }
}
