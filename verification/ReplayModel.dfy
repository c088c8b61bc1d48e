/** Daily recordings and what one day contributes to the replay of an event window. */
module ReplayModel {
  import opened Basics
  import opened Intervals

  const DAY: int := 86400 * SECOND
  const KST_OFFSET: int := 9 * 3600 * SECOND

  /** The Korean date of an instant, and the instant a Korean date starts. */
  function DateOf(t: int): int { (t + KST_OFFSET) / DAY }

  function Midnight(date: int): int { date * DAY - KST_OFFSET }

  datatype Kind = GapKind | Unconfirmed | Future | Missing | ExpiredKind

  datatype Unavailable = Unavailable(span: Span, kind: Kind, reason: string)

  datatype Part = Part(
    recordingId: string, date: int, path: string, span: Span, startSeconds: real, endSeconds: real, point: bool,
    relativeStart: real, relativeEnd: real)

  datatype Gap = Gap(span: Span, reason: string)

  datatype Available = Available(span: Span, playStart: real, playEnd: real)

  predicate GapsOrdered(gaps: seq<Gap>) {
    && (forall i | 0 <= i < |gaps| :: gaps[i].span.left <= gaps[i].span.right)
    && forall i, j | 0 <= i < j < |gaps| :: gaps[i].span.right <= gaps[j].span.left
  }

  predicate AvailableOrdered(available: seq<Available>) {
    && (forall i | 0 <= i < |available| :: available[i].span.left <= available[i].span.right)
    && forall i, j | 0 <= i < j < |available| :: available[i].span.right <= available[j].span.left
  }

  datatype Status = Recording | Finalizing | Closed | Failed | Deleted | Expired

  datatype PlaybackState = Pending | Ready | Unplayable

  datatype Day = Day(
    date: int, recordingId: string, status: Status, coverageAsOf: int, playableUntil: Option<int>,
    gaps: seq<Gap>, available: seq<Available>, playback: PlaybackState, path: Option<string>,
    expiresAt: Option<int>, error: Option<string>)
  {
    /** The metadata validator: one Korean day, ordered intervals within confirmed coverage. */
    predicate Valid() {
      && Midnight(date) <= coverageAsOf <= Midnight(date + 1)
      && (playableUntil.Some? ==> Midnight(date) <= playableUntil.value <= coverageAsOf)
      && GapsOrdered(gaps) && AvailableOrdered(available)
      && (forall i | 0 <= i < |gaps| :: Midnight(date) <= gaps[i].span.left && gaps[i].span.right <= coverageAsOf)
      && forall i | 0 <= i < |available| ::
           && Midnight(date) <= available[i].span.left && available[i].span.right <= coverageAsOf
           && 0.0 <= available[i].playStart < available[i].playEnd
    }

    predicate Playable(): (b: bool)
      ensures b ==> path.Some? && playableUntil.Some?
    {
      playback == Ready && path.Some? && playableUntil.Some?
    }

    predicate ExpiredBy(now: int) {
      status == Deleted || status == Expired || (expiresAt.Some? && expiresAt.value <= now)
    }
  }

  datatype Outcome = Outcome(parts: seq<Part>, unavailable: seq<Unavailable>, reasons: seq<string>, covered: seq<Span>)

  function Nothing(): Outcome { Outcome([], [], [], []) }

  function Join(a: Outcome, b: Outcome): Outcome {
    Outcome(a.parts + b.parts, a.unavailable + b.unavailable, a.reasons + b.reasons, a.covered + b.covered)
  }

  function Missed(span: Span, kind: Kind, reason: string): seq<Unavailable> {
    if span.right >= span.left then [Unavailable(span, kind, reason)] else []
  }

  function SpansOf(unavailable: seq<Unavailable>): seq<Span> {
    seq(|unavailable|, i requires 0 <= i < |unavailable| => unavailable[i].span)
  }

  function Clip(s: Span, a: int, b: int): Span { Span(MaxInt(a, s.left), MinInt(b, s.right)) }

  /** A gap counts when a stretch of it, or the whole of an empty gap, falls in the window. */
  function GapIn(g: Gap, start: int, confirmed: int): seq<Unavailable> {
    var c := Clip(g.span, start, confirmed);
    if c.left < c.right || (c.left == c.right && start <= g.span.left < confirmed && g.span.left == g.span.right)
    then Missed(c, GapKind, g.reason) else []
  }

  function GapsIn(gaps: seq<Gap>, start: int, confirmed: int): seq<Unavailable> {
    if gaps == [] then []
    else GapsIn(gaps[..|gaps| - 1], start, confirmed) + GapIn(gaps[|gaps| - 1], start, confirmed)
  }

  predicate Conflicts(gaps: seq<Span>, s: Span) {
    exists i :: 0 <= i < |gaps| && gaps[i].left < s.right && gaps[i].right > s.left
  }

  /** The playback position of an instant inside a recorded interval of positive length. */
  function Position(a: Available, t: int): real
    requires a.span.left < a.span.right
  {
    a.playStart + (a.playEnd - a.playStart) * (t - a.span.left) as real / a.span.Length() as real
  }

  function PartOf(day: Day, path: string, span: Span, from: real, to: real, point: bool): Part {
    Part(day.recordingId, day.date, path, span, from, to, point, 0.0, 0.0)
  }

  /** One recorded interval: a point, a playable part, or a reason why it cannot be used. */
  function AvailableIn(day: Day, path: string, a: Available, start: int, confirmed: int, availableTo: int, gaps: seq<Span>): Outcome {
    if a.span.left == a.span.right then
      if start <= a.span.left < confirmed && a.span.left <= availableTo
      then Nothing().(parts := [PartOf(day, path, a.span, a.playStart, a.playEnd, true)]) else Nothing()
    else
      var c := Clip(a.span, start, availableTo);
      if c.left >= c.right then Nothing()
      else if Conflicts(gaps, c) then Nothing().(reasons := ["COVERAGE_METADATA_CONFLICT"])
      else if Position(a, c.right) <= Position(a, c.left)
      then Nothing().(reasons := ["PLAYBACK_MAPPING_PRECISION"])
      else Nothing().(parts := [PartOf(day, path, c, Position(a, c.left), Position(a, c.right), false)], covered := [c])
  }

  function AvailableAll(day: Day, path: string, available: seq<Available>, start: int, confirmed: int, availableTo: int, gaps: seq<Span>): Outcome {
    if available == [] then Nothing()
    else
      Join(AvailableAll(day, path, available[..|available| - 1], start, confirmed, availableTo, gaps),
           AvailableIn(day, path, available[|available| - 1], start, confirmed, availableTo, gaps))
  }

  function HoleReason(day: Day, hole: Span): string {
    if hole.left >= day.coverageAsOf then "COVERAGE_PENDING"
    else if !day.Playable() then "PLAYBACK_NOT_READY"
    else "COVERAGE_UNCONFIRMED"
  }

  function HolesIn(day: Day, holes: seq<Span>): seq<Unavailable> {
    if holes == [] then []
    else
      var hole := holes[|holes| - 1];
      HolesIn(day, holes[..|holes| - 1]) + Missed(hole, Unconfirmed, HoleReason(day, hole))
  }

  function AvailableTo(day: Day, confirmed: int): int {
    MinInt(MinInt(confirmed, day.coverageAsOf), if day.playableUntil.Some? then day.playableUntil.value else Midnight(day.date))
  }

  /** The confirmed part of a segment that has live metadata. */
  function LiveOutcome(day: Day, start: int, confirmed: int): Outcome {
    var gaps := GapsIn(day.gaps, start, confirmed);
    var played :=
      if day.Playable()
      then AvailableAll(day, day.path.value, day.available, start, confirmed, AvailableTo(day, confirmed), SpansOf(gaps))
      else Nothing();
    var holes := RemainingOf(start, confirmed, played.covered + SpansOf(gaps));
    Outcome(played.parts, gaps + HolesIn(day, holes),
            (if day.error.Some? then [day.error.value] else []) + played.reasons, played.covered)
  }

  function FutureOutcome(start: int, end: int, now: int): Outcome {
    if end > now then Nothing().(unavailable := Missed(Span(MaxInt(start, now), end), Future, "FUTURE_INTERVAL"))
    else Nothing()
  }

  function KnownOutcome(day: Option<Day>, start: int, confirmed: int, now: int): Outcome {
    if confirmed <= start then Nothing()
    else if day.None? then Nothing().(unavailable := Missed(Span(start, confirmed), Missing, "DAILY_RECORDING_NOT_FOUND"))
    else if day.value.ExpiredBy(now)
    then Nothing().(unavailable := Missed(Span(start, confirmed), ExpiredKind, "DAILY_RECORDING_EXPIRED"))
    else LiveOutcome(day.value, start, confirmed)
  }

  /** What one day says about the segment [start, end) of an event window, known at `now`. */
  function DayOutcome(day: Option<Day>, start: int, end: int, now: int): Outcome {
    Join(FutureOutcome(start, end, now), KnownOutcome(day, start, MinInt(end, now), now))
  }
}
