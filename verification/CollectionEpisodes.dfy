/** Order, spacing, quiet endings and termination of the episodes of one tracker. */
module CollectionEpisodes {
  import opened Basics
  import opened CollectionModel
  import opened CollectionRuns

  // ---- Alternation and spacing ----

  /** The i-th event in the place the pattern (DETECTED SETTLED)* DETECTED? gives it. */
  ghost predicate InPlace(c: Tuning, trace: seq<Event>, i: nat)
    requires i < |trace|
  {
    if i % 2 == 0 then trace[i].Detected? && (0 < i ==> trace[i].at - trace[i - 1].at > c.confirm)
    else
      && trace[i].Settled? && trace[i - 1].Detected?
      && trace[i].episode == Some(trace[i - 1].id)
      && trace[i].at - trace[i - 1].at >= c.settle
  }

  ghost predicate Alternates(c: Tuning, trace: seq<Event>) {
    forall i | 0 <= i < |trace| :: InPlace(c, trace, i)
  }

  /** How the stored tracker continues its own trace. */
  ghost predicate Continues(t: Tracker, trace: seq<Event>) {
    && (t.phase == Collecting <==> |trace| % 2 == 1)
    && (trace != [] ==> trace[|trace| - 1].at <= t.observedAt)
    && (trace != [] && t.phase == Collecting ==>
          && trace[|trace| - 1].Detected?
          && t.episode == Some(trace[|trace| - 1].id)
          && (t.quiet.Some? ==> trace[|trace| - 1].at <= t.quiet.value.since <= t.observedAt))
    && (t.phase == Candidate ==> t.candidateSince.Some? && (trace != [] ==> trace[|trace| - 1].at < t.candidateSince.value))
  }

  lemma AdvancedContinues(t: Tracker, h: real, at: int, trace: seq<Event>)
    requires t.Sound() && Shape(t)
    requires trace == [] || t.observedAt < at
    requires Alternates(t.identity.scope.tuning, trace) && Continues(t, trace)
    ensures var (r, events) := Advanced(t, h, at);
            Alternates(t.identity.scope.tuning, trace + events) && Continues(r, trace + events)
  {
    var (r, events) := Advanced(t, h, at);
    var c := t.identity.scope.tuning;
    assert |events| <= 1;
    assert forall i | 0 <= i < |trace| :: InPlace(c, trace, i);
    forall i | 0 <= i < |trace + events|
      ensures InPlace(c, trace + events, i)
    {
      assert i < |trace| ==> InPlace(c, trace, i);
    }
  }

  lemma MetContinues(t: Tracker, input: Input, trace: seq<Event>)
    requires t.Sound() && Continues(t, trace)
    ensures Continues(Met(t, input), trace)
    ensures trace != [] && input.Observed? && t.observedAt < input.at ==> Met(t, input).observedAt < input.at
  {
  }

  /** In every run the events of one tracker alternate, and each settlement carries its own detection. */
  lemma {:induction false} EpisodesAlternate(life: Life, n: nat)
    requires life.Valid() && n <= |life.inputs|
    ensures Alternates(life.Tune(), life.Trace(n))
    ensures Continues(life.After(n), life.Trace(n))
  {
    hide Alternates, Continues, Step;
    if n > 0 {
      EpisodesAlternate(life, n - 1);
      AlternatesStep(life, n - 1);
    } else {
      NothingAlternates(life.Tune(), life.After(0));
    }
  }

  lemma NothingAlternates(c: Tuning, t: Tracker)
    requires t == Born(t.identity, t.observedAt)
    ensures Alternates(c, []) && Continues(t, [])
  {
  }

  lemma AlternatesStep(life: Life, n: nat)
    requires life.Valid() && n < |life.inputs|
    requires Alternates(life.Tune(), life.Trace(n)) && Continues(life.After(n), life.Trace(n))
    ensures Alternates(life.Tune(), life.Trace(n + 1)) && Continues(life.After(n + 1), life.Trace(n + 1))
  {
    hide Advanced, Met, Alternates, Continues;
    ShapeAlways(life, n);
    MetContinues(life.After(n), life.inputs[n], life.Trace(n));
    if life.inputs[n].Observed? {
      if n > 0 {
        var k := LastObserved(life, n);
      }
      AdvancedContinues(life.Prior(n), life.inputs[n].height, life.inputs[n].at, life.Trace(n));
    } else {
      assert life.Trace(n + 1) == life.Trace(n);
    }
  }

  /** Two detections of one tracker are more than the settle and confirm times apart. */
  lemma {:induction false} DetectionsAreSpaced(life: Life, n: nat, i: nat, j: nat)
    requires life.Valid() && n <= |life.inputs|
    requires i < j < |life.Trace(n)| && life.Trace(n)[i].Detected? && life.Trace(n)[j].Detected?
    ensures life.Trace(n)[j].at - life.Trace(n)[i].at > life.Tune().settle + life.Tune().confirm
  {
    EpisodesAlternate(life, n);
    var trace := life.Trace(n);
    assert InPlace(life.Tune(), trace, i) && InPlace(life.Tune(), trace, j);
    assert InPlace(life.Tune(), trace, j - 1);
    if i + 2 < j {
      DetectionsAreSpaced(life, n, i, j - 2);
    }
    assert InPlace(life.Tune(), trace, j - 2);
  }

  // ---- Settlement ----

  /** The height at `k` is at least a band below the height at `q`. */
  ghost predicate Low(life: Life, q: nat, k: nat)
    requires q < |life.inputs| && k < |life.inputs|
  {
    life.inputs[q].Observed? && life.inputs[k].Observed? && life.inputs[q].height - life.inputs[k].height >= life.Tune().band
  }

  ghost predicate LowStretch(life: Life, q: nat, i: nat, j: nat)
    requires q < |life.inputs| && i <= j < |life.inputs|
  {
    forall k | i <= k <= j :: Low(life, q, k)
  }

  /** Inputs i and j are less than the confirm time apart. */
  ghost predicate Short(life: Life, i: nat, j: nat)
    requires i <= j < |life.inputs|
  {
    life.inputs[i].Observed? && life.inputs[j].Observed? && life.inputs[j].at - life.inputs[i].at < life.Tune().confirm
  }

  /** Between `q` and `n` no stretch a band below the height at `q` lasted the confirm time. */
  ghost predicate NoFurtherDrop(life: Life, q: nat, n: nat)
    requires q <= n < |life.inputs|
  {
    forall i, j | q < i <= j <= n && LowStretch(life, q, i, j) :: Short(life, i, j)
  }

  /** The progress timer started at input `i` or before. */
  ghost predicate Timing(life: Life, quiet: Quiet, i: nat)
    requires i < |life.inputs|
  {
    life.inputs[i].Observed? && quiet.progressSince.Some? && quiet.progressSince.value <= life.inputs[i].at
  }

  /** The progress timer covers every low stretch that reaches up to `n`. */
  ghost predicate TimerCovers(life: Life, n: nat, q: nat, quiet: Quiet)
    requires q <= n < |life.inputs|
  {
    forall i | q < i <= n && LowStretch(life, q, i, n) :: Timing(life, quiet, i)
  }

  /** The quiet record after input `n`: its interval started at input `q` and its timer covers every low stretch. */
  ghost predicate QuietFrom(life: Life, n: nat, q: nat, quiet: Quiet)
    requires life.Valid() && n < |life.inputs|
  {
    && life.Unbroken(q, n)
    && life.inputs[n].Observed?
    && quiet.since == life.inputs[q].at
    && life.inputs[q].height <= quiet.anchor
    && NoFurtherDrop(life, q, n)
    && TimerCovers(life, n, q, quiet)
    && (quiet.progressSince.Some? ==> 0 <= life.inputs[n].at - quiet.progressSince.value < life.Tune().confirm)
  }

  function QuietAt(life: Life, n: nat): Quiet
    requires life.Valid() && n < |life.inputs| && life.inputs[n].Observed?
  {
    Listened(life.Tune(), life.Prior(n).quiet, PlateauAt(life, n), life.inputs[n].height, life.inputs[n].at)
  }

  lemma AdvancedQuiet(t: Tracker, h: real, at: int)
    requires t.Sound() && Shape(t)
    ensures var (r, events) := Advanced(t, h, at);
            var c := t.identity.scope.tuning;
            var q := Listened(c, t.quiet, Widened(c, t.stable, h, at), h, at);
            && (r.quiet.Some? ==> r.quiet.value == Quiet(at, h, None) || (t.phase == Collecting && r.quiet.value == q))
            && (forall e | e in events && e.Settled? ::
                  t.phase == Collecting && q.progressSince.None? && at - q.since >= c.settle
                  && e == Settled(t.episode, at, h) && r.phase == Idle
                  && r.baseline == Some(Widened(c, t.stable, h, at).Height()))
  {
  }

  lemma QuietStarts(life: Life, n: nat)
    requires life.Valid() && n < |life.inputs| && life.inputs[n].Observed?
    ensures QuietFrom(life, n, n, Quiet(life.inputs[n].at, life.inputs[n].height, None))
  {
    hide LowStretch, Low;
  }

  /** A quiet record that goes on keeps its start, raises its anchor at most, and times a height a band below it. */
  lemma ListenedGoesOn(c: Tuning, before: Quiet, p: Plateau, h: real, at: int)
    requires Listened(c, Some(before), p, h, at) != Quiet(at, h, None)
    ensures var quiet := Listened(c, Some(before), p, h, at);
            && quiet.since == before.since && before.anchor <= quiet.anchor
            && (quiet.progressSince.Some? ==> at - quiet.progressSince.value < c.confirm
                                              && (quiet.progressSince == before.progressSince || quiet.progressSince == Some(at)))
            && (before.anchor - h >= c.band ==>
                  quiet.progressSince == if before.progressSince.Some? then before.progressSince else Some(at))
  {
  }

  lemma StretchShortens(life: Life, q: nat, i: nat, n: nat)
    requires q < |life.inputs| && i <= n < |life.inputs| && LowStretch(life, q, i, n)
    ensures Low(life, q, n)
    ensures i < n ==> LowStretch(life, q, i, n - 1)
  {
    hide Low;
  }

  lemma TimerGoesOn(life: Life, n: nat, q: nat, before: Quiet, p: Plateau)
    requires 0 < n < |life.inputs| && q < n && life.inputs[q].Observed? && life.inputs[n].Observed?
    requires life.inputs[q].height <= before.anchor && TimerCovers(life, n - 1, q, before)
    requires before.progressSince.Some? ==> before.progressSince.value <= life.inputs[n].at
    requires Listened(life.Tune(), Some(before), p, life.inputs[n].height, life.inputs[n].at)
             != Quiet(life.inputs[n].at, life.inputs[n].height, None)
    ensures TimerCovers(life, n, q, Listened(life.Tune(), Some(before), p, life.inputs[n].height, life.inputs[n].at))
  {
    hide Listened, LowStretch;
    var quiet := Listened(life.Tune(), Some(before), p, life.inputs[n].height, life.inputs[n].at);
    ListenedGoesOn(life.Tune(), before, p, life.inputs[n].height, life.inputs[n].at);
    forall i | q < i <= n && LowStretch(life, q, i, n)
      ensures Timing(life, quiet, i)
    {
      StretchShortens(life, q, i, n);
      assert i < n ==> Timing(life, before, i);
    }
  }

  lemma DropsStayShort(life: Life, n: nat, q: nat, quiet: Quiet)
    requires 0 < n < |life.inputs| && q < n && life.inputs[n].Observed?
    requires NoFurtherDrop(life, q, n - 1) && TimerCovers(life, n, q, quiet)
    requires quiet.progressSince.Some? ==> life.inputs[n].at - quiet.progressSince.value < life.Tune().confirm
    ensures NoFurtherDrop(life, q, n)
  {
    hide LowStretch;
    forall i, j | q < i <= j <= n && LowStretch(life, q, i, j)
      ensures Short(life, i, j)
    {
      assert j == n ==> Timing(life, quiet, i);
    }
  }

  lemma QuietContinues(life: Life, n: nat, q: nat, before: Quiet, p: Plateau)
    requires life.Valid() && 0 < n < |life.inputs| && QuietFrom(life, n - 1, q, before) && life.Unbroken(n - 1, n)
    requires life.inputs[n].Observed?
    requires var quiet := Listened(life.Tune(), Some(before), p, life.inputs[n].height, life.inputs[n].at);
             quiet != Quiet(life.inputs[n].at, life.inputs[n].height, None)
    ensures QuietFrom(life, n, q, Listened(life.Tune(), Some(before), p, life.inputs[n].height, life.inputs[n].at))
  {
    hide Listened, NoFurtherDrop, TimerCovers;
    Extend(life, q, n);
    ListenedGoesOn(life.Tune(), before, p, life.inputs[n].height, life.inputs[n].at);
    TimerGoesOn(life, n, q, before, p);
    DropsStayShort(life, n, q, Listened(life.Tune(), Some(before), p, life.inputs[n].height, life.inputs[n].at));
  }

  lemma {:induction false} QuietNow(life: Life, n: nat) returns (q: nat)
    requires life.Valid() && n < |life.inputs| && life.inputs[n].Observed?
    ensures life.Prior(n).phase == Collecting ==> QuietFrom(life, n, q, QuietAt(life, n))
    decreases n, 1
  {
    hide Advanced, Listened;
    PriorCases(life, n);
    QuietStarts(life, n);
    q := n;
    if QuietAt(life, n) != Quiet(life.inputs[n].at, life.inputs[n].height, None) && life.Prior(n).phase == Collecting {
      if life.Prior(n).quiet.Some? {
        q := QuietHistory(life, n);
        QuietContinues(life, n, q, life.After(n).quiet.value, PlateauAt(life, n));
      } else {
        FreshQuiet(life.Tune(), PlateauAt(life, n), life.inputs[n].height, life.inputs[n].at);
      }
    }
  }

  /** With no record yet, one height starts a quiet interval at its own level or at a higher plateau. */
  lemma FreshQuiet(c: Tuning, p: Plateau, h: real, at: int)
    ensures Listened(c, None, p, h, at) == Quiet(at, h, None)
  {
  }

  lemma {:induction false} QuietHistory(life: Life, n: nat) returns (q: nat)
    requires life.Valid() && n <= |life.inputs|
    ensures life.After(n).quiet.Some? ==> 0 < n && life.inputs[n - 1].Observed? && QuietFrom(life, n - 1, q, life.After(n).quiet.value)
    decreases n, 0
  {
    hide Advanced, Listened;
    q := 0;
    Continuity(life, n);
    if n > 0 && life.inputs[n - 1].Observed? && life.After(n).quiet.Some? {
      ShapeAlways(life, n - 1);
      AdvancedQuiet(life.Prior(n - 1), life.inputs[n - 1].height, life.inputs[n - 1].at);
      QuietStarts(life, n - 1);
      if life.After(n).quiet.value == QuietAt(life, n - 1) && life.Prior(n - 1).phase == Collecting {
        q := QuietNow(life, n - 1);
      } else {
        q := n - 1;
      }
    }
  }

  /**
   * A settlement ends a quiet interval of at least the settle time in which observation never broke and
   * no further drop of a band lasted the confirm time; the height that settles is no such drop either.
   */
  lemma SettlementIsQuiet(life: Life, n: nat, e: Event)
    requires life.Valid() && n < |life.inputs| && e in life.EventsAt(n) && e.Settled?
    ensures life.inputs[n] == Observed(e.at, e.height)
    ensures exists q: nat :: q < n && QuietEnding(life, n, q)
    ensures life.After(n + 1).phase == Idle && life.After(n + 1).baseline.Some?
    ensures Near(life, n, life.After(n + 1).baseline.value)
  {
    hide Advanced, Listened, QuietFrom, QuietEnding, Near;
    ShapeAlways(life, n);
    AdvancedQuiet(life.Prior(n), life.inputs[n].height, life.inputs[n].at);
    var q := QuietNow(life, n);
    QuietEnds(life, n, q, QuietAt(life, n));
    var i := PlateauNow(life, n);
    PlateauIsNear(life, n, i, PlateauAt(life, n));
  }

  lemma QuietEnds(life: Life, n: nat, q: nat, quiet: Quiet)
    requires life.Valid() && n < |life.inputs| && QuietFrom(life, n, q, quiet)
    requires quiet.progressSince.None? && life.inputs[n].at - quiet.since >= life.Tune().settle
    ensures q < n && QuietEnding(life, n, q)
  {
    hide NoFurtherDrop;
    LowAtEnd(life, n, q, quiet);
  }

  lemma LowAtEnd(life: Life, n: nat, q: nat, quiet: Quiet)
    requires q < n < |life.inputs| && TimerCovers(life, n, q, quiet) && quiet.progressSince.None?
    ensures !Low(life, q, n)
  {
    hide Low;
    assert LowStretch(life, q, n, n) == Low(life, q, n);
  }

  ghost predicate QuietEnding(life: Life, n: nat, q: nat)
    requires life.Valid() && q <= n < |life.inputs|
  {
    && life.Unbroken(q, n) && life.inputs[n].Observed?
    && life.inputs[n].at - life.inputs[q].at >= life.Tune().settle
    && NoFurtherDrop(life, q, n)
    && !Low(life, q, n)
  }

  // ---- Termination ----

  /** While an episode is open and observed, its timers are within their limits. */
  ghost predicate Timed(c: Tuning, quiet: Quiet, h: real, at: int) {
    match quiet.progressSince
    case None => at - quiet.since < c.settle
    case Some(since) =>
      && quiet.anchor - h >= c.band
      && since <= quiet.since + c.settle + MAX_GAP
      && at - since < c.confirm
  }

  lemma {:induction false} OpenEpisodeIsTimed(life: Life, n: nat)
    requires life.Valid() && 0 < n <= |life.inputs| && life.inputs[n - 1].Observed?
    ensures life.After(n).phase == Collecting ==>
              life.After(n).quiet.Some? && Timed(life.Tune(), life.After(n).quiet.value, life.inputs[n - 1].height, life.inputs[n - 1].at)
  {
    hide Listened, Met, Step, Timed;
    var m := n - 1;
    PriorCases(life, m);
    ShapeAlways(life, m);
    ObservedStep(life, m);
    if life.Prior(m).quiet.None? {
      FreshIsTimed(life.Prior(m), life.inputs[m].height, life.inputs[m].at);
    } else {
      hide Advanced;
      assert life.Follows(m);
      OpenEpisodeIsTimed(life, m);
      TimedStep(life.Prior(m), life.inputs[m - 1].height, life.inputs[m - 1].at, life.inputs[m].height, life.inputs[m].at);
    }
  }

  lemma FreshIsTimed(t: Tracker, h: real, at: int)
    requires t.Sound() && Shape(t) && t.quiet.None?
    ensures var r := Advanced(t, h, at).0;
            r.phase == Collecting ==> r.quiet.Some? && Timed(t.identity.scope.tuning, r.quiet.value, h, at)
  {
  }

  lemma TimedStep(t: Tracker, h0: real, at0: int, h: real, at: int)
    requires t.Sound() && Shape(t) && t.quiet.Some? && at <= at0 + MAX_GAP
    requires Timed(t.identity.scope.tuning, t.quiet.value, h0, at0)
    ensures var r := Advanced(t, h, at).0;
            r.phase == Collecting ==> r.quiet.Some? && Timed(t.identity.scope.tuning, r.quiet.value, h, at)
  {
  }

  /** How often a drop of one band fits below a level, and once more. */
  function Rounds(c: Tuning, level: real): int { (level / c.band).Floor + 1 }

  function RoundSpan(c: Tuning): int { c.settle + c.confirm + 2 * MAX_GAP }

  /** No anchor of a falling surface last seen at `h` can exceed this level. */
  function Ceiling(c: Tuning, quiet: Quiet, h: real): real {
    if h <= quiet.anchor then quiet.anchor else h + c.band / 2.0
  }

  function Deadline(c: Tuning, quiet: Quiet, h: real): int {
    quiet.since + Rounds(c, Ceiling(c, quiet, h)) * RoundSpan(c)
  }

  lemma RoundsMonotone(c: Tuning, a: real, b: real)
    requires 0.0 <= a <= b
    ensures 1 <= Rounds(c, a) <= Rounds(c, b)
    ensures a <= b - c.band ==> Rounds(c, a) + 1 <= Rounds(c, b)
  {
    QuotientsAdd(0.0, a, c.band);
    QuotientsAdd(a, b - a, c.band);
    if a <= b - c.band {
      QuotientsAdd(a, b - c.band - a, c.band);
      QuotientsAdd(b - c.band, c.band, c.band);
      QuotientOfProduct(1.0, c.band);
    }
  }

  lemma QuotientsAdd(a: real, b: real, d: real)
    requires 0.0 < d
    ensures (a + b) / d == a / d + b / d
    ensures 0.0 <= b ==> 0.0 <= b / d
  {
    var (x, y) := (a / d, b / d);
    assert a + b == (x + y) * d;
    QuotientOfProduct(x + y, d);
  }

  lemma QuotientOfProduct(x: real, d: real)
    requires 0.0 < d
    ensures x * d / d == x
  {
    assert (x * d / d - x) * d == 0.0;
  }

  lemma DeadlineShrinks(c: Tuning, before: Quiet, h0: real, after: Quiet, h: real)
    requires 0.0 <= h
    requires || (after.since == before.since && Ceiling(c, after, h) <= Ceiling(c, before, h0))
             || (after.since <= before.since + RoundSpan(c) && Ceiling(c, after, h) <= Ceiling(c, before, h0) - c.band)
    ensures Deadline(c, after, h) <= Deadline(c, before, h0)
  {
    var (a, b) := (Ceiling(c, after, h), Ceiling(c, before, h0));
    RoundsMonotone(c, a, b);
    if after.since == before.since {
      assert Rounds(c, a) * RoundSpan(c) <= Rounds(c, b) * RoundSpan(c);
    } else {
      assert (Rounds(c, a) + 1) * RoundSpan(c) <= Rounds(c, b) * RoundSpan(c);
    }
  }

  /** Input `n` is observed, and from `m - 1` on every height is non-negative and not above its predecessor. */
  ghost predicate FallsFrom(life: Life, m: nat, n: nat)
    requires 0 < m <= n < |life.inputs|
  {
    && life.Unbroken(m - 1, n)
    && life.inputs[m - 1].Observed?
    && forall k | m <= k <= n :: NotAbove(life, k)
  }

  ghost predicate NotAbove(life: Life, k: nat)
    requires 0 < k < |life.inputs|
  {
    life.inputs[k - 1].Observed? && life.inputs[k].Observed? && 0.0 <= life.inputs[k].height <= life.inputs[k - 1].height
  }

  lemma FallingStep(t: Tracker, h0: real, at0: int, h: real, at: int)
    requires t.Sound() && Shape(t) && t.phase == Collecting && t.quiet.Some?
    requires at0 < at <= at0 + MAX_GAP && 0.0 <= h <= h0
    requires t.stable.Some? ==> t.stable.value.low <= h0
    requires Timed(t.identity.scope.tuning, t.quiet.value, h0, at0)
    ensures var c := t.identity.scope.tuning;
            var r := Advanced(t, h, at).0;
            r.phase == Collecting ==> r.quiet.Some? && Deadline(c, r.quiet.value, h) <= Deadline(c, t.quiet.value, h0)
  {
    var c := t.identity.scope.tuning;
    var q := Listened(c, t.quiet, Widened(c, t.stable, h, at), h, at);
    assert q.since == t.quiet.value.since || q == Quiet(at, h, None);
    DeadlineShrinks(c, t.quiet.value, h0, q, h);
  }

  lemma {:induction false} OpenWhileNotSettled(life: Life, m: nat, n: nat)
    requires life.Valid() && 0 < m <= n < |life.inputs| && FallsFrom(life, m, n)
    requires life.After(m).phase == Collecting && life.inputs[n].Observed?
    requires forall k | m <= k <= n :: !SettlesAt(life, k)
    ensures life.After(n + 1).phase == Collecting
    ensures life.After(m).quiet.Some? && life.After(n + 1).quiet.Some?
    ensures Deadline(life.Tune(), life.After(n + 1).quiet.value, life.inputs[n].height)
            <= Deadline(life.Tune(), life.After(m).quiet.value, life.inputs[m - 1].height)
  {
    hide Advanced, Deadline;
    assert life.Follows(n);
    if n > m {
      OpenWhileNotSettled(life, m, n - 1);
    }
    assert NotAbove(life, n) && !SettlesAt(life, n);
    FollowerMeetsAfter(life, n);
    ShapeAlways(life, n);
    OpenEpisodeIsTimed(life, n);
    OpenStays(life.Prior(n), life.inputs[n].height, life.inputs[n].at);
    assert life.EventsAt(n) == [] || life.EventsAt(n)[0] in life.EventsAt(n);
    var i := PlateauHistory(life, n);
    FallingStep(life.After(n), life.inputs[n - 1].height, life.inputs[n - 1].at, life.inputs[n].height, life.inputs[n].at);
  }

  lemma OpenStays(t: Tracker, h: real, at: int)
    requires t.Sound() && Shape(t) && t.phase == Collecting
    ensures var (r, events) := Advanced(t, h, at);
            r.phase == Collecting || (|events| == 1 && events[0].Settled?)
  {
  }

  ghost predicate SettlesAt(life: Life, k: nat)
    requires life.Valid() && k < |life.inputs|
  {
    exists e :: e in life.EventsAt(k) && e.Settled?
  }

  /**
   * An episode ends. Once collecting, while non-negative heights never rise and observation never breaks,
   * a settlement comes no later than one round per band that still fits below the surface, and one more;
   * a round is the settle and confirm times and two gaps.
   */
  lemma EpisodeEnds(life: Life, m: nat, n: nat)
    requires life.Valid() && 0 < m <= n < |life.inputs| && FallsFrom(life, m, n)
    requires life.After(m).phase == Collecting && life.After(m).quiet.Some?
    requires life.inputs[n].Observed?
    requires life.inputs[n].at >= Deadline(life.Tune(), life.After(m).quiet.value, life.inputs[m - 1].height)
    ensures exists k :: m <= k <= n && SettlesAt(life, k)
  {
    hide Deadline, Timed, SettlesAt, Step;
    if !exists k :: m <= k <= n && SettlesAt(life, k) {
      OpenWhileNotSettled(life, m, n);
      OpenEpisodeIsTimed(life, n + 1);
      assert NotAbove(life, n);
      TimedBeforeDeadline(life.Tune(), life.After(n + 1).quiet.value, life.inputs[n].height, life.inputs[n].at);
    }
  }

  /** From its detection on an episode ends within one round per band that fits below the height that was detected, and one more. */
  lemma EpisodeEndsFromDetection(life: Life, m: nat, n: nat, d: Event)
    requires life.Valid() && 0 < m <= n < |life.inputs| && FallsFrom(life, m, n)
    requires d in life.EventsAt(m - 1) && d.Detected?
    requires life.inputs[n].Observed?
    requires life.inputs[n].at >= d.at + Rounds(life.Tune(), d.height) * RoundSpan(life.Tune())
    ensures exists k :: m <= k <= n && SettlesAt(life, k)
  {
    hide Rounds, SettlesAt;
    ShapeAlways(life, m - 1);
    DetectionOpens(life.Prior(m - 1), life.inputs[m - 1].height, life.inputs[m - 1].at, d);
    EpisodeEnds(life, m, n);
  }

  lemma DetectionOpens(t: Tracker, h: real, at: int, d: Event)
    requires t.Sound() && Shape(t) && d in Advanced(t, h, at).1 && d.Detected?
    ensures d.at == at && d.height == h
    ensures Advanced(t, h, at).0.phase == Collecting && Advanced(t, h, at).0.quiet == Some(Quiet(at, h, None))
  {
  }

  lemma TimedBeforeDeadline(c: Tuning, quiet: Quiet, h: real, at: int)
    requires 0.0 <= h && Timed(c, quiet, h, at)
    ensures at < Deadline(c, quiet, h)
  {
    RoundsMonotone(c, 0.0, Ceiling(c, quiet, h));
    assert RoundSpan(c) <= Rounds(c, Ceiling(c, quiet, h)) * RoundSpan(c);
  }
}
