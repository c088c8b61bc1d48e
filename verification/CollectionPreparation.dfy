/** How a tracker gets its baseline, raises it and so comes to detect: from heights and times alone. */
module CollectionPreparation {
  import opened Basics
  import opened CollectionModel
  import opened CollectionRuns

  // ---- The flat window ----

  ghost function Lowest(life: Life, i: nat, n: nat): real
    requires life.Unbroken(i, n)
    decreases n
  {
    if n == i then life.inputs[n].height
    else
      PrefixUnbroken(life, i, n);
      Min(Lowest(life, i, n - 1), life.inputs[n].height)
  }

  ghost function Highest(life: Life, i: nat, n: nat): real
    requires life.Unbroken(i, n)
    decreases n
  {
    if n == i then life.inputs[n].height
    else
      PrefixUnbroken(life, i, n);
      Max(Highest(life, i, n - 1), life.inputs[n].height)
  }

  lemma PrefixUnbroken(life: Life, i: nat, n: nat)
    requires life.Unbroken(i, n) && i < n
    ensures life.Unbroken(i, n - 1) && life.Follows(n) && life.inputs[n].Observed? && life.inputs[n - 1].Observed?
  {
    assert life.Follows(n);
  }

  lemma {:induction false} BoundsHold(life: Life, i: nat, n: nat, k: nat)
    requires life.Unbroken(i, n) && i <= k <= n
    ensures life.inputs[k].Observed? && Lowest(life, i, n) <= life.inputs[k].height <= Highest(life, i, n)
  {
    if i < n {
      PrefixUnbroken(life, i, n);
      BoundsHold(life, i, n - 1, if k < n then k else n - 1);
    }
  }

  ghost function LowestAt(life: Life, i: nat, n: nat): (k: nat)
    requires life.Unbroken(i, n)
    ensures i <= k <= n && life.inputs[k].Observed? && life.inputs[k].height == Lowest(life, i, n)
  {
    if i == n then n
    else
      PrefixUnbroken(life, i, n);
      if life.inputs[n].height > Lowest(life, i, n - 1) then LowestAt(life, i, n - 1) else n
  }

  ghost function HighestAt(life: Life, i: nat, n: nat): (k: nat)
    requires life.Unbroken(i, n)
    ensures i <= k <= n && life.inputs[k].Observed? && life.inputs[k].height == Highest(life, i, n)
  {
    if i == n then n
    else
      PrefixUnbroken(life, i, n);
      if life.inputs[n].height < Highest(life, i, n - 1) then HighestAt(life, i, n - 1) else n
  }

  /** The flat window starts over at input `i`: there is none, or the height before is more than a band away. */
  ghost predicate WindowStarts(life: Life, i: nat)
    requires life.Valid() && i < |life.inputs|
  {
    && life.inputs[i].Observed?
    && (|| life.Prior(i).stable.None?
        || (&& life.Follows(i)
            && (|| life.inputs[i].height - life.inputs[i - 1].height > life.Tune().band
                || life.inputs[i - 1].height - life.inputs[i].height > life.Tune().band)))
  }

  ghost predicate NoDetection(life: Life, i: nat, n: nat)
    requires life.Valid() && n <= |life.inputs|
  {
    forall k | i <= k < n :: !DetectsAt(life, k)
  }

  lemma WindowBegins(life: Life, i: nat)
    requires life.Valid() && i < |life.inputs| && WindowStarts(life, i)
    ensures PlateauAt(life, i) == Plateau(life.inputs[i].at, life.inputs[i].height, life.inputs[i].height)
  {
    hide Step, Advanced;
    if life.Prior(i).stable.Some? {
      FollowerMeetsAfter(life, i);
      var j := PlateauHistory(life, i);
      assert PlateauFrom(life, i - 1, j, life.After(i).stable.value);
    }
  }

  lemma AdvancedStable(t: Tracker, h: real, at: int)
    requires t.Sound()
    ensures var (r, events) := Advanced(t, h, at);
            (forall e | e in events :: !e.Detected?) ==>
              r.stable == Some(Widened(t.identity.scope.tuning, t.stable, h, at))
  {
    var (r, events) := Advanced(t, h, at);
    assert events != [] ==> events[0] in events;
  }

  /** Since it started over, a flat window spans exactly the lowest and the highest height. */
  lemma {:induction false} FlatWindowIs(life: Life, i: nat, n: nat)
    requires life.Valid() && life.Unbroken(i, n) && WindowStarts(life, i) && NoDetection(life, i, n)
    requires Highest(life, i, n) - Lowest(life, i, n) <= life.Tune().band
    ensures life.inputs[n].Observed?
    ensures PlateauAt(life, n) == Plateau(life.inputs[i].at, Lowest(life, i, n), Highest(life, i, n))
  {
    hide Step, Advanced, WindowStarts;
    if i == n {
      assert life.inputs[n].Observed?;
      WindowBegins(life, i);
    } else {
      PrefixUnbroken(life, i, n);
      FlatWindowIs(life, i, n - 1);
      FollowerMeetsAfter(life, n);
      ObservedStep(life, n - 1);
      assert !DetectsAt(life, n - 1);
      assert forall e | e in life.EventsAt(n - 1) :: !e.Detected?;
      AdvancedStable(life.Prior(n - 1), life.inputs[n - 1].height, life.inputs[n - 1].at);
    }
  }

  /** A flat window from input `i` to input `n` that has lasted the baseline time. */
  ghost predicate Flat(life: Life, i: nat, n: nat)
    requires life.Valid()
  {
    && life.Unbroken(i, n) && life.inputs[n].Observed? && WindowStarts(life, i) && NoDetection(life, i, n)
    && Highest(life, i, n) - Lowest(life, i, n) <= life.Tune().band
    && life.inputs[n].at - life.inputs[i].at >= life.Tune().baseline
  }

  ghost function Middle(life: Life, i: nat, n: nat): real
    requires life.Unbroken(i, n)
  {
    (Lowest(life, i, n) + Highest(life, i, n)) / 2.0
  }

  /** While a tracker prepares, a flat window of the baseline time makes its middle the baseline. */
  lemma FlatWindowPrepares(life: Life, i: nat, n: nat)
    requires life.Valid() && Flat(life, i, n) && life.Prior(n).phase == Baselining
    ensures life.After(n + 1).phase == Idle && life.After(n + 1).baseline == Some(Middle(life, i, n))
  {
    hide WindowStarts, NoDetection, Step;
    FlatWindowIs(life, i, n);
    ObservedStep(life, n);
  }

  /** While it watches, a height above the baseline at the end of such a window raises the baseline to the middle, or to that height. */
  lemma FlatWindowRaises(life: Life, i: nat, n: nat)
    requires life.Valid() && Flat(life, i, n) && life.Prior(n).Watching()
    requires life.inputs[n].height > life.Prior(n).baseline.value
    ensures life.After(n + 1).baseline.Some?
    ensures life.After(n + 1).baseline.value >= Min(life.inputs[n].height, Middle(life, i, n))
  {
    hide WindowStarts, NoDetection, Step;
    FlatWindowIs(life, i, n);
    ObservedStep(life, n);
    BoundsHold(life, i, n, n);
  }

  /** In an open episode such a window above the anchor raises the anchor to its middle. */
  lemma FlatWindowRaisesAnchor(life: Life, i: nat, n: nat)
    requires life.Valid() && Flat(life, i, n) && life.Prior(n).phase == Collecting && life.Prior(n).quiet.Some?
    requires life.inputs[n].height > life.Prior(n).quiet.value.anchor
    ensures life.After(n + 1).phase == Collecting ==>
              life.After(n + 1).quiet.Some?
              && life.After(n + 1).quiet.value.anchor == Max(life.Prior(n).quiet.value.anchor, Middle(life, i, n))
  {
    hide WindowStarts, NoDetection, Step;
    FlatWindowIs(life, i, n);
    ObservedStep(life, n);
    BoundsHold(life, i, n, n);
  }

  /** A settlement leaves the middle of the flat window of that moment as the next baseline. */
  lemma SettlementLeavesMiddle(life: Life, n: nat, e: Event)
    requires life.Valid() && n < |life.inputs| && e in life.EventsAt(n) && e.Settled?
    ensures life.inputs[n].Observed?
    ensures life.After(n + 1).baseline == Some(PlateauAt(life, n).Height())
  {
    hide Advanced;
    ObservedStep(life, n);
    SettledBaseline(life.Prior(n), life.inputs[n].height, life.inputs[n].at, e);
  }

  lemma SettledBaseline(t: Tracker, h: real, at: int, e: Event)
    requires t.Sound() && e in Advanced(t, h, at).1 && e.Settled?
    ensures Advanced(t, h, at).0.baseline == Some(Widened(t.identity.scope.tuning, t.stable, h, at).Height())
  {
  }

  lemma OpenedWindow(t: Tracker, h: real, at: int)
    requires t.Sound()
    ensures var (r, events) := Advanced(t, h, at);
            (exists e :: e in events && e.Detected?) ==> r.stable == Some(Plateau(at, h, h))
  {
  }

  /** A detection starts the flat window over at its own height. */
  lemma DetectionStartsWindow(life: Life, k: nat)
    requires life.Valid() && k < |life.inputs| && DetectsAt(life, k)
    ensures life.inputs[k].Observed?
    ensures life.After(k + 1).stable == Some(Plateau(life.inputs[k].at, life.inputs[k].height, life.inputs[k].height))
  {
    hide Advanced;
    if life.inputs[k].Observed? {
      ObservedStep(life, k);
      OpenedWindow(life.Prior(k), life.inputs[k].height, life.inputs[k].at);
    }
  }

  /** Since a detection a flat window spans exactly the lowest and the highest height, its own included and none before. */
  lemma {:induction false} FlatSinceDetection(life: Life, k: nat, n: nat)
    requires life.Valid() && k < n && life.Unbroken(k, n) && DetectsAt(life, k) && NoDetection(life, k + 1, n)
    requires Highest(life, k, n) - Lowest(life, k, n) <= life.Tune().band
    ensures life.inputs[n].Observed?
    ensures PlateauAt(life, n) == Plateau(life.inputs[k].at, Lowest(life, k, n), Highest(life, k, n))
  {
    hide Step, Advanced, DetectsAt;
    PrefixUnbroken(life, k, n);
    FollowerMeetsAfter(life, n);
    if n == k + 1 {
      DetectionStartsWindow(life, k);
    } else {
      FlatSinceDetection(life, k, n - 1);
      ObservedStep(life, n - 1);
      QuietWindow(life, n - 1);
    }
  }

  lemma QuietWindow(life: Life, n: nat)
    requires life.Valid() && n < |life.inputs| && life.inputs[n].Observed? && !DetectsAt(life, n)
    ensures life.After(n + 1).stable == Some(PlateauAt(life, n))
  {
    hide Advanced;
    ObservedStep(life, n);
    assert forall e | e in life.EventsAt(n) :: !e.Detected?;
    AdvancedStable(life.Prior(n), life.inputs[n].height, life.inputs[n].at);
  }

  /** So an episode whose surface stays within one band until it settles leaves the middle of its heights as the baseline. */
  lemma FlatEpisodeLeavesMiddle(life: Life, k: nat, n: nat, e: Event)
    requires life.Valid() && k < n && life.Unbroken(k, n) && DetectsAt(life, k) && NoDetection(life, k + 1, n)
    requires Highest(life, k, n) - Lowest(life, k, n) <= life.Tune().band
    requires e in life.EventsAt(n) && e.Settled?
    ensures life.After(n + 1).baseline == Some(Middle(life, k, n))
  {
    hide Step, DetectsAt, NoDetection;
    FlatSinceDetection(life, k, n);
    SettlementLeavesMiddle(life, n, e);
  }

  // ---- A calm stretch prepares a tracker ----

  /** The tracker's levels all lie between two bounds. */
  predicate Between(t: Tracker, lo: real, hi: real) {
    && (t.stable.Some? ==> lo <= t.stable.value.low <= t.stable.value.high <= hi)
    && (t.reference.Some? ==> lo <= t.reference.value.level <= hi && lo <= t.reference.value.peak <= hi)
    && (t.baseline.Some? ==> lo <= t.baseline.value <= hi)
  }

  lemma BetweenWider(t: Tracker, lo: real, hi: real, low: real, high: real)
    requires Between(t, lo, hi) && low <= lo && hi <= high
    ensures Between(t, low, high)
  {
  }

  lemma CalmStep(t: Tracker, lo: real, hi: real, h: real, at: int)
    requires t.Sound() && (t.phase == Baselining || t.phase == Idle) && Between(t, lo, hi) && lo <= h <= hi
    requires hi - h <= t.identity.scope.tuning.band
    ensures var r := Advanced(t, h, at).0;
            && (r.phase == Baselining || r.phase == Idle) && Between(r, lo, hi)
            && (t.phase == Idle ==> r.phase == Idle)
            && (r.phase == Baselining ==>
                  && r.reference.Some? && at - r.reference.value.since < t.identity.scope.tuning.baseline
                  && r.reference.value.since == if t.reference.Some? then t.reference.value.since else at)
  {
  }

  lemma NeverFellEnds(life: Life, i: nat, n: nat)
    requires life.Unbroken(i, n) && NeverFell(life, i, n)
    ensures life.inputs[n].Observed? && Highest(life, i, n) - life.inputs[n].height <= life.Tune().band
    ensures i < n ==> NeverFell(life, i, n - 1)
  {
    assert Held(life, HighestAt(life, i, n), n);
  }

  /** A cleared tracker without an open episode: nothing was seen before input `i`. */
  ghost predicate FromScratch(life: Life, i: nat)
    requires life.Valid() && i < |life.inputs|
  {
    life.inputs[i].Observed? && life.Prior(i).Cleared() && life.Prior(i).phase != Collecting
  }

  /** While no height falls more than a band below an earlier one, preparation lasts less than the baseline time and then the tracker watches. */
  lemma {:induction false} CalmPrepares(life: Life, i: nat, n: nat)
    requires life.Valid() && life.Unbroken(i, n) && FromScratch(life, i) && NeverFell(life, i, n)
    ensures life.inputs[n].Observed?
    ensures var t := life.After(n + 1);
            && (t.phase == Baselining || t.phase == Idle) && Between(t, Lowest(life, i, n), Highest(life, i, n))
            && (t.phase == Baselining ==>
                  && t.reference.Some? && t.reference.value.since == life.inputs[i].at
                  && life.inputs[n].at - life.inputs[i].at < life.Tune().baseline)
  {
    hide Step, Advanced, NeverFell, Between;
    NeverFellEnds(life, i, n);
    ObservedStep(life, n);
    BoundsHold(life, i, n, n);
    if i == n {
      ScratchIsBetween(life.Prior(n), Lowest(life, i, n), Highest(life, i, n));
    } else {
      PrefixUnbroken(life, i, n);
      CalmPrepares(life, i, n - 1);
      FollowerMeetsAfter(life, n);
      BetweenWider(life.After(n), Lowest(life, i, n - 1), Highest(life, i, n - 1), Lowest(life, i, n), Highest(life, i, n));
    }
    CalmStep(life.Prior(n), Lowest(life, i, n), Highest(life, i, n), life.inputs[n].height, life.inputs[n].at);
  }

  lemma ScratchIsBetween(t: Tracker, lo: real, hi: real)
    requires t.Cleared() && t.phase != Collecting
    ensures Between(t, lo, hi) && t.phase == Baselining && t.reference.None?
  {
  }

  /** So after the baseline time a tracker has a baseline, between the lowest and the highest height it saw. */
  lemma BaselineIsEstablished(life: Life, i: nat, n: nat)
    requires life.Valid() && life.Unbroken(i, n) && FromScratch(life, i) && NeverFell(life, i, n)
    requires life.inputs[n].Observed? && life.inputs[n].at - life.inputs[i].at >= life.Tune().baseline
    ensures life.After(n + 1).phase == Idle && life.After(n + 1).baseline.Some?
    ensures Lowest(life, i, n) <= life.After(n + 1).baseline.value <= Highest(life, i, n)
  {
    hide Step, Advanced, NeverFell;
    CalmPrepares(life, i, n);
  }

  /** A stretch that is no flat window of the baseline time makes its first height the baseline. */
  lemma RisingBaselineIsFirst(life: Life, i: nat, n: nat)
    requires life.Valid() && life.Unbroken(i, n) && i < n && FromScratch(life, i) && NeverFell(life, i, n)
    requires life.inputs[n].Observed? && life.inputs[n - 1].Observed? && life.inputs[i + 1].Observed?
    requires life.inputs[n - 1].at - life.inputs[i].at < life.Tune().baseline <= life.inputs[n].at - life.inputs[i].at
    requires life.inputs[n].at - life.inputs[i + 1].at < life.Tune().baseline
    requires Highest(life, i, n) - Lowest(life, i, n) > life.Tune().band
    ensures life.After(n + 1).baseline == Some(life.inputs[i].height)
  {
    hide Step, Advanced, NeverFell;
    PrefixUnbroken(life, i, n);
    NeverFellEnds(life, i, n);
    CalmPrepares(life, i, n);
    WindowIsYoung(life, i, n);
    BaselineStaysAway(life, i, n - 1);
    FollowerMeetsAfter(life, n);
    ObservedStep(life, n);
    NeverFellEnds(life, i, n - 1);
    BoundsHold(life, i, n, HighestAt(life, i, n - 1));
    ReferenceDecides(life.Prior(n), life.inputs[n].height, life.inputs[n].at);
  }

  /** Before the baseline time a calm stretch only prepares. */
  lemma {:induction false} BaselineStaysAway(life: Life, i: nat, n: nat)
    requires life.Valid() && life.Unbroken(i, n) && FromScratch(life, i) && NeverFell(life, i, n)
    requires life.inputs[n].Observed? && life.inputs[n].at - life.inputs[i].at < life.Tune().baseline
    ensures life.After(n + 1).phase == Baselining && life.After(n + 1).reference.Some?
    ensures life.After(n + 1).reference.value.since == life.inputs[i].at
    ensures life.After(n + 1).reference.value.level == life.inputs[i].height
    ensures life.After(n + 1).reference.value.peak <= Highest(life, i, n)
    ensures life.After(n + 1).stable.Some? && life.After(n + 1).stable.value.since >= life.inputs[i].at
  {
    hide Step, Advanced, NeverFell;
    NeverFellEnds(life, i, n);
    ObservedStep(life, n);
    BoundsHold(life, i, n, n);
    if i == n {
      ScratchPrepares(life.Prior(n), life.inputs[n].height, life.inputs[n].at);
    } else {
      PrefixUnbroken(life, i, n);
      BaselineStaysAway(life, i, n - 1);
      FollowerMeetsAfter(life, n);
      PreparesOn(life.Prior(n), life.inputs[n].height, life.inputs[n].at, life.inputs[i].at, Highest(life, i, n));
    }
  }

  lemma ScratchPrepares(t: Tracker, h: real, at: int)
    requires t.Sound() && t.Cleared() && t.phase != Collecting
    ensures var r := Advanced(t, h, at).0;
            r.phase == Baselining && r.reference == Some(Reference(h, at, h)) && r.stable == Some(Plateau(at, h, h))
  {
  }

  lemma PreparesOn(t: Tracker, h: real, at: int, since: int, hi: real)
    requires t.Sound() && t.phase == Baselining && t.reference.Some? && t.reference.value.since == since && t.reference.value.peak <= hi
    requires t.stable.Some? && t.stable.value.since >= since
    requires h <= hi && hi - h <= t.identity.scope.tuning.band && since <= at && at - since < t.identity.scope.tuning.baseline
    ensures var r := Advanced(t, h, at).0;
            && r.phase == Baselining && r.reference.Some? && r.reference.value.since == since
            && r.reference.value.level == t.reference.value.level && r.reference.value.peak <= hi
            && r.stable.Some? && r.stable.value.since >= since
  {
  }

  /** No two heights since its start are more than a band apart in a flat window. */
  lemma PlateauSpans(life: Life, n: nat, j: nat, p: Plateau)
    requires life.Valid() && n < |life.inputs| && PlateauFrom(life, n, j, p)
    ensures forall a, b | j <= a <= n && j <= b <= n && life.inputs[a].Observed? && life.inputs[b].Observed? ::
              life.inputs[b].height - life.inputs[a].height <= life.Tune().band
  {
  }

  /** Heights more than a band apart since input `i`: the flat window started after it. */
  lemma WindowIsYoung(life: Life, i: nat, n: nat)
    requires life.Valid() && life.Unbroken(i, n) && i < n && life.inputs[n].Observed? && life.inputs[i + 1].Observed?
    requires Highest(life, i, n) - Lowest(life, i, n) > life.Tune().band
    ensures PlateauAt(life, n).since >= life.inputs[i + 1].at
  {
    hide Step, Advanced, Highest, Lowest;
    var j := PlateauNow(life, n);
    var (a, b) := (LowestAt(life, i, n), HighestAt(life, i, n));
    PlateauSpans(life, n, j, PlateauAt(life, n));
    assert j > i;
  }

  lemma ReferenceDecides(t: Tracker, h: real, at: int)
    requires t.Sound() && t.phase == Baselining && t.reference.Some?
    requires h >= t.reference.value.peak - t.identity.scope.tuning.band
    requires at - t.reference.value.since >= t.identity.scope.tuning.baseline
    requires at - Widened(t.identity.scope.tuning, t.stable, h, at).since < t.identity.scope.tuning.baseline
    ensures Advanced(t, h, at).0.baseline == Some(t.reference.value.level)
  {
  }

  // ---- Detection from heights and times alone ----

  /**
   * A tracker that starts from scratch, sees the baseline time without a fall of more than a band and then,
   * unbroken for the confirm time, heights at least the drop below all of those, detects on the way.
   */
  lemma CalmThenDropIsDetected(life: Life, i: nat, m: nat, n: nat)
    requires life.Valid() && i < m <= n && life.Unbroken(i, n) && FromScratch(life, i)
    requires life.Unbroken(i, m - 1) && NeverFell(life, i, m - 1)
    requires life.inputs[m - 1].Observed? && life.inputs[m - 1].at - life.inputs[i].at >= life.Tune().baseline
    requires forall k | m <= k <= n :: life.inputs[k].Observed? && Lowest(life, i, m - 1) - life.inputs[k].height >= life.Tune().drop
    requires life.inputs[n].at - life.inputs[m].at >= life.Tune().confirm
    ensures exists k :: m <= k <= n && DetectsAt(life, k)
  {
    hide Step, Advanced, NeverFell, DetectsAt;
    BaselineIsEstablished(life, i, m - 1);
    assert life.Unbroken(m - 1, n);
    SustainedDropIsDetected(life, m, n);
  }

  /** A life, an outage and a long gap start from scratch, unless an episode is open. */
  lemma StartsFromScratch(life: Life, i: nat)
    requires life.Valid() && i < |life.inputs| && life.inputs[i].Observed?
    requires || i == 0 || life.inputs[i - 1].Outage?
             || life.inputs[i].at - life.inputs[i - 1].at > 3 * SECOND
    requires life.After(i).phase != Collecting
    ensures FromScratch(life, i)
  {
    Continuity(life, i);
    if i == 0 {
      assert life.After(0) == Born(life.identity, life.inputs[0].at);
    }
  }

  // ---- A watching tracker follows a rising surface ----

  /** Where the reference of a watching tracker stands after input `k` of a calm stretch from input `i`. */
  ghost predicate Following(life: Life, i: nat, k: nat)
    requires life.Valid() && life.Unbroken(i, k)
  {
    && life.inputs[k].Observed? && life.After(k + 1).Watching() && life.After(k + 1).reference.Some?
    && (|| life.After(k + 1).baseline.value >= Lowest(life, i, k)
        || Rising(life.Tune(), life.After(k + 1).reference.value, life.inputs[i].at, life.inputs[k].at, Lowest(life, i, k), Highest(life, i, k))
        || Old(life.Tune(), life.After(k + 1).reference.value, life.inputs[i].at, life.inputs[k].at))
  }

  /** The reference started within the stretch, on one of its heights. */
  predicate Rising(c: Tuning, r: Reference, start: int, at: int, lo: real, hi: real) {
    start <= r.since < start + c.baseline + MAX_GAP && at - r.since < c.baseline && lo <= r.level && r.peak <= hi
  }

  /** The reference started before the stretch. */
  predicate Old(c: Tuning, r: Reference, start: int, at: int) { r.since <= start && at - r.since < c.baseline }

  lemma WatchedReference(t: Tracker, h: real, at: int)
    requires t.Sound() && Shape(t) && t.Watching() && Advanced(t, h, at).0.phase != Collecting
    ensures var c := t.identity.scope.tuning;
            var r := Advanced(t, h, at).0;
            var q := Tracked(c, t.reference, h, at);
            && r.Watching() && r.baseline.value >= t.baseline.value && r.reference.Some?
            && (at - q.since < c.baseline ==> r.reference.value == q)
            && (at - q.since >= c.baseline ==> r.reference.value == Reference(h, at, h) && r.baseline.value >= q.level)
  {
  }

  lemma FollowingStep(c: Tuning, r: Reference, h: real, at: int, start: int, last: int, lo: real, hi: real)
    requires Rising(c, r, start, last, lo, hi) || Old(c, r, start, last)
    requires start <= last < at <= last + MAX_GAP && lo <= h <= hi && hi - h <= c.band
    ensures var q := Tracked(c, Some(r), h, at);
            var next := if at - q.since < c.baseline then q else Reference(h, at, h);
            || (at - q.since >= c.baseline && q.level >= lo)
            || Rising(c, next, start, at, lo, hi) || Old(c, next, start, at)
  {
  }

  lemma OpeningIsDetected(t: Tracker, h: real, at: int)
    requires t.Sound() && t.phase != Collecting && Advanced(t, h, at).0.phase == Collecting
    ensures exists e :: e in Advanced(t, h, at).1 && e.Detected?
  {
    var events := Advanced(t, h, at).1;
    assert events[0] in events;
  }

  lemma NoDetectionOpensNothing(life: Life, k: nat)
    requires life.Valid() && k < |life.inputs| && life.inputs[k].Observed? && !DetectsAt(life, k)
    ensures life.Prior(k).phase != Collecting ==> life.After(k + 1).phase != Collecting
  {
    hide Step, Advanced;
    ObservedStep(life, k);
    if life.Prior(k).phase != Collecting && life.After(k + 1).phase == Collecting {
      OpeningIsDetected(life.Prior(k), life.inputs[k].height, life.inputs[k].at);
    }
  }

  lemma {:induction false} FollowsCalmStretch(life: Life, i: nat, n: nat)
    requires life.Valid() && life.Unbroken(i, n) && NeverFell(life, i, n) && NoDetection(life, i, n + 1)
    requires life.inputs[i].Observed? && life.Prior(i).Watching()
    ensures Following(life, i, n)
  {
    hide Step, Advanced, NeverFell, DetectsAt, Rising, Old, Tracked;
    NeverFellEnds(life, i, n);
    ObservedStep(life, n);
    ShapeAlways(life, n);
    BoundsHold(life, i, n, n);
    assert !DetectsAt(life, n);
    NoDetectionOpensNothing(life, n);
    if i == n {
      WatchedReference(life.Prior(n), life.inputs[n].height, life.inputs[n].at);
      StretchBegins(life, i);
    } else {
      PrefixUnbroken(life, i, n);
      FollowsCalmStretch(life, i, n - 1);
      FollowerMeetsAfter(life, n);
      WatchedReference(life.Prior(n), life.inputs[n].height, life.inputs[n].at);
      StretchGoesOn(life, i, n);
    }
  }

  lemma StretchBegins(life: Life, i: nat)
    requires life.Valid() && life.Unbroken(i, i) && life.inputs[i].Observed? && life.Prior(i).Watching()
    ensures var (c, h, at) := (life.Tune(), life.inputs[i].height, life.inputs[i].at);
            var q := Tracked(c, life.Prior(i).reference, h, at);
            var next := if at - q.since < c.baseline then q else Reference(h, at, h);
            Rising(c, next, at, at, h, h) || Old(c, next, at, at)
  {
    hide Step, Advanced;
    PriorCases(life, i);
    if life.Prior(i).reference.Some? {
      var j := ReferenceHistory(life, i);
      assert ReferenceFrom(life, i - 1, j, life.After(i).reference.value);
    }
  }

  lemma StretchGoesOn(life: Life, i: nat, n: nat)
    requires life.Valid() && i < n && life.Unbroken(i, n) && life.Unbroken(i, n - 1) && Following(life, i, n - 1)
    requires life.inputs[n].Observed? && life.Prior(n) == life.After(n) && life.Follows(n)
    requires Highest(life, i, n) - life.inputs[n].height <= life.Tune().band
    requires var (t, c, h, at) := (life.After(n), life.Tune(), life.inputs[n].height, life.inputs[n].at);
             var (r, q) := (life.After(n + 1), Tracked(c, t.reference, h, at));
             && r.Watching() && r.baseline.value >= t.baseline.value && r.reference.Some?
             && (at - q.since < c.baseline ==> r.reference.value == q)
             && (at - q.since >= c.baseline ==> r.reference.value == Reference(h, at, h) && r.baseline.value >= q.level)
    ensures Following(life, i, n)
  {
    hide Step, Advanced, Rising, Old, Tracked, Life.After;
    var (t, c) := (life.After(n), life.Tune());
    BoundsHold(life, i, n, n);
    BoundsHold(life, i, n - 1, i);
    assert life.inputs[i].at <= life.inputs[n - 1].at;
    if t.baseline.value < Lowest(life, i, n - 1) {
      RisingWider(c, t.reference.value, life.inputs[i].at, life.inputs[n - 1].at,
                  Lowest(life, i, n - 1), Highest(life, i, n - 1), Lowest(life, i, n), Highest(life, i, n));
      FollowingStep(c, t.reference.value, life.inputs[n].height, life.inputs[n].at,
                    life.inputs[i].at, life.inputs[n - 1].at, Lowest(life, i, n), Highest(life, i, n));
    }
  }

  lemma RisingWider(c: Tuning, r: Reference, start: int, at: int, lo: real, hi: real, low: real, high: real)
    requires low <= lo && hi <= high
    ensures Rising(c, r, start, at, lo, hi) ==> Rising(c, r, start, at, low, high)
  {
  }

  /**
   * A watching tracker follows a rising surface: after twice the baseline time and one gap without a fall of
   * more than a band, and without a detection, its baseline is at least the lowest height of that stretch.
   */
  lemma BaselineCatchesUp(life: Life, i: nat, n: nat)
    requires life.Valid() && life.Unbroken(i, n) && NeverFell(life, i, n) && NoDetection(life, i, n + 1)
    requires life.inputs[i].Observed? && life.inputs[n].Observed? && life.Prior(i).Watching()
    requires life.inputs[n].at - life.inputs[i].at >= 2 * life.Tune().baseline + MAX_GAP
    ensures life.After(n + 1).Watching() && life.After(n + 1).baseline.value >= Lowest(life, i, n)
  {
    hide Step, Advanced, NeverFell, DetectsAt, NoDetection;
    FollowsCalmStretch(life, i, n);
  }
}
