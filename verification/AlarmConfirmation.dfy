/** When an alarm is raised: the worker's test against the receiver's history. */
module AlarmConfirmation {
  import opened Basics
  import opened StoredFilter
  import opened FillFilter
  import opened FillFilterRuns
  import opened FillOperations

  // ---- Entering CRITICAL ----

  /** A snapshot that calls the filter ready shows the filter stored when it was read. */
  predicate ReadFrom(s: Snapshot, stored: Option<Filter>)
    requires Evidence(s)
  {
    s.filtering == FilterReady ==>
      && stored.Some? && stored.value.state == Ready && stored.value.value == s.fill
      && stored.value.message == s.reading.value.message && stored.value.observed == Some(s.reading.value.observed)
  }

  predicate SentBefore(history: seq<Step>, n: nat, message: nat) {
    exists t | 0 <= t < n && t < |history| :: history[t].Observe? && history[t].input.observation.message == message
  }

  lemma {:induction false} StoredWasSent(history: seq<Step>, n: nat, cfg: Settings)
    requires n <= |history|
    ensures Stored(history[..n], cfg).Some? ==> SentBefore(history, n, Stored(history[..n], cfg).value.message)
  {
    hide Windowed, Accepted, Survives;
    if n > 0 {
      assert history[..n][..n - 1] == history[..n - 1];
      StoredWasSent(history, n - 1, cfg);
    }
  }

  /** A filter read again with the same message is the same filter, with the same history of projections. */
  lemma {:induction false} SameMessageSameTrail(history: seq<Step>, i: nat, j: nat, cfg: Settings)
    requires i <= j <= |history| && DistinctMessages(history)
    requires Stored(history[..i], cfg).Some? && Stored(history[..j], cfg).Some?
    requires Stored(history[..i], cfg).value.message == Stored(history[..j], cfg).value.message
    ensures Trail(history[..i], cfg) == Trail(history[..j], cfg)
  {
    hide Windowed, Accepted, Survives;
    if i < j {
      var n := j - 1;
      assert history[..j][..n] == history[..n];
      TrailEndsStored(history[..n], cfg);
      StoredWasSent(history, i, cfg);
      if !history[n].Observe? {
        SameMessageSameTrail(history, i, n, cfg);
      }
    }
  }

  /** A stretch of projections, all above the threshold, long enough to confirm an alarm. */
  predicate LongEnough(trail: seq<Option<Filter>>, k: nat, observed: int, confirm: nat) {
    AboveFrom(trail, k) && observed - trail[k].value.observed.value >= confirm * SECOND
  }

  predicate SustainedAbove(trail: seq<Option<Filter>>, observed: int, confirm: nat) {
    exists k | 0 <= k < |trail| :: LongEnough(trail, k, observed, confirm)
  }

  /** The stored filter is still that of the snapshot's observation, for its threshold. */
  predicate StillThatOf(filter: Option<Filter>, s: Snapshot)
    requires Evidence(s)
  {
    filter.Some? && filter.value.message == s.reading.value.message && filter.value.scope.threshold == s.critical
  }

  /**
   * With the filter ready, and read again at or after the time the snapshot was taken, the alarm is
   * raised exactly when the fill reaches the threshold and either nothing has to be confirmed, or the
   * filter is still that of the snapshot, for that threshold, and every projection of the receiver over at
   * least the confirmation time was ready, in one scope, at or above the threshold and without a pause.
   */
  lemma CriticalIsConfirmed(w: World, source: Source, s: Snapshot, history: seq<Step>, i: nat, j: nat, limits: Limits, cfg: Settings)
    requires cfg.size >= 2 && i <= j <= |history| && DistinctMessages(history)
    requires Evaluates(w, source, s) && Previous(w, source) != Critical && s.filtering == FilterReady
    requires ReadFrom(s, Stored(history[..i], cfg))
    ensures StateAfter(w, source, s, Stored(history[..j], cfg), limits) == Critical
       <==> && s.fill.value >= s.critical
            && (|| limits.confirm == 0
                || (&& StillThatOf(Stored(history[..j], cfg), s)
                    && SustainedAbove(Trail(history[..j], cfg), s.reading.value.observed, limits.confirm)))
  {
    hide Stored, Trail, AboveFrom, Shaped;
    var filter := Stored(history[..j], cfg);
    if StillThatOf(filter, s) {
      SameMessageSameTrail(history, i, j, cfg);
      TrailEndsStored(history[..i], cfg);
      TrailEndsStored(history[..j], cfg);
      TimerDecides(history[..j], s.reading.value.observed, limits.confirm, cfg);
    }
  }

  /** The stored timer has run for the confirmation time exactly when such a stretch exists. */
  lemma TimerDecides(history: seq<Step>, observed: int, confirm: nat, cfg: Settings)
    requires cfg.size >= 2
    requires Stored(history, cfg).Some? && Stored(history, cfg).value.observed == Some(observed)
    ensures var f := Stored(history, cfg).value;
            && (f.aboveSince.Some? ==> f.aboveSince.value <= observed)
            && (f.aboveSince.Some? && observed - f.aboveSince.value >= confirm * SECOND
                <==> SustainedAbove(Trail(history, cfg), observed, confirm))
  {
    hide Stored, Trail, AboveFrom;
    var trail := Trail(history, cfg);
    TrailEndsStored(history, cfg);
    TrailIsShaped(history, cfg);
    AboveSinceIsBacked(history, cfg);
    AboveSinceCovers(history, cfg);
    var f := Last(trail).value;
    assert Shaped(f, cfg.size);
    if f.aboveSince.Some? && observed - f.aboveSince.value >= confirm * SECOND {
      var k :| 0 <= k < |trail| && AboveFromTime(trail, k, f.aboveSince.value);
      assert LongEnough(trail, k, observed, confirm);
    }
    if SustainedAbove(trail, observed, confirm) {
      var k :| 0 <= k < |trail| && LongEnough(trail, k, observed, confirm);
      assert CoveredAt(trail, k);
    }
  }
}
