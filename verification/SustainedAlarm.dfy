/** From the receiver's observations to the worker's alarm: what stays high is raised. */
module SustainedAlarm {
  import opened Basics
  import opened ObservationWindow
  import opened StoredFilter
  import opened FillFilter
  import opened FillFilterRuns
  import opened FillFilterLaws
  import opened FillOperations
  import opened OperationRuns
  import opened AlarmConfirmation

  /** Observations that all reach the threshold they are compared with, each in its value and in the height median it brings. */
  predicate High(inputs: seq<Input>) {
    forall i | 0 <= i < |inputs| ::
      && inputs[i].observation.value.Some? && inputs[i].observation.value.value >= inputs[i].threshold
      && (inputs[i].observation.source == HeightSections ==>
            inputs[i].heightMedian.Some? && inputs[i].heightMedian.value >= inputs[i].threshold)
  }

  /** Steady observations at pace, all high, that the stored filter begins afresh with. */
  ghost predicate SteadyHigh(history: seq<Step>, inputs: seq<Input>, cfg: Settings) {
    && |inputs| >= cfg.size >= 2 && Steady(inputs, cfg) && Afresh(Stored(history, cfg), inputs[0])
    && Paced(ObservedTimes(inputs), cfg.size) && High(inputs)
  }

  lemma SteadyHighPrefix(history: seq<Step>, inputs: seq<Input>, cfg: Settings)
    requires SteadyHigh(history, inputs, cfg) && |inputs| > cfg.size
    ensures SteadyHigh(history, inputs[..|inputs| - 1], cfg)
  {
    hide Steady, Stored, Paced, Afresh;
    var n := |inputs| - 1;
    SteadyIsObserved(inputs, cfg);
    SteadyGoesOn(inputs, cfg);
    PacedPrefix(ObservedTimes(inputs), cfg.size);
    assert ObservedTimes(inputs)[..n] == ObservedTimes(inputs[..n]);
  }

  lemma LastValuesAreHigh(inputs: seq<Input>, size: nat, threshold: real)
    requires High(inputs) && forall i | 0 <= i < |inputs| :: inputs[i].threshold == threshold
    ensures forall k | 0 <= k < |LastValues(inputs, size)| :: LastValues(inputs, size)[k] >= threshold
  {
  }

  /** Then the filter is ready and at or above the threshold, and its timer started no later than the `size`-th of them. */
  predicate RunsSince(f: Option<Filter>, last: Input, since: int) {
    && f.Some? && f.value.state == Ready && f.value.value.Some? && f.value.value.value >= last.threshold
    && f.value.scope == ScopeOf(last) && f.value.observed == last.observation.observed
    && f.value.aboveSince.Some? && f.value.aboveSince.value <= since
  }

  lemma HighIsReady(history: seq<Step>, inputs: seq<Input>, cfg: Settings)
    requires SteadyHigh(history, inputs, cfg)
    ensures var f := Stored(history + Observes(inputs), cfg);
            f.Some? && f.value.state == Ready && f.value.value.Some? && f.value.value.value >= inputs[|inputs| - 1].threshold
  {
    var last := inputs[|inputs| - 1];
    SteadyObservationsMakeReady(history, inputs, cfg);
    assert forall i | 0 <= i < |inputs| :: SameKind(inputs[0], inputs[i]) && inputs[i].threshold == last.threshold;
    LastValuesAreHigh(inputs, cfg.size, last.threshold);
    HighMedian(LastValues(inputs, cfg.size), last.threshold);
    hide Stored, Median, LastValues, Steady, Paced;
  }

  lemma StoredIsShaped(history: seq<Step>, cfg: Settings)
    requires cfg.size > 0
    ensures Stored(history, cfg).Some? ==> Shaped(Stored(history, cfg).value, cfg.size)
  {
    hide Shaped, Stored, Trail;
    TrailEndsStored(history, cfg);
    TrailIsShaped(history, cfg);
  }

  lemma StoredAfter(history: seq<Step>, inputs: seq<Input>, cfg: Settings)
    requires inputs != []
    ensures Stored(history + Observes(inputs), cfg)
         == Some(Projected(Stored(history + Observes(inputs[..|inputs| - 1]), cfg), inputs[|inputs| - 1], cfg))
  {
    hide Projected;
    var all := history + Observes(inputs);
    assert all[..|all| - 1] == history + Observes(inputs[..|inputs| - 1]);
  }

  lemma RunsFrom(f: Filter, input: Input, size: nat)
    requires Shaped(f, size) && f.scope == ScopeOf(input) && f.observed == input.observation.observed
    requires f.state == Ready && f.value.Some? && f.value.value >= input.threshold && f.aboveSince.Some?
    ensures f.observed.Some? && RunsSince(Some(f), input, f.observed.value)
  {
    hide Sound;
  }

  lemma RunsOn(previous: Option<Filter>, was: Input, input: Input, since: int, cfg: Settings)
    requires RunsSince(previous, was, since) && ScopeOf(was) == ScopeOf(input)
    requires var f := Projected(previous, input, cfg); f.state == Ready && f.value.Some? && f.value.value >= input.threshold
    ensures RunsSince(Some(Projected(previous, input, cfg)), input, since)
  {
    hide Windowed, Trusted, ScopeOf;
  }

  lemma ReadyAbove(previous: Option<Filter>, input: Input, cfg: Settings)
    requires var f := Projected(previous, input, cfg); f.state == Ready && f.value.Some? && f.value.value >= input.threshold
    ensures var f := Projected(previous, input, cfg);
            f.scope == ScopeOf(input) && f.observed == input.observation.observed && f.observed.Some? && f.aboveSince.Some?
  {
    hide Windowed, ScopeOf;
  }

  lemma {:induction false} HighRunsSince(history: seq<Step>, inputs: seq<Input>, cfg: Settings)
    requires SteadyHigh(history, inputs, cfg)
    ensures inputs[cfg.size - 1].observation.observed.Some?
    ensures RunsSince(Stored(history + Observes(inputs), cfg), inputs[|inputs| - 1], inputs[cfg.size - 1].observation.observed.value)
  {
    hide Steady, Stored, Projected, Shaped, RunsSince, ScopeOf, Observes, Paced, Afresh, High;
    var n := |inputs| - 1;
    var before := Stored(history + Observes(inputs[..n]), cfg);
    SteadyIsObserved(inputs, cfg);
    HighIsReady(history, inputs, cfg);
    StoredAfter(history, inputs, cfg);
    if n >= cfg.size {
      SteadyHighPrefix(history, inputs, cfg);
      HighRunsSince(history, inputs[..n], cfg);
      SteadyGoesOn(inputs, cfg);
      SameKindSameScope(inputs[n - 1], inputs[n]);
      RunsOn(before, inputs[n - 1], inputs[n], inputs[cfg.size - 1].observation.observed.value, cfg);
    } else {
      StoredIsShaped(history + Observes(inputs), cfg);
      ReadyAbove(before, inputs[n], cfg);
      RunsFrom(Projected(before, inputs[n], cfg), inputs[n], cfg.size);
    }
  }

  /**
   * From observations to the alarm: fresh observations of one kind at a steady pace, all at or above the threshold, for
   * the confirmation time beyond the `size`-th of them, make the worker's next evaluation CRITICAL, provided it
   * sees the last of them, and leave an alert of the pit from this sweep or less than the cooldown old.
   */
  lemma SustainedHighRaisesAlarm(w: World, sweep: Sweep, history: seq<Step>, inputs: seq<Input>, limits: Limits, cfg: Settings)
    requires SteadyHigh(history, inputs, cfg) && Booked(w) && Evaluating(w, sweep) && sweep.s.filtering == FilterReady
    requires sweep.filter == Stored(history + Observes(inputs), cfg) && ReadFrom(sweep.s, sweep.filter)
    requires sweep.s.critical == inputs[|inputs| - 1].threshold
    requires var (first, last) := (inputs[cfg.size - 1].observation.observed, inputs[|inputs| - 1].observation.observed);
             first.Some? && last.Some? && last.value - first.value >= limits.confirm * SECOND
    ensures IsCritical(Swept(w, sweep, limits), sweep.source)
    ensures exists a | 0 <= a < |Swept(w, sweep, limits).alerts| ::
              Swept(w, sweep, limits).alerts[a].source.pit == sweep.source.pit
              && (|| Swept(w, sweep, limits).alerts[a].at == sweep.now
                  || sweep.now - Swept(w, sweep, limits).alerts[a].at < limits.cooldown * SECOND)
  {
    HighRunsSince(history, inputs, cfg);
    hide SteadyHigh, Stored, Swept, Booked;
    assert StateAfter(w, sweep.source, sweep.s, sweep.filter, limits) == Critical;
    CriticalHasAlert(w, sweep, limits);
    EvaluationStands(w, sweep, limits);
  }
}
