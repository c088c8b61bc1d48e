/** What takes an observation into the stored filter, what erases it, and when it becomes ready. */
module FillFilterLaws {
  import opened Basics
  import opened ObservationWindow
  import opened StoredFilter
  import opened FillFilter
  import opened FillFilterRuns

  // ---- What is taken ----

  /** The evidence is younger than its lifetime when received, from a device that is reporting, working and configured alike. */
  predicate FreshEvidence(input: Input, cfg: Settings) {
    var (o, d) := (input.observation, input.device);
    && o.value.Some? && o.observed.Some?
    && o.observed.value <= input.received && input.received < o.observed.value + cfg.ttl * SECOND
    && d.reporting && d.working && d.snapshot.Some? && d.snapshot.value.config == o.config
  }

  /** An observation is taken exactly when its evidence is fresh and newer than the stored time; otherwise nothing remains. */
  lemma TakenIff(previous: Option<Filter>, input: Input, cfg: Settings)
    ensures var f := Projected(previous, input, cfg);
            && (f.valid <==> FreshEvidence(input, cfg)
                             && (previous.Some? && previous.value.observed.Some? ==>
                                   previous.value.observed.value < input.observation.observed.value))
            && (!f.valid ==> f.state == Unavailable && f.samples == [] && f.anchor.None? && f.value.None? && f.aboveSince.None?)
            && f.message == input.observation.message && f.observed == input.observation.observed
  {
    hide Windowed;
  }

  /** Two inputs are of one kind: nothing an observation's meaning depends on has changed. */
  predicate SameKind(a: Input, b: Input) {
    && a.observation.config == b.observation.config && a.observation.rule == b.observation.rule
    && a.observation.methodVersion == b.observation.methodVersion && a.observation.token == b.observation.token
    && a.observation.source == b.observation.source
    && a.pit == b.pit && a.threshold == b.threshold
    && (a.device.snapshot.Some? <==> b.device.snapshot.Some?)
    && (a.device.snapshot.Some? ==> a.device.snapshot.value.instance == b.device.snapshot.value.instance)
  }

  /** After a change of kind neither samples nor the timer go on. */
  lemma ChangeOfKindRestarts(previous: Filter, was: Input, input: Input, cfg: Settings)
    requires previous.scope == ScopeOf(was) && !SameKind(was, input)
    ensures var f := Projected(Some(previous), input, cfg);
            |f.samples| <= 1 && (f.aboveSince.Some? ==> f.aboveSince == input.observation.observed)
  {
    var f := Projected(Some(previous), input, cfg);
    if f.valid {
      var samples := Candidates(Some(previous), input);
      SelectedPoints(Ats(samples), input.observation.observed.value, cfg.size, PriorAnchor(Some(previous), input));
    }
  }

  // ---- What erases ----

  /** A scan that is not up to date, has no time or is as old as its lifetime. */
  predicate StaleScan(scan: Scan, received: int, ttl: nat) {
    !scan.upToDate || scan.lastScan.None? || scan.lastScan.value > received || received - scan.lastScan.value >= ttl * SECOND
  }

  /** The faults of a report that replaced the retained one: what the stored filter rests on no longer holds. */
  predicate Fault(stored: Option<Filter>, report: Report, heightFill: bool, cfg: Settings) {
    || !report.sameInstance || !report.working
    || (heightFill
        && (|| !report.clockAllowed || report.generated > report.received || |report.sensors| != 2
            || StaleScan(report.sensors[0], report.received, cfg.ttl) || StaleScan(report.sensors[1], report.received, cfg.ttl)
            || (stored.Some? && stored.value.scope.config != report.config)))
  }

  /** A report with a fault erases the filter, and any other leaves it as it is. */
  lemma ReportErasesIff(history: seq<Step>, report: Report, heightFill: bool, cfg: Settings)
    ensures var stored := Stored(history, cfg);
            Stored(history + [Replaced(report, heightFill)], cfg) == if Fault(stored, report, heightFill, cfg) then None else stored
  {
    assert (history + [Replaced(report, heightFill)])[..|history|] == history;
  }

  /** A sample was taken from the observation of step `q`. */
  predicate FromStep(history: seq<Step>, q: nat, sample: Sample, cfg: Settings) {
    && q < |history| && history[q].Observe? && FreshEvidence(history[q].input, cfg)
    && history[q].input.observation.observed == Some(sample.at) && history[q].input.observation.value == Some(sample.value)
  }

  predicate ObservedAtStep(history: seq<Step>, q: nat, at: int) {
    q < |history| && history[q].Observe? && history[q].input.observation.observed == Some(at)
  }

  predicate SampledSince(history: seq<Step>, p: nat, n: nat, sample: Sample, cfg: Settings) {
    exists q | p < q < n :: FromStep(history, q, sample, cfg)
  }

  predicate ObservedSince(history: seq<Step>, p: nat, n: nat, at: int) {
    exists q | p < q < n :: ObservedAtStep(history, q, at)
  }

  /** Every stored sample, and the start of the timer, come from steps after `p` and before `n`. */
  predicate OnlySince(history: seq<Step>, p: nat, n: nat, f: Option<Filter>, cfg: Settings) {
    f.Some? ==>
      && (forall i | 0 <= i < |f.value.samples| :: SampledSince(history, p, n, f.value.samples[i], cfg))
      && (f.value.aboveSince.Some? ==> ObservedSince(history, p, n, f.value.aboveSince.value))
  }

  lemma SampledSinceLonger(history: seq<Step>, p: nat, n: nat, sample: Sample, cfg: Settings)
    requires SampledSince(history, p, n, sample, cfg)
    ensures SampledSince(history, p, n + 1, sample, cfg)
  {
    hide FromStep;
    var q :| p < q < n && FromStep(history, q, sample, cfg);
  }

  lemma ObservedSinceLonger(history: seq<Step>, p: nat, n: nat, at: int)
    requires ObservedSince(history, p, n, at)
    ensures ObservedSince(history, p, n + 1, at)
  {
    hide ObservedAtStep;
    var q :| p < q < n && ObservedAtStep(history, q, at);
  }

  lemma OnlySinceLonger(history: seq<Step>, p: nat, n: nat, f: Option<Filter>, cfg: Settings)
    requires OnlySince(history, p, n, f, cfg)
    ensures OnlySince(history, p, n + 1, f, cfg)
  {
    hide SampledSince, ObservedSince;
    if f.Some? {
      forall i | 0 <= i < |f.value.samples|
        ensures SampledSince(history, p, n + 1, f.value.samples[i], cfg)
      {
        SampledSinceLonger(history, p, n, f.value.samples[i], cfg);
      }
      if f.value.aboveSince.Some? {
        ObservedSinceLonger(history, p, n, f.value.aboveSince.value);
      }
    }
  }

  /** The samples after an observation are old ones or its own. */
  lemma SamplesAreOldOrNew(previous: Option<Filter>, input: Input, cfg: Settings, k: nat)
    requires k < |Projected(previous, input, cfg).samples|
    ensures Accepted(previous, input, cfg)
    ensures var s := Projected(previous, input, cfg).samples[k];
            || (previous.Some? && s in previous.value.samples)
            || s == Sample(input.observation.observed.value, input.observation.value.value)
  {
    var samples := Candidates(previous, input);
    var now := input.observation.observed.value;
    SelectedPoints(Ats(samples), now, cfg.size, PriorAnchor(previous, input));
    hide Selected, Median, Values;
    assert Projected(previous, input, cfg).samples[k] in samples;
  }

  lemma OnlySinceObserved(history: seq<Step>, p: nat, n: nat, f: Option<Filter>, cfg: Settings)
    requires p < n < |history| && history[n].Observe? && OnlySince(history, p, n, f, cfg)
    ensures OnlySince(history, p, n + 1, Some(Projected(f, history[n].input, cfg)), cfg)
  {
    var input := history[n].input;
    var next := Projected(f, input, cfg);
    hide Windowed;
    forall i | 0 <= i < |next.samples|
      ensures SampledSince(history, p, n + 1, next.samples[i], cfg)
    {
      SamplesAreOldOrNew(f, input, cfg, i);
      if f.Some? && next.samples[i] in f.value.samples {
        var j :| 0 <= j < |f.value.samples| && f.value.samples[j] == next.samples[i];
        SampledSinceLonger(history, p, n, f.value.samples[j], cfg);
      } else {
        assert FromStep(history, n, next.samples[i], cfg);
      }
    }
    if next.aboveSince.Some? {
      if f.Some? && next.aboveSince == f.value.aboveSince {
        ObservedSinceLonger(history, p, n, f.value.aboveSince.value);
      } else {
        assert ObservedAtStep(history, n, next.aboveSince.value);
      }
    }
  }

  /** Whatever is stored after an erasure was taken after it. */
  lemma {:induction false} StoredSinceErasure(history: seq<Step>, p: nat, n: nat, cfg: Settings)
    requires p < n <= |history| && Stored(history[..p + 1], cfg).None?
    ensures OnlySince(history, p, n, Stored(history[..n], cfg), cfg)
  {
    hide Projected, Survives, OnlySince;
    if n == p + 1 {
      NothingStored(history, p, n, cfg);
    } else {
      var m := n - 1;
      assert history[..n][..m] == history[..m];
      StoredSinceErasure(history, p, m, cfg);
      match history[m]
      case Observe(input) =>
        OnlySinceObserved(history, p, m, Stored(history[..m], cfg), cfg);
      case Replaced(report, heightFill) =>
        OnlySinceLonger(history, p, m, Stored(history[..m], cfg), cfg);
        NothingStored(history, p, n, cfg);
      case Unassigned =>
        NothingStored(history, p, n, cfg);
    }
  }

  lemma NothingStored(history: seq<Step>, p: nat, n: nat, cfg: Settings)
    ensures OnlySince(history, p, n, None, cfg)
  {
  }

  /** No stored sample, and no start of the timer, is from before a report with a fault. */
  lemma NothingFromBeforeFault(history: seq<Step>, p: nat, n: nat, cfg: Settings)
    requires p < n <= |history| && history[p].Replaced?
    requires Fault(Stored(history[..p], cfg), history[p].report, history[p].heightFill, cfg)
    ensures OnlySince(history, p, n, Stored(history[..n], cfg), cfg)
  {
    hide Stored, OnlySince, Fault;
    assert history[..p + 1] == history[..p] + [history[p]];
    ReportErasesIff(history[..p], history[p].report, history[p].heightFill, cfg);
    StoredSinceErasure(history, p, n, cfg);
  }

  // ---- When the filter becomes ready ----

  /** The filter after more observations. */
  function Fed(f: Option<Filter>, inputs: seq<Input>, cfg: Settings): Option<Filter> {
    if inputs == [] then f else Some(Projected(Fed(f, inputs[..|inputs| - 1], cfg), inputs[|inputs| - 1], cfg))
  }

  function Observes(inputs: seq<Input>): seq<Step> {
    seq(|inputs|, i requires 0 <= i < |inputs| => Observe(inputs[i]))
  }

  lemma {:induction false} FedIsStored(history: seq<Step>, inputs: seq<Input>, cfg: Settings)
    ensures Stored(history + Observes(inputs), cfg) == Fed(Stored(history, cfg), inputs, cfg)
  {
    hide Projected;
    if inputs == [] {
      assert history + Observes(inputs) == history;
    } else {
      var n := |inputs| - 1;
      FedIsStored(history, inputs[..n], cfg);
      var all := history + Observes(inputs);
      assert all[..|all| - 1] == history + Observes(inputs[..n]);
    }
  }

  function ObservedTimes(inputs: seq<Input>): seq<int>
    requires forall i | 0 <= i < |inputs| :: inputs[i].observation.observed.Some?
  {
    seq(|inputs|, i requires 0 <= i < |inputs| => inputs[i].observation.observed.value)
  }

  /** Fresh observations of one kind, each newer than the one before. */
  predicate Steady(inputs: seq<Input>, cfg: Settings) {
    && (forall i | 0 <= i < |inputs| :: FreshEvidence(inputs[i], cfg) && SameKind(inputs[0], inputs[i]))
    && forall i | 0 < i < |inputs| :: inputs[i - 1].observation.observed.value < inputs[i].observation.observed.value
  }

  /** The stored filter has nothing the first of the observations goes on from. */
  predicate Afresh(f: Option<Filter>, first: Input)
    requires first.observation.observed.Some?
  {
    f.Some? ==>
      && (f.value.observed.Some? ==> f.value.observed.value < first.observation.observed.value)
      && (f.value.scope != ScopeOf(first) || (f.value.samples == [] && f.value.anchor.None?))
  }

  lemma WindowedTimes(previous: Option<Filter>, input: Input, size: nat)
    requires input.observation.observed.Some? && input.observation.value.Some?
    ensures var at := input.observation.observed.value;
            var w := Windowed(previous, input, size);
            var times := Ats(Candidates(previous, input));
            && Ats(w.0) == Times(Selected(times, at, size, PriorAnchor(previous, input)))
            && w.1 == Some(Renewed(Current(times, at, size), at, size, PriorAnchor(previous, input)))
  {
    var samples := Candidates(previous, input);
    var at := input.observation.observed.value;
    SelectedPoints(Ats(samples), at, size, PriorAnchor(previous, input));
    hide Selected, Renewed, Current, Candidates;
    AtsPicked(samples, Selected(Ats(samples), at, size, PriorAnchor(previous, input)));
  }

  /** What the stored filter holds while it goes on with steady observations: the window of their times. */
  predicate Tracks(f: Option<Filter>, last: Input, w: Window) {
    && f.Some? && f.value.valid && f.value.scope == ScopeOf(last) && f.value.observed == last.observation.observed
    && Ats(f.value.samples) == w.times && f.value.anchor == w.anchor
  }

  /** What a fresh and newer observation makes of the filter, from the list its window is chosen from. */
  lemma TakenTracks(previous: Option<Filter>, input: Input, w: Window, cfg: Settings)
    requires FreshEvidence(input, cfg) && Accepted(previous, input, cfg)
    requires Ats(Candidates(previous, input)) == Kept(w, input.observation.observed.value).times + [input.observation.observed.value]
    requires PriorAnchor(previous, input) == Kept(w, input.observation.observed.value).anchor
    ensures Tracks(Some(Projected(previous, input, cfg)), input, Observed(w, input.observation.observed.value, cfg.size))
  {
    WindowedTimes(previous, input, cfg.size);
    hide Accepted, FreshEvidence, Candidates, PriorAnchor, Kept, Selected, Renewed, Current, Windowed, FilteredValue, AboveSince, ScopeOf;
  }

  lemma TracksBegins(f: Option<Filter>, first: Input, cfg: Settings)
    requires FreshEvidence(first, cfg) && Afresh(f, first)
    ensures Tracks(Some(Projected(f, first, cfg)), first, Observed(Empty, first.observation.observed.value, cfg.size))
  {
    hide Tracks, Projected, Observed;
    assert Ats(Candidates(f, first)) == [] + [first.observation.observed.value];
    TakenTracks(f, first, Empty, cfg);
  }

  lemma GoesOnWith(f: Option<Filter>, was: Input, input: Input, w: Window)
    requires Tracks(f, was, w) && ScopeOf(was) == ScopeOf(input)
    requires was.observation.observed.Some? && input.observation.observed.Some? && input.observation.value.Some?
    requires w.times != [] && w.times[|w.times| - 1] == was.observation.observed.value
    ensures Ats(Candidates(f, input)) == Kept(w, input.observation.observed.value).times + [input.observation.observed.value]
    ensures PriorAnchor(f, input) == Kept(w, input.observation.observed.value).anchor
  {
    hide ScopeOf;
  }

  lemma NewerIsAccepted(f: Option<Filter>, input: Input, cfg: Settings)
    requires FreshEvidence(input, cfg)
    requires f.Some? && f.value.observed.Some? ==> f.value.observed.value < input.observation.observed.value
    ensures Accepted(f, input, cfg)
  {
  }

  lemma TracksOn(f: Option<Filter>, was: Input, input: Input, w: Window, cfg: Settings)
    requires Tracks(f, was, w) && SameKind(was, input) && FreshEvidence(input, cfg)
    requires was.observation.observed.Some? && was.observation.observed.value < input.observation.observed.value
    requires w.times != [] && w.times[|w.times| - 1] == was.observation.observed.value
    ensures Tracks(Some(Projected(f, input, cfg)), input, Observed(w, input.observation.observed.value, cfg.size))
  {
    SameKindSameScope(was, input);
    NewerIsAccepted(f, input, cfg);
    GoesOnWith(f, was, input, w);
    hide Tracks, Candidates, PriorAnchor, Kept, Projected, Observed, SameKind, ScopeOf, Accepted;
    TakenTracks(f, input, w, cfg);
  }

  lemma SameKindSameScope(a: Input, b: Input)
    requires SameKind(a, b)
    ensures ScopeOf(a) == ScopeOf(b)
  {
  }

  lemma SameKindIsTransitive(a: Input, b: Input, c: Input)
    requires SameKind(a, b) && SameKind(a, c)
    ensures SameKind(b, c)
  {
  }

  lemma {:induction false} SteadyIsIncreasing(inputs: seq<Input>, cfg: Settings)
    requires Steady(inputs, cfg)
    ensures Increasing(ObservedTimes(inputs))
  {
    hide FreshEvidence, SameKind;
    SteadyIsObserved(inputs, cfg);
    if inputs != [] {
      var n := |inputs| - 1;
      SteadyIsIncreasing(inputs[..n], cfg);
      assert ObservedTimes(inputs)[..n] == ObservedTimes(inputs[..n]);
      forall i | 0 <= i < n
        ensures ObservedTimes(inputs)[i] < ObservedTimes(inputs)[n]
      {
        assert ObservedTimes(inputs[..n])[i] <= ObservedTimes(inputs[..n])[n - 1];
      }
    }
  }

  lemma SteadyIsObserved(inputs: seq<Input>, cfg: Settings)
    requires Steady(inputs, cfg)
    ensures forall i | 0 <= i < |inputs| :: inputs[i].observation.observed.Some? && inputs[i].observation.value.Some?
  {
  }

  /** The last of steady observations follows on the ones before, which are steady. */
  lemma SteadyGoesOn(inputs: seq<Input>, cfg: Settings)
    requires |inputs| > 1 && Steady(inputs, cfg)
    ensures var (before, last) := (inputs[..|inputs| - 1], inputs[|inputs| - 1]);
            && Steady(before, cfg) && FreshEvidence(last, cfg) && SameKind(before[|before| - 1], last)
            && before[|before| - 1].observation.observed.value < last.observation.observed.value
  {
    SteadyIsObserved(inputs, cfg);
    SameKindIsTransitive(inputs[0], inputs[|inputs| - 2], inputs[|inputs| - 1]);
    hide FreshEvidence, SameKind;
  }

  lemma SteadyTimesEnd(inputs: seq<Input>, cfg: Settings)
    requires inputs != [] && cfg.size > 0 && Steady(inputs, cfg)
    ensures var w := After(ObservedTimes(inputs), cfg.size);
            w.times != [] && Some(w.times[|w.times| - 1]) == inputs[|inputs| - 1].observation.observed
  {
    SteadyIsIncreasing(inputs, cfg);
    WindowIsSound(ObservedTimes(inputs), cfg.size);
    SoundEnds(After(ObservedTimes(inputs), cfg.size), ObservedTimes(inputs)[|inputs| - 1], cfg.size);
    hide After, Sound, Steady;
  }

  lemma AfterMore(inputs: seq<Input>, size: nat)
    requires inputs != [] && forall i | 0 <= i < |inputs| :: inputs[i].observation.observed.Some?
    ensures After(ObservedTimes(inputs), size)
         == Observed(After(ObservedTimes(inputs[..|inputs| - 1]), size), inputs[|inputs| - 1].observation.observed.value, size)
  {
    hide Observed;
    assert ObservedTimes(inputs)[..|inputs| - 1] == ObservedTimes(inputs[..|inputs| - 1]);
  }

  lemma SteadyBegins(f: Option<Filter>, inputs: seq<Input>, cfg: Settings)
    requires |inputs| == 1 && Steady(inputs, cfg) && Afresh(f, inputs[0])
    ensures Tracks(Some(Projected(f, inputs[0], cfg)), inputs[0], After(ObservedTimes(inputs), cfg.size))
  {
    SteadyIsObserved(inputs, cfg);
    AfterMore(inputs, cfg.size);
    TracksBegins(f, inputs[0], cfg);
    hide Projected, Observed, Tracks, FreshEvidence;
    assert ObservedTimes(inputs[..0]) == [];
  }

  /** One more observation, in what the proof of the window needs to know of it. */
  lemma SteadyStep(before: Option<Filter>, inputs: seq<Input>, cfg: Settings)
    requires |inputs| > 1 && cfg.size > 0 && Steady(inputs, cfg) && Steady(inputs[..|inputs| - 1], cfg)
    requires Tracks(before, inputs[|inputs| - 2], After(ObservedTimes(inputs[..|inputs| - 1]), cfg.size))
    ensures Tracks(Some(Projected(before, inputs[|inputs| - 1], cfg)), inputs[|inputs| - 1], After(ObservedTimes(inputs), cfg.size))
  {
    hide *;
    var was, last := inputs[..|inputs| - 1], inputs[|inputs| - 1];
    SteadyIsObserved(inputs, cfg);
    SteadyIsObserved(was, cfg);
    AfterMore(inputs, cfg.size);
    SteadyGoesOn(inputs, cfg);
    SteadyTimesEnd(was, cfg);
    TracksOn(before, was[|was| - 1], last, After(ObservedTimes(was), cfg.size), cfg);
  }

  /** Steady observations keep exactly the window of their times in the stored filter. */
  lemma {:induction false} SteadyIsTracked(f: Option<Filter>, inputs: seq<Input>, cfg: Settings)
    requires inputs != [] && cfg.size > 0 && Steady(inputs, cfg) && Afresh(f, inputs[0])
    ensures Tracks(Fed(f, inputs, cfg), inputs[|inputs| - 1], After(ObservedTimes(inputs), cfg.size))
  {
    hide Projected, Tracks, Steady, ObservedTimes, After, Afresh, SameKind, FreshEvidence;
    var n := |inputs| - 1;
    if n == 0 {
      SteadyBegins(f, inputs, cfg);
    } else {
      SteadyGoesOn(inputs, cfg);
      SteadyIsTracked(f, inputs[..n], cfg);
      SteadyStep(Fed(f, inputs[..n], cfg), inputs, cfg);
    }
  }

  lemma SoundEnds(w: Window, now: int, size: nat)
    requires Sound(w, now, size)
    ensures w.times != [] && w.times[|w.times| - 1] == now
  {
  }

  function LastValues(inputs: seq<Input>, size: nat): seq<real>
    requires forall i | 0 <= i < |inputs| :: inputs[i].observation.value.Some?
  {
    LastOnes(seq(|inputs|, i requires 0 <= i < |inputs| => inputs[i].observation.value.value), size)
  }

  function SampleOf(input: Input): Sample
    requires input.observation.observed.Some? && input.observation.value.Some?
  {
    Sample(input.observation.observed.value, input.observation.value.value)
  }

  predicate AllFrom(samples: seq<Sample>, inputs: seq<Input>) {
    forall k | 0 <= k < |samples| :: FromOne(samples[k], inputs)
  }

  predicate FromOne(s: Sample, inputs: seq<Input>) {
    exists i | 0 <= i < |inputs| :: IsSampleOf(s, inputs[i])
  }

  predicate IsSampleOf(s: Sample, input: Input) {
    input.observation.observed == Some(s.at) && input.observation.value == Some(s.value)
  }

  lemma FromOneMore(s: Sample, inputs: seq<Input>)
    requires inputs != [] && FromOne(s, inputs[..|inputs| - 1])
    ensures FromOne(s, inputs)
  {
    hide IsSampleOf;
    var i :| 0 <= i < |inputs| - 1 && IsSampleOf(s, inputs[..|inputs| - 1][i]);
    assert IsSampleOf(s, inputs[i]);
  }

  lemma {:induction false} SteadySamplesAreFed(f: Option<Filter>, inputs: seq<Input>, cfg: Settings)
    requires inputs != [] && Steady(inputs, cfg) && Afresh(f, inputs[0])
    ensures Fed(f, inputs, cfg).Some? && AllFrom(Fed(f, inputs, cfg).value.samples, inputs)
  {
    hide Windowed, FromOne;
    var n := |inputs| - 1;
    var before := Fed(f, inputs[..n], cfg);
    var next := Projected(before, inputs[n], cfg);
    if n > 0 {
      SteadySamplesAreFed(f, inputs[..n], cfg);
    }
    forall k | 0 <= k < |next.samples|
      ensures FromOne(next.samples[k], inputs)
    {
      OneSampleIsFed(before, inputs, cfg, k);
    }
  }

  lemma OneSampleIsFed(before: Option<Filter>, inputs: seq<Input>, cfg: Settings, k: nat)
    requires inputs != [] && k < |Projected(before, inputs[|inputs| - 1], cfg).samples|
    requires inputs[|inputs| - 1].observation.observed.Some?
    requires |inputs| == 1 ==> Afresh(before, inputs[0])
    requires |inputs| > 1 ==> before.Some? && AllFrom(before.value.samples, inputs[..|inputs| - 1])
    ensures FromOne(Projected(before, inputs[|inputs| - 1], cfg).samples[k], inputs)
  {
    var n := |inputs| - 1;
    var next := Projected(before, inputs[n], cfg);
    FreshOrOld(before, inputs[n], cfg, k);
    hide Projected, FromOne;
    if next.samples[k] == SampleOf(inputs[n]) {
      LastIsFrom(inputs);
    } else {
      var j :| 0 <= j < |before.value.samples| && before.value.samples[j] == next.samples[k];
      FromOneMore(next.samples[k], inputs);
    }
  }

  lemma LastIsFrom(inputs: seq<Input>)
    requires inputs != [] && inputs[|inputs| - 1].observation.observed.Some? && inputs[|inputs| - 1].observation.value.Some?
    ensures FromOne(SampleOf(inputs[|inputs| - 1]), inputs)
  {
    assert IsSampleOf(SampleOf(inputs[|inputs| - 1]), inputs[|inputs| - 1]);
  }

  lemma FreshOrOld(previous: Option<Filter>, input: Input, cfg: Settings, k: nat)
    requires k < |Projected(previous, input, cfg).samples| && input.observation.observed.Some?
    ensures input.observation.value.Some?
    ensures var s := Projected(previous, input, cfg).samples[k];
            s == SampleOf(input) || (previous.Some? && s in previous.value.samples && !Afresh(previous, input))
  {
    SamplesAreOldOrNew(previous, input, cfg, k);
    var samples := Candidates(previous, input);
    SelectedPoints(Ats(samples), input.observation.observed.value, cfg.size, PriorAnchor(previous, input));
    hide Selected, Median, Values;
    assert Projected(previous, input, cfg).samples[k] in samples;
  }

  /** Samples from steady observations, in the order of some of their last times, are those observations' samples. */
  lemma SamplesAreDetermined(samples: seq<Sample>, inputs: seq<Input>, size: nat, cfg: Settings)
    requires Steady(inputs, cfg) && AllFrom(samples, inputs) && Ats(samples) == LastOnes(ObservedTimes(inputs), size)
    ensures Values(samples) == LastValues(inputs, size)
  {
    hide Steady;
    SteadyIsObserved(inputs, cfg);
    SteadyIsIncreasing(inputs, cfg);
    var first := |inputs| - |samples|;
    forall k | 0 <= k < |samples|
      ensures samples[k].value == inputs[first + k].observation.value.value
    {
      assert FromOne(samples[k], inputs);
      var i :| 0 <= i < |inputs| && IsSampleOf(samples[k], inputs[i]);
      assert Ats(samples)[k] == ObservedTimes(inputs)[first + k];
      assert ObservedTimes(inputs)[i] == ObservedTimes(inputs)[first + k];
    }
  }

  lemma SteadyWindowIsLast(f: Option<Filter>, inputs: seq<Input>, cfg: Settings)
    requires |inputs| >= cfg.size >= 2 && Steady(inputs, cfg) && Afresh(f, inputs[0]) && Paced(ObservedTimes(inputs), cfg.size)
    ensures var g := Fed(f, inputs, cfg);
            g.Some? && g.value.valid && Ats(g.value.samples) == LastOnes(ObservedTimes(inputs), cfg.size)
  {
    hide Steady, Afresh, Paced, Fed, After, ObservedTimes, LastOnes;
    SteadyIsObserved(inputs, cfg);
    SteadyIsTracked(f, inputs, cfg);
    WindowFillsAndStaysFull(ObservedTimes(inputs), cfg.size);
  }

  lemma LastValuesAreFull(inputs: seq<Input>, size: nat)
    requires |inputs| >= size && forall i | 0 <= i < |inputs| :: inputs[i].observation.value.Some?
    ensures |LastValues(inputs, size)| == size
  {
  }

  lemma FedIsProjected(f: Option<Filter>, inputs: seq<Input>, cfg: Settings)
    requires inputs != []
    ensures Fed(f, inputs, cfg) == Some(Projected(Fed(f, inputs[..|inputs| - 1], cfg), inputs[|inputs| - 1], cfg))
  {
    hide Projected;
  }

  /** A full window makes the filter ready as soon as it has a value. */
  lemma FullIsReady(previous: Option<Filter>, input: Input, cfg: Settings)
    requires cfg.size > 0 && Projected(previous, input, cfg).valid && |Values(Projected(previous, input, cfg).samples)| == cfg.size
    ensures var f := Projected(previous, input, cfg);
            && f.value == (if input.observation.source == HeightSections then input.heightMedian else Some(Median(Values(f.samples))))
            && (f.value.Some? ==> f.state == Ready)
  {
    hide Windowed, Median;
  }

  /**
   * Fresh observations of one kind at a steady pace make the filter ready with the `size`-th and keep it so: its
   * window is exactly the newest `size` of them and its value their median, or the median the height path brings.
   */
  lemma SteadyObservationsMakeReady(history: seq<Step>, inputs: seq<Input>, cfg: Settings)
    requires |inputs| >= cfg.size >= 2 && Steady(inputs, cfg) && Afresh(Stored(history, cfg), inputs[0])
    requires Paced(ObservedTimes(inputs), cfg.size)
    ensures var f := Stored(history + Observes(inputs), cfg);
            && f.Some? && f.value.valid && Values(f.value.samples) == LastValues(inputs, cfg.size)
            && |LastValues(inputs, cfg.size)| == cfg.size
            && f.value.value == (if inputs[|inputs| - 1].observation.source == HeightSections
                                 then inputs[|inputs| - 1].heightMedian else Some(Median(LastValues(inputs, cfg.size))))
            && (f.value.value.Some? ==> f.value.state == Ready)
  {
    hide *;
    var f := Fed(Stored(history, cfg), inputs, cfg);
    FedIsStored(history, inputs, cfg);
    SteadyIsObserved(inputs, cfg);
    SteadyWindowIsLast(Stored(history, cfg), inputs, cfg);
    SteadySamplesAreFed(Stored(history, cfg), inputs, cfg);
    SamplesAreDetermined(f.value.samples, inputs, cfg.size, cfg);
    LastValuesAreFull(inputs, cfg.size);
    FedIsProjected(Stored(history, cfg), inputs, cfg);
    FullIsReady(Fed(Stored(history, cfg), inputs[..|inputs| - 1], cfg), inputs[|inputs| - 1], cfg);
  }
}
