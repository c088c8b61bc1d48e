/** What the stored fill filter means after any run of observations and status reports. */
module FillFilterRuns {
  import opened Basics
  import opened ObservationWindow
  import opened StoredFilter
  import opened FillFilter

  datatype Step = Observe(input: Input) | Replaced(report: Report, heightFill: bool) | Unassigned

  function Applied(payload: Option<Filter>, step: Step, cfg: Settings): Option<Filter> {
    match step
    case Observe(input) => Some(Projected(payload, input, cfg))
    case Replaced(report, heightFill) => if Survives(payload, report, heightFill, cfg) then payload else None
    case Unassigned => None
  }

  function Last(trail: seq<Option<Filter>>): Option<Filter> {
    if trail == [] then None else trail[|trail| - 1]
  }

  /** The stored filter after each observation or erasure; a report the filter survives adds nothing. */
  function Trail(history: seq<Step>, cfg: Settings): seq<Option<Filter>> {
    if history == [] then []
    else
      var n := |history| - 1;
      var trail := Trail(history[..n], cfg);
      var next := Applied(Last(trail), history[n], cfg);
      if history[n].Observe? || next.None? then trail + [next] else trail
  }

  /** The stored filter after a run. */
  function Stored(history: seq<Step>, cfg: Settings): Option<Filter> {
    if history == [] then None else Applied(Stored(history[..|history| - 1], cfg), history[|history| - 1], cfg)
  }

  lemma {:induction false} TrailEndsStored(history: seq<Step>, cfg: Settings)
    ensures Last(Trail(history, cfg)) == Stored(history, cfg)
  {
    hide Projected, Survives;
    if history != [] {
      TrailEndsStored(history[..|history| - 1], cfg);
    }
  }

  // ---- Streaks of observations ----

  predicate Follows(a: Option<Filter>, b: Option<Filter>) {
    && a.Some? && b.Some? && a.value.scope == b.value.scope
    && a.value.observed.Some? && b.value.observed.Some?
    && 0 < b.value.observed.value - a.value.observed.value <= BREAK
  }

  predicate Chained(trail: seq<Option<Filter>>, k: nat) {
    k < |trail| && forall t | k < t < |trail| :: Follows(trail[t - 1], trail[t])
  }

  predicate Good(f: Option<Filter>) { f.Some? && f.value.valid && f.value.state != Unavailable && f.value.observed.Some? }

  predicate Above(f: Option<Filter>) {
    Good(f) && f.value.state == Ready && f.value.value.Some? && f.value.value.value >= f.value.scope.threshold
  }

  /** Every projection from position k on was accepted, in one scope, without a pause. */
  predicate Unbroken(trail: seq<Option<Filter>>, k: nat) {
    Chained(trail, k) && forall t | k <= t < |trail| :: Good(trail[t])
  }

  /** ... and was ready and at or above the threshold. */
  predicate AboveFrom(trail: seq<Option<Filter>>, k: nat) {
    Chained(trail, k) && forall t | k <= t < |trail| :: Above(trail[t])
  }

  predicate AboveFromTime(trail: seq<Option<Filter>>, k: nat, at: int) {
    AboveFrom(trail, k) && trail[k].value.observed == Some(at)
  }

  /** A filter shape every projection has. */
  predicate Shaped(f: Filter, size: nat) {
    && (f.state == Unavailable <==> f.samples == []) && (f.state == Unavailable <==> !f.valid)
    && (f.state == Ready <==> f.value.Some?)
    && (f.state != Unavailable ==> f.observed.Some?)
    && (f.state == Ready ==> |f.samples| == size)
    && (f.state != Unavailable ==>
          f.anchor.Some? && Sound(Window(Ats(f.samples), f.anchor), f.observed.value, size))
    && (f.aboveSince.Some? ==> Above(Some(f)) && f.aboveSince.value <= f.observed.value)
  }

  lemma {:induction false} SoundIsIncreasing(w: Window, now: int, size: nat)
    requires Sound(w, now, size)
    ensures Increasing(w.times) && w.times[|w.times| - 1] == now
  {
    SpreadIncreases(w.times, w.anchor.value);
  }

  /** The list an accepted observation is selected from is increasing and ends with it. */
  lemma CandidatesIncrease(previous: Option<Filter>, input: Input, cfg: Settings)
    requires cfg.size > 0 && Accepted(previous, input, cfg)
    requires previous.Some? ==> Shaped(previous.value, cfg.size)
    ensures Increasing(Ats(Candidates(previous, input)))
    ensures Ats(Candidates(previous, input))[|Candidates(previous, input)| - 1] == input.observation.observed.value
  {
    hide Sound, Increasing;
    var before := if Continuing(previous, input) then previous.value.samples else [];
    var at := input.observation.observed.value;
    assert Ats(Candidates(previous, input)) == Ats(before) + [at];
    if before != [] {
      SoundIsIncreasing(Window(Ats(before), previous.value.anchor), previous.value.observed.value, cfg.size);
    }
    AppendIncreases(Ats(before), at);
  }

  lemma AppendIncreases(times: seq<int>, at: int)
    requires times != [] ==> Increasing(times) && times[|times| - 1] < at
    ensures Increasing(times + [at])
  {
  }

  lemma WindowedIsSound(previous: Option<Filter>, input: Input, cfg: Settings)
    requires cfg.size > 0 && Accepted(previous, input, cfg)
    requires previous.Some? ==> Shaped(previous.value, cfg.size)
    ensures Windowed(previous, input, cfg.size).1.Some?
    ensures Sound(Window(Ats(Windowed(previous, input, cfg.size).0), Windowed(previous, input, cfg.size).1),
                  input.observation.observed.value, cfg.size)
  {
    CandidatesIncrease(previous, input, cfg);
    hide Sound, Increasing, Selected, Renewed, Current, Accepted, Shaped, Candidates, PriorAnchor;
    var samples := Candidates(previous, input);
    var now := input.observation.observed.value;
    var anchor := PriorAnchor(previous, input);
    ChosenAreSound(Ats(samples), now, cfg.size, anchor);
    SelectedPoints(Ats(samples), now, cfg.size, anchor);
    AtsPicked(samples, Selected(Ats(samples), now, cfg.size, anchor));
  }

  lemma AtsPicked(samples: seq<Sample>, items: seq<Item>)
    requires Points(items, Ats(samples))
    ensures Ats(Picked(samples, items)) == Times(items)
  {
  }

  lemma {:induction false} ProjectedIsShaped(previous: Option<Filter>, input: Input, cfg: Settings)
    requires cfg.size > 0 && (previous.Some? ==> Shaped(previous.value, cfg.size))
    ensures Shaped(Projected(previous, input, cfg), cfg.size)
  {
    if Accepted(previous, input, cfg) {
      WindowedIsSound(previous, input, cfg);
    }
    hide Windowed, Median, Values;
  }

  /** A ready projection always goes on from an accepted one: in its scope, newer, without a pause. */
  lemma ReadyFollows(previous: Option<Filter>, input: Input, cfg: Settings)
    requires cfg.size >= 2 && (previous.Some? ==> Shaped(previous.value, cfg.size))
    requires |Projected(previous, input, cfg).samples| > 1
    ensures Follows(previous, Some(Projected(previous, input, cfg)))
    ensures Good(previous)
  {
    var samples := Candidates(previous, input);
    SelectedPoints(Ats(samples), input.observation.observed.value, cfg.size, PriorAnchor(previous, input));
    hide Selected, Sound;
  }

  predicate AllShaped(trail: seq<Option<Filter>>, size: nat) {
    forall t | 0 <= t < |trail| && trail[t].Some? :: Shaped(trail[t].value, size)
  }

  lemma {:induction false} TrailIsShaped(history: seq<Step>, cfg: Settings)
    requires cfg.size > 0
    ensures AllShaped(Trail(history, cfg), cfg.size)
  {
    hide Projected, Shaped, Survives;
    if history != [] {
      var n := |history| - 1;
      TrailIsShaped(history[..n], cfg);
      if history[n].Observe? {
        ProjectedIsShaped(Last(Trail(history[..n], cfg)), history[n].input, cfg);
      }
    }
  }

  lemma ChainExtends(trail: seq<Option<Filter>>, k: nat, next: Option<Filter>)
    requires Chained(trail, k) && Follows(Last(trail), next)
    ensures Chained(trail + [next], k)
  {
    hide Follows;
    var longer := trail + [next];
    forall t | k < t < |longer|
      ensures Follows(longer[t - 1], longer[t])
    {
      assert t < |trail| ==> Follows(trail[t - 1], trail[t]);
    }
  }

  lemma AboveExtends(trail: seq<Option<Filter>>, k: nat, at: int, next: Option<Filter>)
    requires AboveFromTime(trail, k, at) && Follows(Last(trail), next) && Above(next)
    ensures AboveFromTime(trail + [next], k, at)
  {
    hide Follows, Above;
    ChainExtends(trail, k, next);
  }

  lemma UnbrokenExtends(trail: seq<Option<Filter>>, k: nat, next: Option<Filter>)
    requires Unbroken(trail, k) && Follows(Last(trail), next) && Good(next)
    ensures Unbroken(trail + [next], k)
  {
    hide Follows, Good;
    ChainExtends(trail, k, next);
  }

  // ---- What the timer means ----

  predicate TimerIsBacked(trail: seq<Option<Filter>>) {
    Last(trail).Some? && Last(trail).value.aboveSince.Some? ==>
      exists k | 0 <= k < |trail| :: AboveFromTime(trail, k, Last(trail).value.aboveSince.value)
  }

  lemma BackedExtends(trail: seq<Option<Filter>>, input: Input, cfg: Settings)
    requires cfg.size >= 2 && AllShaped(trail, cfg.size) && TimerIsBacked(trail)
    ensures TimerIsBacked(trail + [Some(Projected(Last(trail), input, cfg))])
  {
    hide Follows, Sound, Windowed, AboveFromTime;
    var previous := Last(trail);
    var next := Projected(previous, input, cfg);
    ProjectedIsShaped(previous, input, cfg);
    if next.aboveSince.Some? {
      if next.aboveSince == input.observation.observed {
        AboveBegins(trail, Some(next));
      } else {
        ReadyFollows(previous, input, cfg);
        var k :| 0 <= k < |trail| && AboveFromTime(trail, k, previous.value.aboveSince.value);
        AboveExtends(trail, k, next.aboveSince.value, Some(next));
      }
    }
  }

  lemma AboveBegins(trail: seq<Option<Filter>>, next: Option<Filter>)
    requires Above(next)
    ensures AboveFromTime(trail + [next], |trail|, next.value.observed.value)
  {
  }

  /**
   * Whenever the stored filter carries a time since which it has been above its threshold,
   * every projection from the one observed at that time up to the last one was ready, at or above
   * the threshold, in the same scope and within a second and a half of the one before.
   */
  lemma {:induction false} AboveSinceIsBacked(history: seq<Step>, cfg: Settings)
    requires cfg.size >= 2
    ensures TimerIsBacked(Trail(history, cfg))
  {
    hide Projected, TimerIsBacked, Survives;
    if history != [] {
      var n := |history| - 1;
      var trail := Trail(history[..n], cfg);
      AboveSinceIsBacked(history[..n], cfg);
      TrailIsShaped(history[..n], cfg);
      if history[n].Observe? {
        BackedExtends(trail, history[n].input, cfg);
      } else {
        assert TimerIsBacked(trail + [None]) by { NoTimer(trail); }
      }
    } else {
      NoTimerYet();
    }
  }

  lemma NoTimer(trail: seq<Option<Filter>>)
    ensures TimerIsBacked(trail + [None])
  {
  }

  lemma NoTimerYet()
    ensures TimerIsBacked([])
  {
  }

  predicate CoveredAt(trail: seq<Option<Filter>>, k: nat) {
    && k < |trail| && Last(trail).Some? && trail[k].Some? && trail[k].value.observed.Some?
    && Last(trail).value.aboveSince.Some? && Last(trail).value.aboveSince.value <= trail[k].value.observed.value
  }

  predicate TimerCovers(trail: seq<Option<Filter>>) {
    forall k | 0 <= k < |trail| && AboveFrom(trail, k) :: CoveredAt(trail, k)
  }

  lemma AboveShortens(trail: seq<Option<Filter>>, k: nat, next: Option<Filter>)
    requires AboveFrom(trail + [next], k)
    ensures Above(next) && Above((trail + [next])[k])
    ensures k < |trail| ==> AboveFrom(trail, k) && Follows(Last(trail), next)
  {
    hide Follows, Above;
    var longer := trail + [next];
    assert longer[|trail|] == next && Above(longer[k]);
    assert k < |trail| ==> Follows(longer[|trail| - 1], longer[|trail|]);
    forall t | k < t < |trail|
      ensures Follows(trail[t - 1], trail[t])
    {
      assert Follows(longer[t - 1], longer[t]);
    }
    forall t | k <= t < |trail|
      ensures Above(trail[t])
    {
      assert Above(longer[t]);
    }
  }

  lemma CoversExtends(trail: seq<Option<Filter>>, input: Input, cfg: Settings)
    requires cfg.size >= 2 && AllShaped(trail, cfg.size) && TimerCovers(trail)
    ensures TimerCovers(trail + [Some(Projected(Last(trail), input, cfg))])
  {
    hide Sound, Windowed, AboveFrom;
    var previous := Last(trail);
    var next := Projected(previous, input, cfg);
    ProjectedIsShaped(previous, input, cfg);
    var longer := trail + [Some(next)];
    forall k | 0 <= k < |longer| && AboveFrom(longer, k)
      ensures CoveredAt(longer, k)
    {
      AboveShortens(trail, k, Some(next));
      assert k < |trail| ==> CoveredAt(trail, k);
    }
  }

  /** The timer starts as early as it may: it covers every such stretch that ends with the last projection. */
  lemma {:induction false} AboveSinceCovers(history: seq<Step>, cfg: Settings)
    requires cfg.size >= 2
    ensures TimerCovers(Trail(history, cfg))
  {
    hide Projected, TimerCovers, Survives;
    if history != [] {
      var n := |history| - 1;
      var trail := Trail(history[..n], cfg);
      AboveSinceCovers(history[..n], cfg);
      TrailIsShaped(history[..n], cfg);
      if history[n].Observe? {
        CoversExtends(trail, history[n].input, cfg);
      } else {
        assert TimerCovers(trail + [None]) by { NothingAbove(trail); }
      }
    } else {
      NothingYet();
    }
  }

  lemma NothingAbove(trail: seq<Option<Filter>>)
    ensures TimerCovers(trail + [None])
  {
    forall k | 0 <= k <= |trail|
      ensures !AboveFrom(trail + [None], k)
    {
      assert !Above((trail + [None])[|trail|]);
    }
  }

  lemma NothingYet()
    ensures TimerCovers([])
  {
  }

  // ---- What a ready filter is made of ----

  /** A sample is the newest one of an accepted projection from which the streak is unbroken. */
  predicate TakenAt(trail: seq<Option<Filter>>, k: nat, sample: Sample) {
    && k < |trail| && Unbroken(trail, k)
    && trail[k].value.samples != [] && trail[k].value.samples[|trail[k].value.samples| - 1] == sample
  }

  predicate Taken(trail: seq<Option<Filter>>, sample: Sample) {
    exists k | 0 <= k < |trail| :: TakenAt(trail, k, sample)
  }

  predicate Sourced(trail: seq<Option<Filter>>) {
    Last(trail).Some? ==> forall i | 0 <= i < |Last(trail).value.samples| :: Taken(trail, Last(trail).value.samples[i])
  }

  /** The newest sample is the accepted observation, and the others were samples before it. */
  lemma SamplesComeFrom(previous: Option<Filter>, input: Input, cfg: Settings)
    requires cfg.size > 0 && Accepted(previous, input, cfg)
    requires previous.Some? ==> Shaped(previous.value, cfg.size)
    ensures var samples := Windowed(previous, input, cfg.size).0;
            samples != [] && samples[|samples| - 1] == Sample(input.observation.observed.value, input.observation.value.value)
            && forall i | 0 <= i < |samples| - 1 :: Continuing(previous, input) && samples[i] in previous.value.samples
  {
    CandidatesIncrease(previous, input, cfg);
    WindowedIsSound(previous, input, cfg);
    var candidates := Candidates(previous, input);
    var now := input.observation.observed.value;
    var anchor := PriorAnchor(previous, input);
    var samples := Windowed(previous, input, cfg.size).0;
    SelectedPoints(Ats(candidates), now, cfg.size, anchor);
    SoundIsIncreasing(Window(Ats(samples), Windowed(previous, input, cfg.size).1), now, cfg.size);
    hide Selected, Renewed, Current, Accepted, Shaped, Sound;
    PickedFrom(candidates, Selected(Ats(candidates), now, cfg.size, anchor));
  }

  /** In an increasing list the sample with the last time is the last one, and earlier times are earlier samples. */
  lemma PickedFrom(candidates: seq<Sample>, items: seq<Item>)
    requires candidates != [] && items != [] && Points(items, Ats(candidates))
    requires Increasing(Ats(candidates)) && Increasing(Ats(Picked(candidates, items)))
    requires items[|items| - 1].at == candidates[|candidates| - 1].at
    ensures var samples := Picked(candidates, items);
            samples[|samples| - 1] == candidates[|candidates| - 1]
            && forall i | 0 <= i < |samples| - 1 :: samples[i] in candidates[..|candidates| - 1]
  {
    var samples := Picked(candidates, items);
    var n := |candidates| - 1;
    forall i | 0 <= i < |samples|
      ensures samples[i] == candidates[items[i].index] && (items[i].at == candidates[n].at <==> items[i].index == n)
    {
      assert Ats(candidates)[items[i].index] == items[i].at;
      assert items[i].index < n ==> Ats(candidates)[items[i].index] < Ats(candidates)[n];
    }
    forall i | 0 <= i < |samples| - 1
      ensures samples[i] in candidates[..n]
    {
      assert Ats(samples)[i] < Ats(samples)[|samples| - 1];
      assert candidates[..n][items[i].index] == samples[i];
    }
  }

  lemma TakenExtends(trail: seq<Option<Filter>>, sample: Sample, next: Option<Filter>)
    requires Taken(trail, sample) && Follows(Last(trail), next) && Good(next)
    ensures Taken(trail + [next], sample)
  {
    hide Unbroken;
    var k :| 0 <= k < |trail| && TakenAt(trail, k, sample);
    UnbrokenExtends(trail, k, next);
    assert TakenAt(trail + [next], k, sample);
  }

  lemma TakenNow(trail: seq<Option<Filter>>, next: Option<Filter>)
    requires Good(next) && next.value.samples != []
    ensures Taken(trail + [next], next.value.samples[|next.value.samples| - 1])
  {
    assert TakenAt(trail + [next], |trail|, next.value.samples[|next.value.samples| - 1]);
  }

  lemma OlderAreTaken(trail: seq<Option<Filter>>, next: Option<Filter>, i: nat)
    requires Last(trail).Some? && next.Some? && Sourced(trail)
    requires Follows(Last(trail), next) && Good(next)
    requires i < |next.value.samples| && next.value.samples[i] in Last(trail).value.samples
    ensures Taken(trail + [next], next.value.samples[i])
  {
    hide Taken, Follows, Good;
    var kept := Last(trail).value.samples;
    var j :| 0 <= j < |kept| && kept[j] == next.value.samples[i];
    TakenExtends(trail, kept[j], next);
  }

  lemma SourcedExtends(trail: seq<Option<Filter>>, input: Input, cfg: Settings)
    requires cfg.size >= 2 && AllShaped(trail, cfg.size) && Sourced(trail)
    ensures Sourced(trail + [Some(Projected(Last(trail), input, cfg))])
  {
    hide Sound, Windowed, Taken, Follows;
    var previous := Last(trail);
    var next := Projected(previous, input, cfg);
    ProjectedIsShaped(previous, input, cfg);
    if Accepted(previous, input, cfg) {
      SamplesComeFrom(previous, input, cfg);
      TakenNow(trail, Some(next));
      if |next.samples| > 1 {
        ReadyFollows(previous, input, cfg);
      }
      forall i | 0 <= i < |next.samples| - 1
        ensures Taken(trail + [Some(next)], next.samples[i])
      {
        OlderAreTaken(trail, Some(next), i);
      }
    }
  }

  /** Every stored sample was taken by an accepted projection, and nothing was rejected or paused since. */
  lemma {:induction false} SamplesAreTaken(history: seq<Step>, cfg: Settings)
    requires cfg.size >= 2
    ensures Sourced(Trail(history, cfg))
  {
    hide Projected, Survives, Taken;
    if history != [] {
      var n := |history| - 1;
      var trail := Trail(history[..n], cfg);
      SamplesAreTaken(history[..n], cfg);
      TrailIsShaped(history[..n], cfg);
      if history[n].Observe? {
        SourcedExtends(trail, history[n].input, cfg);
      }
    }
  }

  /**
   * A ready filter rests on a full window: `size` samples in different slots, spanning more than
   * size - 2 and less than `size` seconds up to the stored observation, each the newest sample of
   * an accepted projection since which nothing was rejected, out of scope or paused.
   */
  lemma {:induction false} ReadyMeansFullWindow(history: seq<Step>, cfg: Settings)
    requires cfg.size >= 2 && Stored(history, cfg).Some? && Stored(history, cfg).value.state == Ready
    ensures var f := Stored(history, cfg).value;
            && |f.samples| == cfg.size && f.observed.Some? && f.samples[cfg.size - 1].at == f.observed.value
            && (cfg.size - 2) * SECOND < f.observed.value - f.samples[0].at < cfg.size * SECOND
            && forall i | 0 <= i < cfg.size :: Taken(Trail(history, cfg), f.samples[i])
  {
    hide Trail, Stored, Taken;
    TrailEndsStored(history, cfg);
    TrailIsShaped(history, cfg);
    SamplesAreTaken(history, cfg);
    var trail := Trail(history, cfg);
    var f := Last(trail).value;
    assert Shaped(f, cfg.size);
    var w := Window(Ats(f.samples), f.anchor);
    SamplesAreApart(w, f.observed.value, cfg.size, 0, cfg.size - 1);
    assert Young(w.times[0], f.observed.value, cfg.size);
  }

  /** An edge-state projection at or above its threshold has a majority of its window there. */
  lemma AboveMeansMajority(previous: Option<Filter>, input: Input, cfg: Settings)
    requires cfg.size % 2 == 1 && input.observation.source == EdgeState
    requires Projected(previous, input, cfg).state == Ready
    ensures var f := Projected(previous, input, cfg);
            f.value.value >= input.threshold <==> 2 * AtLeast(Values(f.samples), input.threshold) > cfg.size
  {
    hide Windowed, Median, AtLeast;
    MedianIsMajority(Values(Projected(previous, input, cfg).samples), input.threshold);
  }

  // ---- Repeated observations ----

  /** The newest observation time stored since the filter was last erased. */
  function Highest(trail: seq<Option<Filter>>): Option<int> {
    if trail == [] || Last(trail).None? then None
    else
      var before := Highest(trail[..|trail| - 1]);
      var last := Last(trail).value.observed;
      if before.None? then last else if last.None? then before else Some(MaxInt(before.value, last.value))
  }

  /** Newer than everything stored since position `from`. */
  predicate NewerThanAll(trail: seq<Option<Filter>>, from: nat, at: int) {
    forall t | from <= t < |trail| && trail[t].Some? && trail[t].value.observed.Some? :: trail[t].value.observed.value < at
  }

  function ErasedAt(trail: seq<Option<Filter>>): (from: nat)
    ensures from <= |trail|
  {
    if trail == [] || Last(trail).None? then |trail| else ErasedAt(trail[..|trail| - 1])
  }

  lemma {:induction false} HighestIsNewest(trail: seq<Option<Filter>>, at: int)
    ensures NewerThanAll(trail, ErasedAt(trail), at) <==> (Highest(trail).Some? ==> Highest(trail).value < at)
  {
    if trail != [] && Last(trail).Some? {
      var before := trail[..|trail| - 1];
      HighestIsNewest(before, at);
      assert trail == before + [Last(trail)];
      assert NewerThanAll(trail, ErasedAt(trail), at)
        <==> NewerThanAll(before, ErasedAt(trail), at) && (Last(trail).value.observed.Some? ==> Last(trail).value.observed.value < at);
    }
  }

  /** An observation that is not newer than the stored one is rejected, empties the window and moves the stored time back. */
  lemma OldObservationEmptiesWindow(previous: Filter, input: Input, cfg: Settings)
    requires Trusted(input, cfg) && previous.observed.Some?
    requires input.observation.observed.value <= previous.observed.value
    ensures var f := Projected(Some(previous), input, cfg);
            && !f.valid && f.state == Unavailable && f.samples == [] && f.value.None? && f.aboveSince.None?
            && f.observed == input.observation.observed
    ensures forall next | Trusted(next, cfg) && input.observation.observed.value < next.observation.observed.value ::
              var after := Projected(Some(Projected(Some(previous), input, cfg)), next, cfg);
              after.valid && |after.samples| <= 1
  {
    var f := Projected(Some(previous), input, cfg);
    forall next | Trusted(next, cfg) && input.observation.observed.value < next.observation.observed.value
      ensures Projected(Some(f), next, cfg).valid && |Projected(Some(f), next, cfg).samples| <= 1
    {
      AfterEmptyIsSingle(f, next, cfg);
    }
  }

  lemma AfterEmptyIsSingle(f: Filter, next: Input, cfg: Settings)
    requires f.samples == [] && Accepted(Some(f), next, cfg)
    ensures |Projected(Some(f), next, cfg).samples| <= 1
  {
    var samples := Candidates(Some(f), next);
    SelectedPoints(Ats(samples), next.observation.observed.value, cfg.size, PriorAnchor(Some(f), next));
  }

  // ---- When an old observation can become a new sample ----

  /** Whatever trusted observation is taken next is newer than everything stored since the last erasure. */
  ghost predicate NextIsNew(trail: seq<Option<Filter>>, cfg: Settings) {
    forall input | Trusted(input, cfg) && Accepted(Last(trail), input, cfg) ::
      NewerThanAll(trail, ErasedAt(trail), input.observation.observed.value)
  }

  /** The stored time is behind the newest one stored since the last erasure. */
  predicate Behind(trail: seq<Option<Filter>>) {
    Highest(trail).Some? && Last(trail).Some? && Last(trail).value.observed != Highest(trail)
  }

  /** A trusted observation at a given time. */
  function ObservedAt(at: int): Input {
    Input(Observation(EdgeState, 0, 0, None, None, 0, at, Some(at), Some(0.0)), at, Device(true, true, Some(Identity(0, 0))), None, 0.0, None)
  }

  /** Only observations newer than everything since the erasure are taken next exactly when the stored time is not behind. */
  lemma NextIsNewIff(trail: seq<Option<Filter>>, cfg: Settings)
    requires cfg.ttl > 0
    ensures NextIsNew(trail, cfg) <==> !Behind(trail)
  {
    if Behind(trail) {
      var input := ObservedAt(Highest(trail).value);
      HighestIsNewest(trail, Highest(trail).value);
      assert Trusted(input, cfg) && Accepted(Last(trail), input, cfg);
    } else {
      forall input | Trusted(input, cfg) && Accepted(Last(trail), input, cfg)
        ensures NewerThanAll(trail, ErasedAt(trail), input.observation.observed.value)
      {
        HighestIsNewest(trail, input.observation.observed.value);
      }
    }
  }

  /** A projection with no time, or with one below the newest since the last erasure. */
  predicate Below(trail: seq<Option<Filter>>, u: nat) {
    && u < |trail| && trail[u].Some? && Highest(trail[..u]).Some?
    && (trail[u].value.observed.Some? ==> trail[u].value.observed.value < Highest(trail[..u]).value)
  }

  /** A rejected projection below the newest time, with which no projection has caught up since. */
  predicate FellBehind(trail: seq<Option<Filter>>, t: nat) {
    t < |trail| && Below(trail, t) && !trail[t].value.valid && forall u | t < u < |trail| :: Below(trail, u)
  }

  /** Every accepted projection is newer than the one stored before it. */
  predicate Guarded(trail: seq<Option<Filter>>) {
    forall u | 0 < u < |trail| :: GuardedAt(trail[u - 1], trail[u])
  }

  predicate GuardedAt(before: Option<Filter>, after: Option<Filter>) {
    before.Some? && after.Some? && after.value.valid && before.value.observed.Some? ==>
      after.value.observed.Some? && before.value.observed.value < after.value.observed.value
  }

  lemma {:induction false} TrailIsGuarded(history: seq<Step>, cfg: Settings)
    ensures Guarded(Trail(history, cfg))
  {
    hide Windowed, Survives;
    if history != [] {
      TrailIsGuarded(history[..|history| - 1], cfg);
    }
  }

  lemma BelowInPrefix(trail: seq<Option<Filter>>, next: Option<Filter>, u: nat)
    requires u < |trail|
    ensures Below(trail + [next], u) == Below(trail, u)
  {
    assert (trail + [next])[..u] == trail[..u];
  }

  /** One more projection falls behind, stays behind or catches up. */
  lemma BehindStep(trail: seq<Option<Filter>>, next: Option<Filter>)
    requires trail != [] ==> GuardedAt(Last(trail), next)
    ensures Behind(trail + [next]) <==> Below(trail + [next], |trail|)
    ensures Below(trail + [next], |trail|) && !Behind(trail) ==> !next.value.valid
  {
    var longer := trail + [next];
    assert longer[..|trail|] == trail && Last(longer) == next;
  }

  /** The stored time is behind exactly when a rejected projection fell behind and none has caught up since. */
  lemma {:induction false} BehindIff(trail: seq<Option<Filter>>)
    requires Guarded(trail)
    ensures Behind(trail) <==> exists t | 0 <= t < |trail| :: FellBehind(trail, t)
  {
    hide Below, Behind, GuardedAt;
    if trail == [] {
      NothingIsBehind();
    } else {
      var n := |trail| - 1;
      var before := trail[..n];
      assert trail == before + [trail[n]];
      BehindIff(before);
      BehindStep(before, trail[n]);
      forall u | 0 <= u < n ensures Below(trail, u) == Below(before, u) {
        BelowInPrefix(before, trail[n], u);
      }
      if Behind(trail) {
        if Behind(before) {
          var t :| 0 <= t < n && FellBehind(before, t);
          assert FellBehind(trail, t);
        } else {
          BelowIsSome(trail, n);
          assert FellBehind(trail, n);
        }
      }
      if t :| 0 <= t < |trail| && FellBehind(trail, t) {
        assert Below(trail, n);
      }
    }
  }

  lemma BelowIsSome(trail: seq<Option<Filter>>, u: nat)
    requires Below(trail, u)
    ensures u < |trail| && trail[u].Some?
  {
  }

  lemma NothingIsBehind()
    ensures !Behind([])
  {
  }

  /**
   * After any run every trusted observation taken next is newer than everything since the last erasure
   * exactly unless a rejected projection fell behind the newest time and none has caught up since.
   */
  lemma OldObservationIsTakenIff(history: seq<Step>, cfg: Settings)
    requires cfg.ttl > 0
    ensures NextIsNew(Trail(history, cfg), cfg) <==> !exists t | 0 <= t < |Trail(history, cfg)| :: FellBehind(Trail(history, cfg), t)
  {
    hide Trail, NextIsNew, Behind, FellBehind;
    TrailIsGuarded(history, cfg);
    NextIsNewIff(Trail(history, cfg), cfg);
    BehindIff(Trail(history, cfg));
  }

  predicate DistinctMessages(history: seq<Step>) {
    forall i, j | 0 <= i < j < |history| && history[i].Observe? && history[j].Observe? ::
      history[i].input.observation.message != history[j].input.observation.message
  }

  /** A later message, generated and received after an earlier one. */
  predicate SentAfter(a: Input, b: Input) {
    && a.observation.message != b.observation.message
    && a.observation.generated < b.observation.generated && a.received < b.received
  }

  /**
   * Three messages sent one after another, the second with an older observation and the third with
   * that of the first again: the second is rejected, and the third is taken although its time was taken before.
   */
  lemma RepeatIsTakenAfterOldOne(first: Input, earlier: Input, third: Input, cfg: Settings)
    requires cfg.size >= 2 && Trusted(first, cfg) && Trusted(earlier, cfg) && Trusted(third, cfg)
    requires SentAfter(first, earlier) && SentAfter(earlier, third) && SentAfter(first, third)
    requires earlier.observation.observed.value < first.observation.observed.value
    requires third.observation.observed == first.observation.observed
    ensures var history := [Observe(first), Observe(earlier), Observe(third)];
            var trail := Trail(history, cfg);
            && DistinctMessages(history) && |trail| == 3
            && Good(trail[0]) && !Good(trail[1]) && Good(trail[2]) && trail[0].value.observed == trail[2].value.observed
  {
    hide Windowed;
    var one := Projected(None, first, cfg);
    var two := Projected(Some(one), earlier, cfg);
    var history := [Observe(first), Observe(earlier), Observe(third)];
    assert history[..2] == [Observe(first), Observe(earlier)];
    assert history[..2][..1] == [Observe(first)];
    assert Trail([], cfg) == [];
    assert Trail(history[..2][..1], cfg) == [Some(one)];
    assert Trail(history[..2], cfg) == [Some(one), Some(two)];
    assert Good(Some(one)) by { TakenIsGood(None, first, cfg); }
    assert Good(Some(Projected(Some(two), third, cfg))) by { TakenIsGood(Some(two), third, cfg); }
  }

  lemma TakenIsGood(previous: Option<Filter>, input: Input, cfg: Settings)
    requires Accepted(previous, input, cfg)
    ensures Good(Some(Projected(previous, input, cfg)))
  {
    hide Windowed;
  }

  /** Even so a window never holds one observation twice: its samples are strictly increasing in time. */
  lemma {:induction false} SamplesNeverRepeat(history: seq<Step>, cfg: Settings)
    requires cfg.size >= 2 && Stored(history, cfg).Some?
    ensures Increasing(Ats(Stored(history, cfg).value.samples))
  {
    TrailEndsStored(history, cfg);
    TrailIsShaped(history, cfg);
    var f := Stored(history, cfg).value;
    assert Shaped(f, cfg.size);
    if f.state != Unavailable {
      SoundIsIncreasing(Window(Ats(f.samples), f.anchor), f.observed.value, cfg.size);
    }
  }

  // ---- What the recorded changes tell ----

  /** The changes recorded for the projections after a position. */
  function Recorded(trail: seq<Option<Filter>>, k: nat): seq<Change> {
    if |trail| <= k + 1 || Last(trail).None? then []
    else
      var before := trail[..|trail| - 1];
      Recorded(before, k) + ChangesOf(Last(before), Last(trail).value)
  }

  /** What the recorded changes tell of a projection. */
  datatype Told = Told(valid: bool, source: InputSource, methodVersion: Option<nat>)

  function Telling(f: Filter): Told { Told(f.valid, f.scope.source, f.scope.methodVersion) }

  /** What one change makes of it; none if the change does not start from it, or changes nothing. */
  function ReplayedOne(told: Told, change: Change): Option<Told> {
    var next := match change
      case InputChanged(source, methodVersion, _, _) => Told(told.valid, source, methodVersion)
      case ValidityChanged(_, current) => Told(current, told.source, told.methodVersion);
    var from := match change
      case InputChanged(_, _, source, methodVersion) => Told(told.valid, source, methodVersion)
      case ValidityChanged(previous, _) => Told(previous, told.source, told.methodVersion);
    if from == told != next then Some(next) else None
  }

  function Replayed(told: Option<Told>, changes: seq<Change>): Option<Told> {
    if changes == [] then told
    else
      var before := Replayed(told, changes[..|changes| - 1]);
      if before.None? then None else ReplayedOne(before.value, changes[|changes| - 1])
  }

  predicate Unerased(trail: seq<Option<Filter>>, k: nat) { forall t | k <= t < |trail| :: trail[t].Some? }

  /**
   * While nothing is erased, each recorded change starts from what the ones before it tell and changes it, and
   * replayed from any projection they tell the validity, the source and the method of the last one.
   */
  lemma {:induction false} RecordedChangesReplay(trail: seq<Option<Filter>>, k: nat)
    requires k < |trail| && Unerased(trail, k)
    ensures Replayed(Some(Telling(trail[k].value)), Recorded(trail, k)) == Some(Telling(Last(trail).value))
  {
    hide Telling;
    if k + 1 < |trail| {
      var before := trail[..|trail| - 1];
      RecordedChangesReplay(before, k);
      ReplayOne(Some(Telling(trail[k].value)), Recorded(before, k), Last(before).value, Last(trail).value);
    }
  }

  lemma ReplayAppends(told: Option<Told>, changes: seq<Change>, change: Change)
    requires Replayed(told, changes).Some?
    ensures Replayed(told, changes + [change]) == ReplayedOne(Replayed(told, changes).value, change)
  {
    hide ReplayedOne;
    assert (changes + [change])[..|changes|] == changes;
  }

  lemma ReplayOne(told: Option<Told>, changes: seq<Change>, previous: Filter, next: Filter)
    requires Replayed(told, changes) == Some(Telling(previous))
    ensures Replayed(told, changes + ChangesOf(Some(previous), next)) == Some(Telling(next))
  {
    hide Replayed;
    var (was, now) := (previous.scope, next.scope);
    var all := changes;
    if was.source != now.source || was.methodVersion != now.methodVersion {
      var change := InputChanged(now.source, now.methodVersion, was.source, was.methodVersion);
      ReplayAppends(told, all, change);
      all := all + [change];
    }
    if previous.valid != next.valid {
      var change := ValidityChanged(previous.valid, next.valid);
      ReplayAppends(told, all, change);
      all := all + [change];
    }
    assert all == changes + ChangesOf(Some(previous), next);
  }
}
