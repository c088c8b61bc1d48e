/** The receiver's stored fill filter: what one observation or one status report makes of it. */
module FillFilter {
  import opened Basics
  import opened StoredFilter
  import opened ObservationWindow

  datatype Observation = Observation(source: InputSource, config: nat, rule: nat, methodVersion: Option<nat>,
                                     token: Option<nat>, message: nat, generated: int,
                                     observed: Option<int>, value: Option<real>)

  /** The device status in force: the selected snapshot's instance and configuration, when there is one. */
  datatype Device = Device(reporting: bool, working: bool, snapshot: Option<Identity>)
  datatype Identity = Identity(instance: nat, config: nat)

  datatype Input = Input(observation: Observation, received: int, device: Device, pit: Option<nat>,
                         threshold: real, heightMedian: Option<real>)

  datatype Settings = Settings(ttl: nat, size: nat)

  function ScopeOf(input: Input): Scope {
    var o := input.observation;
    Scope(o.config, o.rule, o.methodVersion,
          if input.device.snapshot.Some? then Some(input.device.snapshot.value.instance) else None,
          input.pit, input.threshold, o.source, o.token)
  }

  /** Fresh evidence from a device that is reporting, working and configured as the evidence says. */
  predicate Trusted(input: Input, cfg: Settings) {
    var o := input.observation;
    && o.value.Some? && o.observed.Some?
    && 0 <= input.received - o.observed.value < cfg.ttl * SECOND
    && input.device.reporting && input.device.working
    && input.device.snapshot.Some? && input.device.snapshot.value.config == o.config
  }

  /** Trusted, and strictly newer than the stored observation. */
  predicate Accepted(previous: Option<Filter>, input: Input, cfg: Settings) {
    && Trusted(input, cfg)
    && (previous.Some? && previous.value.observed.Some? ==> previous.value.observed.value < input.observation.observed.value)
  }

  /** The stored filter's samples go on with the next observation: same scope, no pause. */
  predicate Continuing(previous: Option<Filter>, input: Input)
    requires input.observation.observed.Some?
  {
    && previous.Some? && previous.value.scope == ScopeOf(input)
    && (previous.value.observed.Some? ==> input.observation.observed.value - previous.value.observed.value <= BREAK)
  }

  function Ats(samples: seq<Sample>): seq<int> {
    seq(|samples|, i requires 0 <= i < |samples| => samples[i].at)
  }

  function Values(samples: seq<Sample>): seq<real> {
    seq(|samples|, i requires 0 <= i < |samples| => samples[i].value)
  }

  function Picked(samples: seq<Sample>, items: seq<Item>): seq<Sample>
    requires Points(items, Ats(samples))
  {
    seq(|items|, i requires 0 <= i < |items| => samples[items[i].index])
  }

  function Candidates(previous: Option<Filter>, input: Input): seq<Sample>
    requires input.observation.observed.Some? && input.observation.value.Some?
  {
    (if Continuing(previous, input) then previous.value.samples else [])
    + [Sample(input.observation.observed.value, input.observation.value.value)]
  }

  function PriorAnchor(previous: Option<Filter>, input: Input): Option<int>
    requires input.observation.observed.Some?
  {
    if Continuing(previous, input) then previous.value.anchor else None
  }

  /** The samples and the anchor after an accepted observation. */
  function Windowed(previous: Option<Filter>, input: Input, size: nat): (seq<Sample>, Option<int>)
    requires input.observation.observed.Some? && input.observation.value.Some?
  {
    var samples := Candidates(previous, input);
    var now := input.observation.observed.value;
    var anchor := PriorAnchor(previous, input);
    SelectedPoints(Ats(samples), now, size, anchor);
    (Picked(samples, Selected(Ats(samples), now, size, anchor)),
     Some(Renewed(Current(Ats(samples), now, size), now, size, anchor)))
  }

  // ---- The median ----

  function Insert(sorted: seq<real>, x: real): seq<real> {
    if sorted == [] || x <= sorted[0] then [x] + sorted else [sorted[0]] + Insert(sorted[1..], x)
  }

  function Sort(values: seq<real>): (sorted: seq<real>)
    ensures |sorted| == |values|
  {
    if values == [] then []
    else
      var rest := Sort(values[..|values| - 1]);
      InsertLength(rest, values[|values| - 1]);
      Insert(rest, values[|values| - 1])
  }

  lemma {:induction false} InsertLength(sorted: seq<real>, x: real)
    ensures |Insert(sorted, x)| == |sorted| + 1
  {
    if sorted != [] && x > sorted[0] {
      InsertLength(sorted[1..], x);
    }
  }

  function Median(values: seq<real>): real
    requires values != []
  {
    var sorted := Sort(values);
    var n := |values|;
    if n % 2 == 1 then sorted[n / 2] else (sorted[n / 2 - 1] + sorted[n / 2]) / 2.0
  }

  /** How many values are at least a bound. */
  function AtLeast(values: seq<real>, bound: real): nat {
    if values == [] then 0
    else AtLeast(values[..|values| - 1], bound) + if values[|values| - 1] >= bound then 1 else 0
  }

  predicate Sorted(values: seq<real>) { forall i, j | 0 <= i < j < |values| :: values[i] <= values[j] }

  lemma {:induction false} AtLeastFront(values: seq<real>, bound: real)
    requires values != []
    ensures AtLeast(values, bound) == (if values[0] >= bound then 1 else 0) + AtLeast(values[1..], bound)
  {
    if |values| > 1 {
      var n := |values| - 1;
      AtLeastFront(values[..n], bound);
      assert values[..n][1..] == values[1..][..n - 1];
    }
  }

  lemma {:induction false} InsertSorts(sorted: seq<real>, x: real, bound: real)
    requires Sorted(sorted)
    ensures Sorted(Insert(sorted, x)) && |Insert(sorted, x)| == |sorted| + 1
    ensures Insert(sorted, x)[0] == x || (sorted != [] && Insert(sorted, x)[0] == sorted[0])
    ensures AtLeast(Insert(sorted, x), bound) == AtLeast(sorted, bound) + if x >= bound then 1 else 0
  {
    var r := Insert(sorted, x);
    if sorted == [] || x <= sorted[0] {
      AtLeastFront(r, bound);
      assert r[1..] == sorted;
    } else {
      InsertSorts(sorted[1..], x, bound);
      AtLeastFront(r, bound);
      AtLeastFront(sorted, bound);
      assert r[1..] == Insert(sorted[1..], x);
    }
  }

  lemma {:induction false} SortSorts(values: seq<real>, bound: real)
    ensures Sorted(Sort(values)) && AtLeast(Sort(values), bound) == AtLeast(values, bound)
  {
    hide Insert;
    if values != [] {
      var n := |values| - 1;
      SortSorts(values[..n], bound);
      InsertSorts(Sort(values[..n]), values[n], bound);
    }
  }

  /** In a sorted list as many values reach a bound as lie after the first that does. */
  lemma {:induction false} SortedAtLeast(sorted: seq<real>, bound: real, k: nat)
    requires Sorted(sorted) && k < |sorted|
    ensures sorted[k] >= bound <==> AtLeast(sorted, bound) >= |sorted| - k
  {
    var n := |sorted| - 1;
    if k < n {
      SortedAtLeast(sorted[..n], bound, k);
    } else {
      assert sorted[n] < bound ==> forall i | 0 <= i < |sorted| :: sorted[i] < bound;
      if sorted[n] < bound {
        NoneAtLeast(sorted, bound);
      }
    }
  }

  lemma {:induction false} NoneAtLeast(values: seq<real>, bound: real)
    requires forall i | 0 <= i < |values| :: values[i] < bound
    ensures AtLeast(values, bound) == 0
  {
    if values != [] {
      NoneAtLeast(values[..|values| - 1], bound);
    }
  }

  /** The median of an odd window reaches a bound exactly when a majority of its values do. */
  lemma MedianIsMajority(values: seq<real>, bound: real)
    requires |values| % 2 == 1
    ensures Median(values) >= bound <==> 2 * AtLeast(values, bound) > |values|
  {
    SortSorts(values, bound);
    SortedAtLeast(Sort(values), bound, |values| / 2);
  }

  /** The two values in the middle of an even window: each reaches a bound exactly when enough of the values do. */
  ghost predicate MiddleTwo(values: seq<real>, a: real, b: real) {
    forall bound: real ::
      && (a >= bound <==> AtLeast(values, bound) >= |values| / 2 + 1)
      && (b >= bound <==> AtLeast(values, bound) >= |values| / 2)
  }

  /** The median of an even window lies halfway between them. */
  lemma EvenMedianIsMiddle(values: seq<real>) returns (a: real, b: real)
    requires values != [] && |values| % 2 == 0
    ensures MiddleTwo(values, a, b) && Median(values) == (a + b) / 2.0
  {
    var (sorted, k) := (Sort(values), |values| / 2);
    a, b := sorted[k - 1], sorted[k];
    forall bound: real
      ensures a >= bound <==> AtLeast(values, bound) >= k + 1
      ensures b >= bound <==> AtLeast(values, bound) >= k
    {
      SortSorts(values, bound);
      SortedAtLeast(sorted, bound, k - 1);
      SortedAtLeast(sorted, bound, k);
    }
  }

  lemma {:induction false} AllAtLeast(values: seq<real>, bound: real)
    requires forall i | 0 <= i < |values| :: values[i] >= bound
    ensures AtLeast(values, bound) == |values|
  {
    if values != [] {
      AllAtLeast(values[..|values| - 1], bound);
    }
  }

  lemma HighMedian(values: seq<real>, bound: real)
    requires values != [] && forall i | 0 <= i < |values| :: values[i] >= bound
    ensures Median(values) >= bound
  {
    AllAtLeast(values, bound);
    if |values| % 2 == 1 {
      MedianIsMajority(values, bound);
    } else {
      var a, b := EvenMedianIsMiddle(values);
      assert a >= bound && b >= bound;
    }
  }

  // ---- One projection ----

  /** The filtered value of a full window: the height path brings its own, the edge path takes the median. */
  function FilteredValue(samples: seq<Sample>, input: Input, cfg: Settings): Option<real> {
    if |samples| != cfg.size then None
    else if input.observation.source == HeightSections then input.heightMedian
    else if samples == [] then None
    else Some(Median(Values(samples)))
  }

  function AboveSince(previous: Option<Filter>, input: Input, value: Option<real>): Option<int> {
    if value.None? || value.value < input.threshold then None
    else if previous.Some? && previous.value.scope == ScopeOf(input) && previous.value.state == Ready
            && previous.value.aboveSince.Some? then previous.value.aboveSince
    else input.observation.observed
  }

  function Projected(previous: Option<Filter>, input: Input, cfg: Settings): Filter {
    var o := input.observation;
    if Accepted(previous, input, cfg) then
      var (samples, anchor) := Windowed(previous, input, cfg.size);
      var value := FilteredValue(samples, input, cfg);
      Filter(ScopeOf(input), samples, anchor, if value.Some? then Ready else Warming, o.message, value,
             o.observed, AboveSince(previous, input, value), true)
    else
      Filter(ScopeOf(input), [], None, Unavailable, o.message, None, o.observed, None, false)
  }

  /** What the receiver also records of a projection: a changed input, and validity gained or lost. */
  datatype Change =
    | InputChanged(source: InputSource, methodVersion: Option<nat>, previousSource: InputSource, previousMethod: Option<nat>)
    | ValidityChanged(previous: bool, current: bool)

  function ChangesTo(previous: Option<Filter>, scope: Scope, valid: bool): seq<Change> {
    if previous.None? then []
    else
      var before := previous.value.scope;
      (if before.source != scope.source || before.methodVersion != scope.methodVersion
       then [InputChanged(scope.source, scope.methodVersion, before.source, before.methodVersion)] else [])
      + if previous.value.valid != valid then [ValidityChanged(previous.value.valid, valid)] else []
  }

  function ChangesOf(previous: Option<Filter>, next: Filter): seq<Change> { ChangesTo(previous, next.scope, next.valid) }

  // ---- Status reports ----

  datatype Scan = Scan(upToDate: bool, lastScan: Option<int>)

  /** A report that replaced the retained one. */
  datatype Report = Report(generated: int, received: int, sameInstance: bool, working: bool,
                           clockAllowed: bool, config: nat, sensors: seq<Scan>)

  predicate ScanIsCurrent(scan: Scan, now: int, ttl: nat) {
    scan.upToDate && scan.lastScan.Some? && 0 <= now - scan.lastScan.value < ttl * SECOND
  }

  /** Whether the filter survives a report. */
  predicate Survives(payload: Option<Filter>, report: Report, heightFill: bool, cfg: Settings) {
    && report.sameInstance && report.working
    && (heightFill ==>
          && report.clockAllowed && report.generated <= report.received
          && |report.sensors| == 2
          && (forall i | 0 <= i < |report.sensors| :: ScanIsCurrent(report.sensors[i], report.received, cfg.ttl))
          && (payload.Some? ==> payload.value.scope.config == report.config))
  }

  /** The stored filter of one device; an empty payload is None. */
  class FilterRow {
    var payload: Option<Filter>

    constructor ()
      ensures payload.None?
    {
      payload := None;
    }

    method ProjectInput(input: Input, cfg: Settings) returns (changes: seq<Change>)
      modifies this
      ensures payload == Some(Projected(old(payload), input, cfg))
      ensures changes == ChangesOf(old(payload), Projected(old(payload), input, cfg))
    {
      hide ScopeOf, Selected, Renewed, Current, Median, Points, ChangesTo;
      var o := input.observation;
      var scope := ScopeOf(input);
      var previous := payload;
      var samples: seq<Sample> := [];
      var anchor: Option<int> := None;
      if previous.Some? && previous.value.scope == scope {
        samples := previous.value.samples;
        anchor := previous.value.anchor;
      }
      var filtered: Option<real> := None;
      var state := Unavailable;
      var valid := Trusted(input, cfg);
      if valid {
        var last := if previous.Some? then previous.value.observed else None;
        if last.Some? && o.observed.value <= last.value {
          valid := false;
          samples := [];
          anchor := None;
        } else {
          if last.Some? && o.observed.value - last.value > BREAK {
            samples := [];
            anchor := None;
          }
          samples := samples + [Sample(o.observed.value, o.value.value)];
          var items, renewed := ObservationSlots(Ats(samples), o.observed.value, cfg.size, anchor);
          SelectedPoints(Ats(samples), o.observed.value, cfg.size, anchor);
          samples := Picked(samples, items);
          anchor := Some(renewed);
          state := Warming;
          if |samples| == cfg.size {
            if o.source == HeightSections {
              filtered := input.heightMedian;
            } else if samples != [] {
              filtered := Some(Median(Values(samples)));
            }
            state := if filtered.Some? then Ready else Warming;
          }
        }
      } else {
        samples := [];
        anchor := None;
      }
      var above: Option<int> := None;
      if filtered.Some? && filtered.value >= input.threshold {
        if previous.Some? && previous.value.scope == scope && previous.value.state == Ready {
          above := previous.value.aboveSince;
        }
        above := if above.Some? then above else o.observed;
      }
      changes := ChangesTo(previous, scope, valid);
      payload := Some(Filter(scope, samples, anchor, state, o.message, filtered, o.observed, above, valid));
    }

    method StatusReplaced(report: Report, heightFill: bool, cfg: Settings)
      modifies this
      ensures payload == if Survives(old(payload), report, heightFill, cfg) then old(payload) else None
    {
      if !report.sameInstance || !report.working {
        payload := None;
      }
      if heightFill {
        var stale := false;
        for i := 0 to |report.sensors|
          invariant stale <==> exists k | 0 <= k < i :: !ScanIsCurrent(report.sensors[k], report.received, cfg.ttl)
        {
          stale := stale || !ScanIsCurrent(report.sensors[i], report.received, cfg.ttl);
        }
        if !report.clockAllowed || report.generated > report.received || |report.sensors| != 2 || stale
           || (payload.Some? && payload.value.scope.config != report.config) {
          payload := None;
        }
      }
    }
  }
}
