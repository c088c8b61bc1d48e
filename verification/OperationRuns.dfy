/** The alarm over any run of sweeps: when it is raised and lowered, how far alerts are apart, what replay does. */
module OperationRuns {
  import opened Basics
  import opened StoredFilter
  import opened FillOperations

  datatype Sweep = Sweep(source: Source, s: Snapshot, filter: Option<Filter>, now: int)

  function Swept(w: World, sweep: Sweep, limits: Limits): World {
    Processed(w, sweep.source, sweep.s, sweep.filter, sweep.now, limits)
  }

  function Run(w: World, sweeps: seq<Sweep>, limits: Limits): World {
    if sweeps == [] then w else Swept(Run(w, sweeps[..|sweeps| - 1], limits), sweeps[|sweeps| - 1], limits)
  }

  predicate Evaluating(w: World, sweep: Sweep) { Evaluates(w, sweep.source, sweep.s) }

  // ---- Leaving CRITICAL ----

  /** The pit's row belongs to the device and is in this state. */
  predicate Stands(w: World, source: Source, state: AlarmState) {
    source.pit in w.operations && w.operations[source.pit].device == source.device && w.operations[source.pit].state == state
  }

  predicate IsCritical(w: World, source: Source) { Stands(w, source, Critical) }

  predicate OneDevice(sweeps: seq<Sweep>, source: Source) {
    forall n | 0 <= n < |sweeps| :: sweeps[n].source.pit == source.pit ==> sweeps[n].source == source
  }

  /** The sweep evaluates the pit and finds it at or below its recovery level. */
  predicate Recovers(w: World, sweep: Sweep, source: Source) {
    sweep.source == source && Evaluating(w, sweep) && Fill(sweep.s) <= sweep.s.critical - 5.0
  }

  lemma OneSweepHolds(w: World, sweep: Sweep, source: Source, limits: Limits)
    requires IsCritical(w, source) && (sweep.source.pit == source.pit ==> sweep.source == source)
    ensures IsCritical(Swept(w, sweep, limits), source) <==> !Recovers(w, sweep, source)
  {
    hide Advanced, Recorded, ScopeFor, PendingSince;
    if Evidence(sweep.s) {
      AdvancedKeepsRows(w, sweep, limits);
    }
  }

  lemma AdvancedKeepsRows(w: World, sweep: Sweep, limits: Limits)
    requires Evidence(sweep.s)
    ensures Evaluated(w, sweep.source, sweep.s, sweep.filter, sweep.now, limits).operations
         == w.operations[sweep.source.pit := OperationAfter(w, sweep.source, sweep.s, sweep.filter, sweep.now, limits)]
  {
    hide Advanced, OperationAfter, Alerts;
    AdvancedKeepsEpisode(w, sweep.source, ScopeFor(sweep.source, sweep.s, sweep.s.reading.value), sweep.s.reading.value.observed,
                         Previous(w, sweep.source), StateAfter(w, sweep.source, sweep.s, sweep.filter, limits), sweep.now, limits.ttl);
  }

  /** The state before the sweep at a position. */
  function At(w: World, sweeps: seq<Sweep>, n: nat, limits: Limits): World
    requires n <= |sweeps|
  {
    Run(w, sweeps[..n], limits)
  }

  lemma AtNext(w: World, sweeps: seq<Sweep>, n: nat, limits: Limits)
    requires n < |sweeps|
    ensures At(w, sweeps, n + 1, limits) == Swept(At(w, sweeps, n, limits), sweeps[n], limits)
  {
    hide Swept;
    assert sweeps[..n + 1][..n] == sweeps[..n];
  }

  predicate HoldsAt(w: World, sweeps: seq<Sweep>, n: nat, source: Source, limits: Limits) {
    n <= |sweeps| && IsCritical(At(w, sweeps, n, limits), source)
  }

  predicate RecoversAt(w: World, sweeps: seq<Sweep>, n: nat, source: Source, limits: Limits) {
    n < |sweeps| && Recovers(At(w, sweeps, n, limits), sweeps[n], source)
  }

  lemma HoldsStep(w: World, sweeps: seq<Sweep>, n: nat, source: Source, limits: Limits)
    requires n < |sweeps| && OneDevice(sweeps, source) && HoldsAt(w, sweeps, n, source, limits)
    ensures HoldsAt(w, sweeps, n + 1, source, limits) <==> !RecoversAt(w, sweeps, n, source, limits)
  {
    hide Swept, Recovers, IsCritical, At;
    AtNext(w, sweeps, n, limits);
    OneSweepHolds(At(w, sweeps, n, limits), sweeps[n], source, limits);
  }

  /**
   * A raised alarm stays raised through every sweep exactly as long as no sweep evaluates its pit
   * at or below the recovery level: gaps, stale data, replays and bad thresholds do not lower it.
   */
  lemma {:induction false} AlarmHoldsUntilRecovery(w: World, sweeps: seq<Sweep>, m: nat, source: Source, limits: Limits)
    requires IsCritical(w, source) && OneDevice(sweeps, source) && m <= |sweeps|
    ensures (forall n | 0 <= n <= m :: HoldsAt(w, sweeps, n, source, limits))
       <==> (forall n | 0 <= n < m :: !RecoversAt(w, sweeps, n, source, limits))
  {
    hide HoldsAt, RecoversAt, IsCritical;
    if m == 0 {
      assert HoldsAt(w, sweeps, 0, source, limits) by { HoldsFirst(w, sweeps, source, limits); }
    } else {
      AlarmHoldsUntilRecovery(w, sweeps, m - 1, source, limits);
      if HoldsAt(w, sweeps, m - 1, source, limits) {
        HoldsStep(w, sweeps, m - 1, source, limits);
      }
    }
  }

  lemma HoldsFirst(w: World, sweeps: seq<Sweep>, source: Source, limits: Limits)
    requires IsCritical(w, source)
    ensures HoldsAt(w, sweeps, 0, source, limits)
  {
    assert sweeps[..0] == [];
  }

  // ---- Distance between alerts ----

  /** Every recorded alert of a pit is at or before the pit's last one, which its operation row names. */
  predicate Booked(w: World) {
    && (forall a | 0 <= a < |w.alerts| :: BookedAt(w, a))
    && forall p <- w.operations :: LastIsRecorded(w, p)
  }

  predicate BookedAt(w: World, a: nat) {
    && a < |w.alerts| && w.alerts[a].source.pit in w.operations
    && w.operations[w.alerts[a].source.pit].lastAlert.Some?
    && w.alerts[a].at <= w.operations[w.alerts[a].source.pit].lastAlert.value.at
  }

  predicate LastIsRecorded(w: World, p: nat)
    requires p in w.operations
  {
    w.operations[p].lastAlert.Some? ==>
      && w.operations[p].lastAlert.value.alert < |w.alerts|
      && w.alerts[w.operations[p].lastAlert.value.alert].source.pit == p
      && w.alerts[w.operations[p].lastAlert.value.alert].at == w.operations[p].lastAlert.value.at
  }

  predicate Spaced(alerts: seq<Alert>, cooldown: nat) {
    forall a, b | 0 <= a < b < |alerts| && alerts[a].source.pit == alerts[b].source.pit ::
      alerts[b].at - alerts[a].at >= cooldown * SECOND
  }

  /** What one sweep does to alerts and rows, without the episode. */
  lemma SweepBooks(w: World, sweep: Sweep, limits: Limits)
    ensures var after := Swept(w, sweep, limits);
            if Evaluating(w, sweep) then
              && after.operations == w.operations[sweep.source.pit := OperationAfter(w, sweep.source, sweep.s, sweep.filter, sweep.now, limits)]
              && after.alerts == w.alerts + if Alerts(w, sweep.source, sweep.s, sweep.filter, sweep.now, limits)
                                            then [Alert(sweep.source, sweep.now, Fill(sweep.s), sweep.s.reading.value.message, sweep.s.reading.value.observed)]
                                            else []
            else after.alerts == w.alerts && after.operations.Keys == w.operations.Keys
                 && forall p <- w.operations :: after.operations[p].(criticalSince := None) == w.operations[p].(criticalSince := None)
  {
    hide Advanced, OperationAfter, Alerts, ScopeFor;
    if Evaluating(w, sweep) {
      AdvancedKeepsRows(w, sweep, limits);
      AdvancedKeepsEpisode(w, sweep.source, ScopeFor(sweep.source, sweep.s, sweep.s.reading.value), sweep.s.reading.value.observed,
                           Previous(w, sweep.source), StateAfter(w, sweep.source, sweep.s, sweep.filter, limits), sweep.now, limits.ttl);
    }
  }

  lemma SweepKeepsBooks(w: World, sweep: Sweep, limits: Limits)
    requires Booked(w)
    ensures Booked(Swept(w, sweep, limits))
    ensures Spaced(w.alerts, limits.cooldown) ==> Spaced(Swept(w, sweep, limits).alerts, limits.cooldown)
  {
    hide Swept, StateAfter, PendingSince, Evaluating;
    SweepBooks(w, sweep, limits);
    var after := Swept(w, sweep, limits);
    forall a | 0 <= a < |after.alerts| ensures BookedAt(after, a) {
      assert a < |w.alerts| ==> BookedAt(w, a);
    }
    forall p <- after.operations ensures LastIsRecorded(after, p) {
      assert p in w.operations ==> LastIsRecorded(w, p);
    }
    if Spaced(w.alerts, limits.cooldown) {
      forall a, b | 0 <= a < b < |after.alerts| && after.alerts[a].source.pit == after.alerts[b].source.pit
        ensures after.alerts[b].at - after.alerts[a].at >= limits.cooldown * SECOND
      {
        assert BookedAt(w, a);
      }
    }
  }

  /** In every run any two alerts of a pit are at least the cooldown apart, whichever device raised them. */
  lemma {:induction false} AlertsAreSpaced(w: World, sweeps: seq<Sweep>, limits: Limits)
    requires Booked(w) && Spaced(w.alerts, limits.cooldown)
    ensures Booked(Run(w, sweeps, limits)) && Spaced(Run(w, sweeps, limits).alerts, limits.cooldown)
  {
    hide Swept, Booked, Spaced;
    if sweeps != [] {
      AlertsAreSpaced(w, sweeps[..|sweeps| - 1], limits);
      SweepKeepsBooks(Run(w, sweeps[..|sweeps| - 1], limits), sweeps[|sweeps| - 1], limits);
    }
  }

  // ---- What stands behind an alert ----

  /** The sweep at a position evaluated its pit as critical, above the recovery level, and raised this alert. */
  predicate RaisedAt(w: World, sweeps: seq<Sweep>, n: nat, alert: Alert, limits: Limits) {
    && n < |sweeps|
    && var before := At(w, sweeps, n, limits);
    && var sweep := sweeps[n];
    && Evaluating(before, sweep)
    && StateAfter(before, sweep.source, sweep.s, sweep.filter, limits) == Critical
    && Fill(sweep.s) > sweep.s.critical - 5.0
    && alert == Alert(sweep.source, sweep.now, Fill(sweep.s), sweep.s.reading.value.message, sweep.s.reading.value.observed)
  }

  predicate Raised(w: World, sweeps: seq<Sweep>, m: nat, alert: Alert, limits: Limits) {
    exists n | 0 <= n < m :: RaisedAt(w, sweeps, n, alert, limits)
  }

  /** Every alert a run adds was raised by one of its sweeps, on a fill above the recovery level. */
  lemma {:induction false} AlertsAreRaised(w: World, sweeps: seq<Sweep>, m: nat, limits: Limits)
    requires m <= |sweeps|
    ensures |w.alerts| <= |At(w, sweeps, m, limits).alerts|
    ensures forall a | |w.alerts| <= a < |At(w, sweeps, m, limits).alerts| ::
              Raised(w, sweeps, m, At(w, sweeps, m, limits).alerts[a], limits)
  {
    hide Swept, At, RaisedAt;
    if m == 0 {
      AtStart(w, sweeps, limits);
    } else {
      var n := m - 1;
      AlertsAreRaised(w, sweeps, n, limits);
      AtNext(w, sweeps, n, limits);
      SweepRaises(w, sweeps, n, limits);
    }
  }

  lemma AtStart(w: World, sweeps: seq<Sweep>, limits: Limits)
    ensures At(w, sweeps, 0, limits) == w
  {
    assert sweeps[..0] == [];
  }

  lemma SweepRaises(w: World, sweeps: seq<Sweep>, n: nat, limits: Limits)
    requires n < |sweeps|
    ensures var before := At(w, sweeps, n, limits).alerts;
            var after := At(w, sweeps, n + 1, limits).alerts;
            after == before || (|after| == |before| + 1 && after[..|before|] == before && RaisedAt(w, sweeps, n, after[|before|], limits))
  {
    hide At, Swept, OperationAfter;
    AtNext(w, sweeps, n, limits);
    SweepBooks(At(w, sweeps, n, limits), sweeps[n], limits);
  }

  /** Once a sweep has found a pit critical there is an alert of that pit from this sweep or less than the cooldown old. */
  lemma CriticalHasAlert(w: World, sweep: Sweep, limits: Limits)
    requires Booked(w) && Evaluating(w, sweep)
    requires StateAfter(w, sweep.source, sweep.s, sweep.filter, limits) == Critical
    ensures exists a | 0 <= a < |Swept(w, sweep, limits).alerts| ::
              Swept(w, sweep, limits).alerts[a].source.pit == sweep.source.pit
              && (|| Swept(w, sweep, limits).alerts[a].at == sweep.now
                  || sweep.now - Swept(w, sweep, limits).alerts[a].at < limits.cooldown * SECOND)
  {
    hide Swept, StateAfter, PendingSince, BookedAt;
    SweepBooks(w, sweep, limits);
    var after := Swept(w, sweep, limits);
    if Alerts(w, sweep.source, sweep.s, sweep.filter, sweep.now, limits) {
      assert after.alerts[|w.alerts|].at == sweep.now;
    } else {
      var last := PriorAlert(w, sweep.source).value;
      assert LastIsRecorded(w, sweep.source.pit);
      assert after.alerts[last.alert] == w.alerts[last.alert];
    }
  }

  // ---- Replays ----

  /** The pit's row belongs to the device and is at least as far as this reading. */
  predicate Passed(w: World, source: Source, r: Reading) {
    && source.pit in w.operations && w.operations[source.pit].device == source.device
    && r.generated <= w.operations[source.pit].generated && r.observed <= w.operations[source.pit].observed
  }

  lemma EvaluationPasses(w: World, sweep: Sweep, limits: Limits)
    requires Evaluating(w, sweep)
    ensures Passed(Swept(w, sweep, limits), sweep.source, sweep.s.reading.value)
  {
    hide Swept, StateAfter, PendingSince, Alerts;
    SweepBooks(w, sweep, limits);
  }

  lemma SweepStaysPast(w: World, sweep: Sweep, source: Source, r: Reading, limits: Limits)
    requires Passed(w, source, r) && (sweep.source.pit == source.pit ==> sweep.source == source)
    ensures Passed(Swept(w, sweep, limits), source, r)
  {
    hide Swept, StateAfter, PendingSince, Alerts;
    SweepBooks(w, sweep, limits);
    var after := Swept(w, sweep, limits);
    if !Evaluating(w, sweep) {
      assert after.operations[source.pit].(criticalSince := None) == w.operations[source.pit].(criticalSince := None);
    }
  }

  lemma {:induction false} RunStaysPast(w: World, sweeps: seq<Sweep>, m: nat, n: nat, source: Source, r: Reading, limits: Limits)
    requires m <= n <= |sweeps| && OneDevice(sweeps, source)
    requires Passed(At(w, sweeps, m, limits), source, r)
    ensures Passed(At(w, sweeps, n, limits), source, r)
  {
    hide Swept, Passed, At;
    if m < n {
      RunStaysPast(w, sweeps, m, n - 1, source, r, limits);
      AtNext(w, sweeps, n - 1, limits);
      SweepStaysPast(At(w, sweeps, n - 1, limits), sweeps[n - 1], source, r, limits);
    }
  }

  /**
   * Once a reading has been evaluated, a later sweep that brings it again, or brings any reading
   * not newer in both of its times, changes no row, tracker, event or alert.
   */
  lemma ReplayChangesNothing(w: World, sweeps: seq<Sweep>, m: nat, n: nat, source: Source, limits: Limits)
    requires m < n < |sweeps| && OneDevice(sweeps, source)
    requires sweeps[m].source == source && Evaluating(At(w, sweeps, m, limits), sweeps[m])
    requires sweeps[n].source == source && Evidence(sweeps[n].s)
    requires sweeps[n].s.reading.value.generated <= sweeps[m].s.reading.value.generated
             || sweeps[n].s.reading.value.observed <= sweeps[m].s.reading.value.observed
    ensures At(w, sweeps, n + 1, limits) == At(w, sweeps, n, limits)
  {
    hide At, Evaluated, Invalidated;
    var r := sweeps[m].s.reading.value;
    AtNext(w, sweeps, m, limits);
    EvaluationPasses(At(w, sweeps, m, limits), sweeps[m], limits);
    RunStaysPast(w, sweeps, m + 1, n, source, r, limits);
    AtNext(w, sweeps, n, limits);
  }

  // ---- Recorded changes of state ----

  lemma SweepLeavesState(w: World, sweep: Sweep, source: Source, state: AlarmState, limits: Limits)
    requires Stands(w, source, state) && (sweep.source.pit == source.pit ==> !Evaluating(w, sweep))
    ensures Stands(Swept(w, sweep, limits), source, state)
  {
    hide Swept, StateAfter, PendingSince, Alerts;
    SweepBooks(w, sweep, limits);
    if !Evaluating(w, sweep) {
      assert Swept(w, sweep, limits).operations[source.pit].(criticalSince := None) == w.operations[source.pit].(criticalSince := None);
    }
  }

  lemma {:induction false} RunLeavesState(w: World, sweeps: seq<Sweep>, m: nat, n: nat, source: Source, state: AlarmState, limits: Limits)
    requires m <= n <= |sweeps| && Stands(At(w, sweeps, m, limits), source, state)
    requires forall k | m <= k < n && sweeps[k].source.pit == source.pit :: !Evaluating(At(w, sweeps, k, limits), sweeps[k])
    ensures Stands(At(w, sweeps, n, limits), source, state)
  {
    hide Swept, Stands, At, Evaluating;
    if m < n {
      RunLeavesState(w, sweeps, m, n - 1, source, state, limits);
      AtNext(w, sweeps, n - 1, limits);
      SweepLeavesState(At(w, sweeps, n - 1, limits), sweeps[n - 1], source, state, limits);
    }
  }

  /** Recorded changes chain: an evaluation starts from the state the one before it of the same source ended in. */
  lemma StatesChain(w: World, sweeps: seq<Sweep>, m: nat, n: nat, source: Source, limits: Limits)
    requires m < n < |sweeps| && sweeps[m].source == source && sweeps[n].source == source
    requires Evaluating(At(w, sweeps, m, limits), sweeps[m]) && Evaluating(At(w, sweeps, n, limits), sweeps[n])
    requires forall k | m < k < n && sweeps[k].source.pit == source.pit :: !Evaluating(At(w, sweeps, k, limits), sweeps[k])
    ensures Previous(At(w, sweeps, n, limits), source)
         == StateAfter(At(w, sweeps, m, limits), source, sweeps[m].s, sweeps[m].filter, limits)
  {
    hide At, Swept, StateAfter, PendingSince;
    var before := At(w, sweeps, m, limits);
    AtNext(w, sweeps, m, limits);
    EvaluationStands(before, sweeps[m], limits);
    RunLeavesState(w, sweeps, m + 1, n, source, StateAfter(before, source, sweeps[m].s, sweeps[m].filter, limits), limits);
  }

  lemma EvaluationStands(w: World, sweep: Sweep, limits: Limits)
    requires Evaluating(w, sweep)
    ensures Stands(Swept(w, sweep, limits), sweep.source, StateAfter(w, sweep.source, sweep.s, sweep.filter, limits))
  {
    hide Swept, StateAfter, PendingSince, Alerts;
    SweepBooks(w, sweep, limits);
  }
}
