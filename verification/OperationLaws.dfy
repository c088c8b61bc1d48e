/** What one sweep does to a pit, in terms of its readings alone: when it evaluates, what state it finds, what a gap takes. */
module OperationLaws {
  import opened Basics
  import opened StoredFilter
  import opened FillOperations
  import opened OperationRuns

  // ---- When a sweep evaluates ----

  /** The reading is newer, in both of its times, than what the device's own row has evaluated. */
  predicate IsNews(w: World, sweep: Sweep, r: Reading) {
    sweep.source.pit in w.operations && w.operations[sweep.source.pit].device == sweep.source.device ==>
      && r.generated > w.operations[sweep.source.pit].generated
      && r.observed > w.operations[sweep.source.pit].observed
  }

  predicate HasEvidence(s: Snapshot) { s.usable && s.reading.Some? && s.fill.Some? }

  /** Both thresholds lie between 0 and 100 and the lower one at or below the recovery level of the upper. */
  predicate InOrder(s: Snapshot) { 0.0 <= s.warning && s.warning + 5.0 <= s.critical && s.critical <= 100.0 }

  /** The row of the pit after an evaluation: this device, this reading. */
  predicate RowTakes(after: World, sweep: Sweep, r: Reading) {
    && sweep.source.pit in after.operations
    && var row := after.operations[sweep.source.pit];
    && row.device == sweep.source.device && row.message == r.message && row.generated == r.generated && row.observed == r.observed
  }

  /** Nothing but the device's own tracker of the pit changes, and that one loses its episode and its validity. */
  predicate GapTakes(w: World, after: World, sweep: Sweep) {
    && after.log == w.log && after.alerts == w.alerts && after.episodes == w.episodes
    && after.trackers.Keys == w.trackers.Keys
    && (forall d <- w.trackers | d != sweep.source.device || w.trackers[d].pit != sweep.source.pit :: after.trackers[d] == w.trackers[d])
    && (sweep.source.device in w.trackers && w.trackers[sweep.source.device].pit == sweep.source.pit ==>
          after.trackers[sweep.source.device] == w.trackers[sweep.source.device].(episode := None, inputValid := false))
  }

  /** No row changes, except that the pit's loses the time since which an alarm was pending. */
  predicate OnlyPendingGoes(w: World, after: World, sweep: Sweep) {
    && after.operations.Keys == w.operations.Keys
    && (forall p <- w.operations | p != sweep.source.pit :: after.operations[p] == w.operations[p])
    && (sweep.source.pit in w.operations ==>
          && after.operations[sweep.source.pit].criticalSince.None?
          && after.operations[sweep.source.pit].(criticalSince := None) == w.operations[sweep.source.pit].(criticalSince := None))
  }

  /**
   * A sweep without usable evidence is a gap and so is one under thresholds that are not in order, of which the first
   * also drops a pending alarm; a reading that is not news changes nothing at all; and every other is taken into the row.
   */
  lemma SweepCases(w: World, sweep: Sweep, limits: Limits)
    ensures var after := Swept(w, sweep, limits);
            var s := sweep.s;
            if !HasEvidence(s) then
              GapTakes(w, after, sweep) && OnlyPendingGoes(w, after, sweep)
            else if !IsNews(w, sweep, s.reading.value) then after == w
            else if !InOrder(s) then
              GapTakes(w, after, sweep) && after.operations == w.operations
            else
              Evaluating(w, sweep) && RowTakes(after, sweep, s.reading.value)
  {
    SweepBooks(w, sweep, limits);
    hide StateAfter, PendingSince, Alerts, Evaluated;
  }

  // ---- The state it finds ----

  /** The time an alarm is counted from: the receiver's timer if it is of this message and threshold, else the reading's. */
  predicate CountedFrom(sweep: Sweep, r: Reading, since: int) {
    if sweep.filter.Some? && sweep.filter.value.message == r.message && sweep.filter.value.scope.threshold == sweep.s.critical
       && sweep.filter.value.aboveSince.Some?
    then since == sweep.filter.value.aboveSince.value
    else since == r.observed
  }

  /** How an evaluated level stands against the thresholds. */
  predicate StateFits(w: World, sweep: Sweep, r: Reading, fill: real, since: int, row: Operation, limits: Limits) {
    var raised := IsCritical(w, sweep.source);
    var pending := sweep.s.filtering == FilterReady && !raised && fill >= sweep.s.critical;
    && (row.state == Critical <==>
          || (raised && fill > sweep.s.critical - 5.0)
          || (fill >= sweep.s.critical && (pending ==> r.observed - since >= limits.confirm * SECOND)))
    && (row.state == Warning <==> row.state != Critical && fill >= sweep.s.warning)
    && row.criticalSince == if pending then Some(since) else None
  }

  /**
   * The evaluated level is the reading's own value while filtering is disabled and the filtered one otherwise. It is
   * CRITICAL while a raised alarm is above its recovery level, or at the threshold once that has been confirmed, and
   * otherwise WARNING exactly from the lower threshold on.
   */
  lemma StateIsExact(w: World, sweep: Sweep, fill: real, since: int, limits: Limits)
    requires Evaluating(w, sweep) && CountedFrom(sweep, sweep.s.reading.value, since)
    requires fill == if sweep.s.filtering == Disabled then sweep.s.reading.value.value else sweep.s.fill.value
    ensures sweep.source.pit in Swept(w, sweep, limits).operations
    ensures StateFits(w, sweep, sweep.s.reading.value, fill, since, Swept(w, sweep, limits).operations[sweep.source.pit], limits)
  {
    SweepBooks(w, sweep, limits);
    hide Swept, Alerts;
  }

  /** What the pit's row says of its state to this device. */
  function StateSeen(w: World, source: Source): AlarmState {
    if source.pit in w.operations && w.operations[source.pit].device == source.device then w.operations[source.pit].state else Normal
  }

  /** A change is recorded exactly when a ready filter's evaluation leaves the row in another state than it found. */
  lemma ChangeIsExact(w: World, sweep: Sweep, limits: Limits)
    requires Evaluating(w, sweep)
    ensures var (before, after) := (StateSeen(w, sweep.source), StateSeen(Swept(w, sweep, limits), sweep.source));
            TransitionOf(w, sweep.source, sweep.s, sweep.filter, limits)
            == if sweep.s.filtering == FilterReady && before != after
               then Some(Transition(sweep.source, sweep.s.reading.value.observed, before, after, sweep.s.fill.value)) else None
  {
    SweepBooks(w, sweep, limits);
    hide Swept, Alerts, NextState;
  }

  /** A higher level never finds a lower state, whatever came before and whatever the timer says. */
  lemma HigherIsNoLower(w: World, low: Sweep, high: Sweep, limits: Limits)
    requires Evaluating(w, low) && Evaluating(w, high) && low.s.filtering != Disabled
    requires high == low.(s := low.s.(fill := high.s.fill)) && low.s.fill.value <= high.s.fill.value
    ensures StateAfter(w, low.source, low.s, low.filter, limits) == Critical ==>
              StateAfter(w, high.source, high.s, high.filter, limits) == Critical
    ensures StateAfter(w, low.source, low.s, low.filter, limits) == Warning ==>
              StateAfter(w, high.source, high.s, high.filter, limits) != Normal
  {
  }

  // ---- What the device's tracker holds then ----

  /** What an episode rests on has changed since the tracker's observation, or this one is not newer, or too late. */
  predicate Breaks(t: Tracker, sweep: Sweep, r: Reading, ttl: nat) {
    || t.pit != sweep.source.pit || !t.inputValid
    || r.observed <= t.observed || r.observed - t.observed >= ttl * SECOND
    || t.scope.source != sweep.source || t.scope.instance != sweep.s.instance
    || t.scope.config != r.config || t.scope.rule != r.rule || t.scope.methodVersion != r.methodVersion
    || t.scope.token != r.token || t.scope.input != r.source || t.scope.simulated != r.simulated
    || t.scope.warning != sweep.s.warning || t.scope.critical != sweep.s.critical
    || t.scope.recovery != sweep.s.critical - 5.0
  }

  /** The episode of the device's tracker, unless the reading breaks it. */
  predicate GoesOn(w: World, sweep: Sweep, r: Reading, episode: nat, ttl: nat) {
    && sweep.source.device in w.trackers && w.trackers[sweep.source.device].episode == Some(episode)
    && !Breaks(w.trackers[sweep.source.device], sweep, r, ttl)
  }

  lemma CarriedIff(w: World, sweep: Sweep, episode: nat, ttl: nat)
    requires Evaluating(w, sweep)
    ensures Carried(w, sweep.source, ScopeFor(sweep.source, sweep.s, sweep.s.reading.value), sweep.s.reading.value.observed, ttl) == Some(episode)
       <==> GoesOn(w, sweep, sweep.s.reading.value, episode, ttl)
  {
  }

  /** After an evaluation the tracker is of this pit and observation; in CRITICAL it goes on with its episode or begins one. */
  predicate TrackerFits(w: World, after: World, sweep: Sweep, r: Reading, critical: bool, ttl: nat) {
    var d := sweep.source.device;
    && (critical || d in w.trackers <==> d in after.trackers)
    && (forall e <- w.trackers | e != d :: e in after.trackers && after.trackers[e] == w.trackers[e])
    && (d in after.trackers ==>
          var t := after.trackers[d];
          && t.pit == sweep.source.pit && t.observed == r.observed && t.inputValid && t.scope == ScopeFor(sweep.source, sweep.s, r)
          && (t.episode.Some? <==> critical)
          && (critical ==>
                if d in w.trackers && w.trackers[d].episode.Some? && !Breaks(w.trackers[d], sweep, r, ttl)
                then t.episode == w.trackers[d].episode && after.episodes == w.episodes
                else t.episode == Some(w.episodes) && after.episodes == w.episodes + 1))
  }

  lemma EpisodeFollows(w: World, sweep: Sweep, limits: Limits)
    requires Evaluating(w, sweep)
    ensures TrackerFits(w, Swept(w, sweep, limits), sweep, sweep.s.reading.value,
                        StateAfter(w, sweep.source, sweep.s, sweep.filter, limits) == Critical, limits.ttl)
  {
  }
}
