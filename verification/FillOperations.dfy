/** The operations worker: alarm hysteresis, confirmation, cooldown and the alert episode behind it. */
module FillOperations {
  import opened Basics
  import opened StoredFilter

  /** A pit and the site and edge device that observes it now. */
  datatype Source = Source(pit: nat, device: nat)

  datatype AlarmState = Normal | Warning | Critical

  datatype Operation = Operation(device: nat, state: AlarmState, message: nat, generated: int, observed: int,
                                 criticalSince: Option<int>, lastAlert: Option<LastAlert>)
  datatype LastAlert = LastAlert(at: int, alert: nat)

  /** What an episode may not outlive; the stored digest of it stands for the value itself. */
  datatype EpisodeScope = EpisodeScope(source: Source, config: nat, rule: nat, methodVersion: Option<nat>, token: Option<nat>,
                                       input: InputSource, simulated: bool,
                                       warning: real, critical: real, recovery: real, instance: Option<nat>)

  datatype Tracker = Tracker(pit: nat, scope: EpisodeScope, episode: Option<nat>, observed: int,
                             inputValid: bool, hasAlert: bool)

  /** Durable evidence of an alert's life. */
  datatype Event =
    | Created(source: Source, at: int, alert: nat, episode: nat, scope: EpisodeScope, observed: int)
    | Resolved(source: Source, at: int, episode: nat, scope: EpisodeScope, observed: int)

  /** A recorded alert and its link to the observation behind it. */
  datatype Alert = Alert(source: Source, at: int, fill: real, message: nat, observed: int)

  datatype Reading = Reading(source: InputSource, config: nat, rule: nat, methodVersion: Option<nat>, token: Option<nat>,
                             simulated: bool, message: nat, generated: int, observed: int, value: real)

  datatype Filtering = Disabled | FilterWarming | FilterReady | FilterUnavailable

  datatype Snapshot = Snapshot(usable: bool, reading: Option<Reading>, fill: Option<real>, filtering: Filtering,
                               warning: real, critical: real, instance: Option<nat>)

  datatype Limits = Limits(confirm: nat, cooldown: nat, ttl: nat)

  /** The tables one sweep reads and writes. Episode identifiers are handed out in order. */
  datatype World = World(operations: map<nat, Operation>, trackers: map<nat, Tracker>,
                         log: seq<Event>, alerts: seq<Alert>, episodes: nat)

  // ---- Episodes ----

  function ScopeFor(source: Source, s: Snapshot, r: Reading): EpisodeScope {
    EpisodeScope(source, r.config, r.rule, r.methodVersion, r.token, r.source, r.simulated,
                 s.warning, s.critical, Max(0.0, s.critical - 5.0), s.instance)
  }

  /** The device's tracker belongs to the pit and has something left to invalidate. */
  predicate Invalidates(w: World, source: Source) {
    && source.device in w.trackers
    && w.trackers[source.device].pit == source.pit
    && (w.trackers[source.device].episode.Some? || w.trackers[source.device].inputValid)
  }

  function Invalidated(w: World, source: Source): World {
    if Invalidates(w, source) then
      w.(trackers := w.trackers[source.device := w.trackers[source.device].(episode := None, inputValid := false)])
    else w
  }

  /** The stored episode may go on with this observation. */
  predicate Compatible(w: World, source: Source, scope: EpisodeScope, observed: int, ttl: nat) {
    && source.device in w.trackers
    && var t := w.trackers[source.device];
    && t.pit == source.pit && t.scope == scope && t.inputValid && 0 < observed - t.observed < ttl * SECOND
  }

  function Carried(w: World, source: Source, scope: EpisodeScope, observed: int, ttl: nat): Option<nat> {
    if Compatible(w, source, scope, observed, ttl) then w.trackers[source.device].episode else None
  }

  predicate CarriedAlert(w: World, source: Source, scope: EpisodeScope, observed: int, ttl: nat) {
    Carried(w, source, scope, observed, ttl).Some? && w.trackers[source.device].hasAlert
  }

  /** An observation that ends an alerted episode by itself: the only thing that resolves one. */
  predicate Resolves(w: World, source: Source, scope: EpisodeScope, observed: int, previous: AlarmState, current: AlarmState, ttl: nat) {
    CarriedAlert(w, source, scope, observed, ttl) && previous == Critical && current != Critical
  }

  function EpisodeAfter(w: World, source: Source, scope: EpisodeScope, observed: int, current: AlarmState, ttl: nat): Option<nat> {
    if current != Critical then None
    else if Carried(w, source, scope, observed, ttl).Some? then Carried(w, source, scope, observed, ttl)
    else Some(w.episodes)
  }

  function Advanced(w: World, source: Source, scope: EpisodeScope, observed: int, previous: AlarmState, current: AlarmState,
                    now: int, ttl: nat): World
  {
    var carried := Carried(w, source, scope, observed, ttl);
    var episode := EpisodeAfter(w, source, scope, observed, current, ttl);
    var log := if Resolves(w, source, scope, observed, previous, current, ttl)
               then w.log + [Resolved(source, now, carried.value, scope, observed)] else w.log;
    var episodes := if current == Critical && carried.None? then w.episodes + 1 else w.episodes;
    var kept := current == Critical && CarriedAlert(w, source, scope, observed, ttl);
    w.(log := log, episodes := episodes,
       trackers := if source.device !in w.trackers && episode.None? then w.trackers
                   else w.trackers[source.device := Tracker(source.pit, scope, episode, observed, true, kept)])
  }

  // ---- Alarm state ----

  function Previous(w: World, source: Source): AlarmState {
    if source.pit in w.operations && w.operations[source.pit].device == source.device
    then w.operations[source.pit].state else Normal
  }

  /** The device's own row has already evaluated this observation, or a later one. */
  predicate AlreadySeen(w: World, source: Source, r: Reading) {
    && source.pit in w.operations && w.operations[source.pit].device == source.device
    && (r.generated <= w.operations[source.pit].generated || r.observed <= w.operations[source.pit].observed)
  }

  predicate ThresholdsMakeSense(s: Snapshot) {
    0.0 <= s.warning <= s.critical - 5.0 && s.critical <= 100.0
  }

  predicate Evidence(s: Snapshot) { s.usable && s.reading.Some? && s.fill.Some? }

  function Fill(s: Snapshot): real
    requires Evidence(s)
  {
    if s.filtering == Disabled then s.reading.value.value else s.fill.value
  }

  predicate Evaluates(w: World, source: Source, s: Snapshot) {
    Evidence(s) && !AlreadySeen(w, source, s.reading.value) && ThresholdsMakeSense(s)
  }

  /** The receiver's timer, when the stored filter still belongs to this observation and threshold. */
  function ReceiverTimer(s: Snapshot, filter: Option<Filter>): Option<int>
    requires Evidence(s)
  {
    if filter.Some? && filter.value.message == s.reading.value.message && filter.value.scope.threshold == s.critical
    then filter.value.aboveSince else None
  }

  function PendingSince(previous: AlarmState, s: Snapshot, filter: Option<Filter>): Option<int>
    requires Evidence(s)
  {
    if s.filtering == FilterReady && previous != Critical && Fill(s) >= s.critical then
      if ReceiverTimer(s, filter).Some? then ReceiverTimer(s, filter) else Some(s.reading.value.observed)
    else None
  }

  predicate Confirmed(previous: AlarmState, s: Snapshot, filter: Option<Filter>, confirm: nat)
    requires Evidence(s)
  {
    && Fill(s) >= s.critical
    && (s.filtering == FilterReady && previous != Critical ==>
          s.reading.value.observed - PendingSince(previous, s, filter).value >= confirm * SECOND)
  }

  function NextState(previous: AlarmState, s: Snapshot, filter: Option<Filter>, confirm: nat): AlarmState
    requires Evidence(s)
  {
    if previous == Critical && Fill(s) > s.critical - 5.0 then Critical
    else if Confirmed(previous, s, filter, confirm) then Critical
    else if Fill(s) >= s.warning then Warning
    else Normal
  }

  function StateAfter(w: World, source: Source, s: Snapshot, filter: Option<Filter>, limits: Limits): AlarmState
    requires Evidence(s)
  {
    NextState(Previous(w, source), s, filter, limits.confirm)
  }

  // ---- One evaluation ----

  function PriorAlert(w: World, source: Source): Option<LastAlert> {
    if source.pit in w.operations then w.operations[source.pit].lastAlert else None
  }

  predicate Alerts(w: World, source: Source, s: Snapshot, filter: Option<Filter>, now: int, limits: Limits)
    requires Evidence(s)
  {
    && StateAfter(w, source, s, filter, limits) == Critical
    && (PriorAlert(w, source).Some? ==> now - PriorAlert(w, source).value.at >= limits.cooldown * SECOND)
  }

  function OperationAfter(w: World, source: Source, s: Snapshot, filter: Option<Filter>, now: int, limits: Limits): Operation
    requires Evidence(s)
  {
    var r := s.reading.value;
    Operation(source.device, StateAfter(w, source, s, filter, limits), r.message, r.generated, r.observed,
              PendingSince(Previous(w, source), s, filter),
              if Alerts(w, source, s, filter, now, limits) then Some(LastAlert(now, |w.alerts|)) else PriorAlert(w, source))
  }

  /** The episode step of an evaluation, before its alert. */
  function Stepped(w: World, source: Source, s: Snapshot, filter: Option<Filter>, now: int, limits: Limits): World
    requires Evidence(s)
  {
    Advanced(w, source, ScopeFor(source, s, s.reading.value), s.reading.value.observed,
             Previous(w, source), StateAfter(w, source, s, filter, limits), now, limits.ttl)
  }

  /** An alert of the device's current episode. */
  function Recorded(w: World, source: Source, alert: Alert): World
    requires source.device in w.trackers && w.trackers[source.device].episode.Some?
  {
    var t := w.trackers[source.device];
    w.(alerts := w.alerts + [alert],
       trackers := w.trackers[source.device := t.(hasAlert := true)],
       log := w.log + [Created(source, alert.at, |w.alerts|, t.episode.value, t.scope, alert.observed)])
  }

  function Evaluated(w: World, source: Source, s: Snapshot, filter: Option<Filter>, now: int, limits: Limits): World
    requires Evidence(s)
  {
    var stepped := Stepped(w, source, s, filter, now, limits);
    var row := OperationAfter(w, source, s, filter, now, limits);
    var after := if Alerts(w, source, s, filter, now, limits)
                 then Recorded(stepped, source, Alert(source, now, Fill(s), s.reading.value.message, s.reading.value.observed))
                 else stepped;
    after.(operations := w.operations[source.pit := row])
  }

  function Unconfirmed(w: World, source: Source): World {
    if source.pit in w.operations
    then w.(operations := w.operations[source.pit := w.operations[source.pit].(criticalSince := None)])
    else w
  }

  /** One sweep of one source. */
  function Processed(w: World, source: Source, s: Snapshot, filter: Option<Filter>, now: int, limits: Limits): World {
    if !Evidence(s) then Unconfirmed(Invalidated(w, source), source)
    else if AlreadySeen(w, source, s.reading.value) then w
    else if !ThresholdsMakeSense(s) then Invalidated(w, source)
    else Evaluated(w, source, s, filter, now, limits)
  }

  /** The recorded change of a pit's alarm state; only evaluations on a ready filter record one. */
  datatype Transition = Transition(source: Source, observed: int, previous: AlarmState, current: AlarmState, fill: real)

  function ChangeOf(source: Source, s: Snapshot, previous: AlarmState, current: AlarmState): Option<Transition>
    requires Evidence(s)
  {
    if s.filtering == FilterReady && previous != current
    then Some(Transition(source, s.reading.value.observed, previous, current, Fill(s))) else None
  }

  function TransitionOf(w: World, source: Source, s: Snapshot, filter: Option<Filter>, limits: Limits): Option<Transition>
    requires Evidence(s)
  {
    ChangeOf(source, s, Previous(w, source), StateAfter(w, source, s, filter, limits))
  }

  // ---- The tables as the worker updates them ----

  class Tables {
    var operations: map<nat, Operation>
    var trackers: map<nat, Tracker>
    var log: seq<Event>
    var alerts: seq<Alert>
    var episodes: nat

    function View(): World
      reads this
    {
      World(operations, trackers, log, alerts, episodes)
    }

    constructor ()
      ensures View() == World(map[], map[], [], [], 0)
    {
      operations, trackers, log, alerts, episodes := map[], map[], [], [], 0;
    }

    method InvalidateEpisode(source: Source) returns (changed: bool)
      modifies this
      ensures View() == Invalidated(old(View()), source)
      ensures changed == Invalidates(old(View()), source)
    {
      if source.device !in trackers || trackers[source.device].pit != source.pit {
        return false;
      }
      var row := trackers[source.device];
      if row.episode.None? && !row.inputValid {
        return false;
      }
      trackers := trackers[source.device := row.(episode := None, inputValid := false)];
      return true;
    }

    method AdvanceEpisode(source: Source, scope: EpisodeScope, observed: int, previous: AlarmState, current: AlarmState, now: int, ttl: nat)
      returns (episode: Option<nat>)
      modifies this
      ensures View() == Advanced(old(View()), source, scope, observed, previous, current, now, ttl)
      ensures episode == EpisodeAfter(old(View()), source, scope, observed, current, ttl)
    {
      var identifier: Option<nat> := None;
      var hasAlert := false;
      if source.device in trackers {
        var row := trackers[source.device];
        if row.pit == source.pit && row.scope == scope && row.inputValid && 0 < observed - row.observed < ttl * SECOND {
          identifier := row.episode;
        }
        hasAlert := identifier.Some? && row.hasAlert;
      }
      if current == Critical {
        if identifier.None? {
          identifier := Some(episodes);
          episodes := episodes + 1;
        }
      } else {
        if identifier.Some? && hasAlert && previous == Critical {
          log := log + [Resolved(source, now, identifier.value, scope, observed)];
        }
        identifier, hasAlert := None, false;
      }
      if source.device !in trackers && identifier.None? {
        return None;
      }
      trackers := trackers[source.device := Tracker(source.pit, scope, identifier, observed, true, hasAlert)];
      return identifier;
    }

    method RecordAlert(source: Source, alert: Alert)
      requires source.device in trackers && trackers[source.device].episode.Some?
      modifies this
      ensures View() == Recorded(old(View()), source, alert)
    {
      var row := trackers[source.device];
      var identifier := |alerts|;
      alerts := alerts + [alert];
      trackers := trackers[source.device := row.(hasAlert := true)];
      log := log + [Created(source, alert.at, identifier, row.episode.value, row.scope, alert.observed)];
    }

    /** The sweep of one source: cursor, hysteresis, episode and notification together. */
    method ProcessSource(source: Source, s: Snapshot, filter: Option<Filter>, now: int, limits: Limits) returns (changed: Option<Transition>)
      modifies this
      ensures View() == Processed(old(View()), source, s, filter, now, limits)
      ensures changed == if Evaluates(old(View()), source, s) then TransitionOf(old(View()), source, s, filter, limits) else None
    {
      hide Evaluated, Invalidated, TransitionOf;
      changed := None;
      if !s.usable || s.reading.None? || s.fill.None? {
        var _ := InvalidateEpisode(source);
        if source.pit in operations && operations[source.pit].criticalSince.Some? {
          operations := operations[source.pit := operations[source.pit].(criticalSince := None)];
        } else {
          assert source.pit in operations ==> operations[source.pit := operations[source.pit].(criticalSince := None)] == operations;
        }
        return;
      }
      var r := s.reading.value;
      var same := source.pit in operations && operations[source.pit].device == source.device;
      if same && (r.generated <= operations[source.pit].generated || r.observed <= operations[source.pit].observed) {
        return;
      }
      if !(0.0 <= s.warning <= s.critical - 5.0 && s.critical <= 100.0) {
        var _ := InvalidateEpisode(source);
        return;
      }
      changed := Evaluate(source, s, filter, now, limits);
    }

    /** The part of a sweep that is reached with new evidence and sensible thresholds. */
    method Evaluate(source: Source, s: Snapshot, filter: Option<Filter>, now: int, limits: Limits) returns (changed: Option<Transition>)
      requires Evidence(s)
      modifies this
      ensures View() == Evaluated(old(View()), source, s, filter, now, limits)
      ensures changed == TransitionOf(old(View()), source, s, filter, limits)
    {
      hide Advanced, ScopeFor, PendingSince, NextState, ChangeOf;
      var r := s.reading.value;
      var same := source.pit in operations && operations[source.pit].device == source.device;
      var fill := if s.filtering == Disabled then r.value else s.fill.value;
      var previous := if same then operations[source.pit].state else Normal;
      var pending, current := Decide(previous, s, filter, limits.confirm);
      changed := ChangeOf(source, s, previous, current);
      var last := if source.pit in operations then operations[source.pit].lastAlert else None;
      AdvancedKeepsEpisode(View(), source, ScopeFor(source, s, r), r.observed, previous, current, now, limits.ttl);
      var episode := AdvanceEpisode(source, ScopeFor(source, s, r), r.observed, previous, current, now, limits.ttl);
      if current == Critical && (last.None? || now - last.value.at >= limits.cooldown * SECOND) {
        last := Some(LastAlert(now, |alerts|));
        RecordAlert(source, Alert(source, now, fill, r.message, r.observed));
      }
      operations := operations[source.pit := Operation(source.device, current, r.message, r.generated, r.observed, pending, last)];
    }

    method Decide(previous: AlarmState, s: Snapshot, filter: Option<Filter>, confirm: nat) returns (pending: Option<int>, current: AlarmState)
      requires Evidence(s)
      ensures pending == PendingSince(previous, s, filter)
      ensures current == NextState(previous, s, filter, confirm)
    {
      var r := s.reading.value;
      var fill := if s.filtering == Disabled then r.value else s.fill.value;
      var confirmed := false;
      pending := None;
      if s.filtering == FilterReady && previous != Critical {
        if filter.Some? && filter.value.message == r.message && filter.value.scope.threshold == s.critical {
          pending := filter.value.aboveSince;
        }
        if fill >= s.critical {
          pending := if pending.Some? then pending else Some(r.observed);
          confirmed := r.observed - pending.value >= confirm * SECOND;
        } else {
          pending := None;
        }
      } else {
        confirmed := fill >= s.critical;
      }
      if previous == Critical && fill > s.critical - 5.0 {
        current := Critical;
      } else if fill >= s.critical && confirmed {
        current := Critical;
      } else if fill >= s.warning {
        current := Warning;
      } else {
        current := Normal;
      }
    }
  }

  lemma AdvancedKeepsEpisode(w: World, source: Source, scope: EpisodeScope, observed: int, previous: AlarmState, current: AlarmState,
                             now: int, ttl: nat)
    ensures var after := Advanced(w, source, scope, observed, previous, current, now, ttl);
            && after.operations == w.operations && after.alerts == w.alerts
            && (current == Critical ==>
                  && source.device in after.trackers && after.trackers[source.device].episode.Some?
                  && after.trackers[source.device].scope == scope)
  {
  }
}
