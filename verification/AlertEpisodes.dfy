/** Alert episodes over any run of sweeps: the durable evidence of each, and what an interruption leaves of it. */
module AlertEpisodes {
  import opened Basics
  import opened StoredFilter
  import opened FillOperations
  import opened OperationRuns
  import opened OperationLaws

  // ---- The invariant of trackers and durable events ----

  /** A later event of an episode: same pit, device and scope, not earlier, and after alerts only. */
  predicate Succeeds(a: Event, b: Event) {
    && a.Created? && a.source == b.source && a.scope == b.scope && a.at <= b.at
    && (if b.Resolved? then a.observed < b.observed else a.observed <= b.observed)
  }

  predicate Ordered(log: seq<Event>) {
    forall i, j | 0 <= i < j < |log| && log[i].episode == log[j].episode :: Succeeds(log[i], log[j])
  }

  predicate Mentions(log: seq<Event>, n: nat, episode: nat) {
    exists i | 0 <= i < n && i < |log| :: log[i].episode == episode
  }

  /** Nothing is resolved that had no alert. */
  predicate Founded(log: seq<Event>) {
    forall j | 0 <= j < |log| && log[j].Resolved? :: Mentions(log, j, log[j].episode)
  }

  /** Events lie in the past and speak of episodes already handed out. */
  predicate Known(w: World, now: int) {
    && (forall i | 0 <= i < |w.log| :: w.log[i].episode < w.episodes && w.log[i].at <= now)
    && forall d <- w.trackers :: w.trackers[d].episode.Some? ==> w.trackers[d].episode.value < w.episodes
  }

  predicate Holds(w: World, d: nat, episode: nat) { d in w.trackers && w.trackers[d].episode == Some(episode) }

  /** No two devices hold one episode. */
  predicate Apart(w: World) {
    forall d <- w.trackers, e <- w.trackers ::
      d != e && w.trackers[d].episode.Some? ==> w.trackers[d].episode != w.trackers[e].episode
  }

  /** The event belongs to the open episode of a device's tracker. */
  predicate BelongsTo(event: Event, d: nat, t: Tracker) {
    event.Created? && event.source == Source(t.pit, d) && event.scope == t.scope && event.observed <= t.observed
  }

  /** A held episode has only alerts so far, all of this tracker, and the tracker knows whether there are any. */
  predicate Open(log: seq<Event>, d: nat, t: Tracker) {
    t.episode.Some? ==>
      && (forall i | 0 <= i < |log| && log[i].episode == t.episode.value :: BelongsTo(log[i], d, t))
      && (t.hasAlert <==> Mentions(log, |log|, t.episode.value))
  }

  predicate AllOpen(w: World) { forall d <- w.trackers :: Open(w.log, d, w.trackers[d]) }

  predicate Kept(w: World, now: int) {
    Ordered(w.log) && Founded(w.log) && Known(w, now) && Apart(w) && AllOpen(w)
  }

  // ---- One sweep keeps it ----

  lemma LaterIsKept(w: World, before: int, now: int)
    requires Kept(w, before) && before <= now
    ensures Kept(w, now)
  {
  }

  /** Putting a tracker without an episode, or with a fresh one, keeps everything else. */
  lemma ReplacingKeeps(w: World, d: nat, t: Tracker, now: int)
    requires Kept(w, now)
    requires t.episode.Some? ==> t.episode.value < w.episodes && !Mentions(w.log, |w.log|, t.episode.value) && !t.hasAlert
    requires t.episode.Some? ==> forall e <- w.trackers :: w.trackers[e].episode != t.episode
    ensures Kept(w.(trackers := w.trackers[d := t]), now)
  {
    hide Ordered, Founded, Succeeds, BelongsTo;
    var after := w.(trackers := w.trackers[d := t]);
    forall e <- after.trackers
      ensures Open(after.log, e, after.trackers[e])
    {
      assert e != d ==> Open(w.log, e, w.trackers[e]);
    }
  }

  /** The same episode goes on with a newer observation. */
  lemma ContinuingKeeps(w: World, d: nat, observed: int, now: int)
    requires Kept(w, now) && d in w.trackers && w.trackers[d].observed <= observed
    ensures Kept(w.(trackers := w.trackers[d := w.trackers[d].(observed := observed)]), now)
  {
    hide Ordered, Founded, Succeeds;
    var t := w.trackers[d].(observed := observed);
    var after := w.(trackers := w.trackers[d := t]);
    assert Open(w.log, d, w.trackers[d]);
    forall e <- after.trackers
      ensures Open(after.log, e, after.trackers[e])
    {
      assert e != d ==> Open(w.log, e, w.trackers[e]);
    }
  }

  /** An event of the open episode of a tracker joins the log in order. */
  lemma AppendKeepsOrder(w: World, d: nat, event: Event, now: int)
    requires Kept(w, now) && d in w.trackers && w.trackers[d].episode == Some(event.episode)
    requires event.at == now && event.source == Source(w.trackers[d].pit, d) && event.scope == w.trackers[d].scope
    requires event.observed >= w.trackers[d].observed
    requires event.Resolved? ==> event.observed > w.trackers[d].observed && w.trackers[d].hasAlert
    ensures Ordered(w.log + [event]) && Founded(w.log + [event])
  {
    var t := w.trackers[d];
    var log := w.log + [event];
    assert Open(w.log, d, t);
    forall i, j | 0 <= i < j < |log| && log[i].episode == log[j].episode
      ensures Succeeds(log[i], log[j])
    {
      if j == |w.log| {
        assert BelongsTo(w.log[i], d, t);
      }
    }
    forall j | 0 <= j < |log| && log[j].Resolved?
      ensures Mentions(log, j, log[j].episode)
    {
      assert Mentions(w.log, j, log[j].episode);
      var i :| 0 <= i < j && i < |w.log| && w.log[i].episode == log[j].episode;
      assert log[i].episode == log[j].episode;
    }
  }

  /** A resolution leaves the log in order once its tracker lets the episode go. */
  lemma ResolvingKeeps(w: World, d: nat, event: Event, t: Tracker, now: int)
    requires Kept(w, now) && d in w.trackers && w.trackers[d].episode == Some(event.episode)
    requires event.Resolved? && event.at == now && event.source == Source(w.trackers[d].pit, d) && event.scope == w.trackers[d].scope
    requires event.observed > w.trackers[d].observed && w.trackers[d].hasAlert && t.episode.None?
    ensures Kept(w.(log := w.log + [event], trackers := w.trackers[d := t]), now)
  {
    AppendKeepsOrder(w, d, event, now);
    hide Ordered, Founded, Succeeds, BelongsTo;
    var after := w.(log := w.log + [event], trackers := w.trackers[d := t]);
    forall e <- after.trackers
      ensures Open(after.log, e, after.trackers[e])
    {
      if e != d {
        OthersStayOpen(w.log, event, e, w.trackers[e]);
      }
    }
  }

  lemma OthersStayOpen(log: seq<Event>, event: Event, e: nat, t: Tracker)
    requires Open(log, e, t) && t.episode != Some(event.episode)
    ensures Open(log + [event], e, t)
  {
    hide BelongsTo;
    var longer := log + [event];
    if t.episode.Some? && t.hasAlert {
      var i :| 0 <= i < |log| && log[i].episode == t.episode.value;
      assert longer[i].episode == t.episode.value;
    }
  }

  /** An alert of the open episode. */
  lemma RecordingKeeps(w: World, source: Source, alert: Alert, now: int)
    requires Kept(w, now) && source.device in w.trackers && w.trackers[source.device].episode.Some?
    requires w.trackers[source.device].pit == source.pit && w.trackers[source.device].observed == alert.observed && alert.at == now
    ensures Kept(Recorded(w, source, alert), now)
  {
    var t := w.trackers[source.device];
    var event := Created(source, alert.at, |w.alerts|, t.episode.value, t.scope, alert.observed);
    AppendKeepsOrder(w, source.device, event, now);
    var after := Recorded(w, source, alert);
    assert Open(w.log, source.device, t);
    hide Ordered, Founded, Succeeds;
    assert after.log[|w.log|].episode == t.episode.value;
    forall e <- after.trackers
      ensures Open(after.log, e, after.trackers[e])
    {
      if e != source.device {
        OthersStayOpen(w.log, event, e, w.trackers[e]);
      }
    }
  }

  lemma FreshKeeps(w: World, d: nat, t: Tracker, now: int)
    requires Kept(w, now) && t.episode == Some(w.episodes) && !t.hasAlert
    ensures Kept(w.(episodes := w.episodes + 1, trackers := w.trackers[d := t]), now)
  {
    hide Ordered, Founded, Open;
    var bumped := w.(episodes := w.episodes + 1);
    ReplacingKeeps(bumped, d, t, now);
  }

  lemma AdvancingKeeps(w: World, source: Source, scope: EpisodeScope, observed: int, previous: AlarmState, current: AlarmState, now: int, ttl: nat)
    requires Kept(w, now)
    ensures Kept(Advanced(w, source, scope, observed, previous, current, now, ttl), now)
  {
    hide Kept;
    var d := source.device;
    var after := Advanced(w, source, scope, observed, previous, current, now, ttl);
    var carried := Carried(w, source, scope, observed, ttl);
    if current == Critical {
      if carried.Some? {
        assert after == w.(trackers := w.trackers[d := w.trackers[d].(observed := observed)]);
        ContinuingKeeps(w, d, observed, now);
      } else {
        FreshKeeps(w, d, after.trackers[d], now);
      }
    } else if Resolves(w, source, scope, observed, previous, current, ttl) {
      ResolvingKeeps(w, d, after.log[|w.log|], after.trackers[d], now);
    } else if after != w {
      ReplacingKeeps(w, d, after.trackers[d], now);
    }
  }

  lemma RowsDoNotMatter(w: World, v: World, now: int)
    requires Kept(w, now) && v.log == w.log && v.trackers == w.trackers && v.episodes == w.episodes
    ensures Kept(v, now)
  {
    hide Ordered, Founded, Open;
  }

  lemma SteppedTracker(w: World, source: Source, s: Snapshot, filter: Option<Filter>, now: int, limits: Limits)
    requires Evidence(s)
    ensures var after := Stepped(w, source, s, filter, now, limits);
            StateAfter(w, source, s, filter, limits) == Critical ==>
              && source.device in after.trackers && after.trackers[source.device].episode.Some?
              && after.trackers[source.device].pit == source.pit
              && after.trackers[source.device].observed == s.reading.value.observed
  {
    hide StateAfter, ScopeFor, Compatible;
  }

  /** One sweep, at a time not before any earlier one, keeps the invariant. */
  lemma SweepKeeps(w: World, sweep: Sweep, before: int, limits: Limits)
    requires Kept(w, before) && before <= sweep.now
    ensures Kept(Swept(w, sweep, limits), sweep.now)
  {
    hide Kept, Stepped, Recorded, OperationAfter, StateAfter;
    var source, s := sweep.source, sweep.s;
    LaterIsKept(w, before, sweep.now);
    InvalidatingKeeps(w, source, sweep.now);
    if !Evidence(s) {
      RowsDoNotMatter(Invalidated(w, source), Unconfirmed(Invalidated(w, source), source), sweep.now);
    } else if Evaluating(w, sweep) {
      EvaluatingKeeps(w, sweep, limits);
    }
  }

  lemma InvalidatingKeeps(w: World, source: Source, now: int)
    requires Kept(w, now)
    ensures Kept(Invalidated(w, source), now)
  {
    hide Kept;
    if Invalidates(w, source) {
      ReplacingKeeps(w, source.device, w.trackers[source.device].(episode := None, inputValid := false), now);
    }
  }

  lemma EvaluatingKeeps(w: World, sweep: Sweep, limits: Limits)
    requires Evidence(sweep.s) && Kept(w, sweep.now)
    ensures Kept(Evaluated(w, sweep.source, sweep.s, sweep.filter, sweep.now, limits), sweep.now)
  {
    hide Kept, Recorded, OperationAfter, StateAfter, Advanced;
    var source, s := sweep.source, sweep.s;
    var stepped := Stepped(w, source, s, sweep.filter, sweep.now, limits);
    AdvancingKeeps(w, source, ScopeFor(source, s, s.reading.value), s.reading.value.observed, Previous(w, source),
                   StateAfter(w, source, s, sweep.filter, limits), sweep.now, limits.ttl);
    SteppedTracker(w, source, s, sweep.filter, sweep.now, limits);
    var after := stepped;
    if Alerts(w, source, s, sweep.filter, sweep.now, limits) {
      var alert := Alert(source, sweep.now, Fill(s), s.reading.value.message, s.reading.value.observed);
      RecordingKeeps(stepped, source, alert, sweep.now);
      after := Recorded(stepped, source, alert);
    }
    RowsDoNotMatter(after, Evaluated(w, source, s, sweep.filter, sweep.now, limits), sweep.now);
  }

  /** The worker's clock does not run backwards. */
  predicate Clocked(sweeps: seq<Sweep>, from: int) {
    && (forall n | 0 <= n < |sweeps| :: from <= sweeps[n].now)
    && forall m, n | 0 <= m < n < |sweeps| :: sweeps[m].now <= sweeps[n].now
  }

  function ClockAt(sweeps: seq<Sweep>, n: nat, from: int): int
    requires n <= |sweeps|
  {
    if n == 0 then from else sweeps[n - 1].now
  }

  /** In every run the durable events of an episode are in order, founded, and closed by a resolution. */
  lemma {:induction false} RunKeeps(w: World, sweeps: seq<Sweep>, n: nat, from: int, limits: Limits)
    requires Kept(w, from) && Clocked(sweeps, from) && n <= |sweeps|
    ensures Kept(At(w, sweeps, n, limits), ClockAt(sweeps, n, from))
  {
    hide Kept, Swept, At;
    if n == 0 {
      AtStart(w, sweeps, limits);
    } else {
      RunKeeps(w, sweeps, n - 1, from, limits);
      AtNext(w, sweeps, n - 1, limits);
      SweepKeeps(At(w, sweeps, n - 1, limits), sweeps[n - 1], ClockAt(sweeps, n - 1, from), limits);
    }
  }

  lemma EmptyIsKept(now: int)
    ensures Kept(World(map[], map[], [], [], 0), now)
  {
  }

  // ---- The trace of one episode ----

  function TraceOf(log: seq<Event>, episode: nat): seq<Event> {
    if log == [] then []
    else
      var n := |log| - 1;
      TraceOf(log[..n], episode) + if log[n].episode == episode then [log[n]] else []
  }

  lemma {:induction false} TraceIsDrawn(log: seq<Event>, n: nat, episode: nat, i: nat) returns (k: nat)
    requires n <= |log| && i < |TraceOf(log[..n], episode)|
    ensures k < n && log[k].episode == episode && log[k] == TraceOf(log[..n], episode)[i]
  {
    assert log[..n][..n - 1] == log[..n - 1];
    if i < |TraceOf(log[..n - 1], episode)| {
      k := TraceIsDrawn(log, n - 1, episode, i);
    } else {
      k := n - 1;
    }
  }

  lemma {:induction false} TraceIsComplete(log: seq<Event>, n: nat, episode: nat, k: nat)
    requires k < n <= |log| && log[k].episode == episode
    ensures log[k] in TraceOf(log[..n], episode)
  {
    assert log[..n][..n - 1] == log[..n - 1];
    if k < n - 1 {
      TraceIsComplete(log, n - 1, episode, k);
    }
  }

  /** Alerts, then at most one resolution: every event but the last is an alert, and the first one is. */
  predicate WellFormedTrace(trace: seq<Event>) {
    && (trace != [] ==> trace[0].Created?)
    && forall i, j | 0 <= i < j < |trace| :: Succeeds(trace[i], trace[j])
  }

  lemma {:induction false} TraceIsOrdered(log: seq<Event>, n: nat, episode: nat)
    requires Ordered(log) && Founded(log) && n <= |log|
    ensures WellFormedTrace(TraceOf(log[..n], episode))
  {
    hide Succeeds;
    if n > 0 {
      assert log[..n][..n - 1] == log[..n - 1];
      TraceIsOrdered(log, n - 1, episode);
      if log[n - 1].episode == episode {
        TracePrecedes(log, n - 1, episode);
      }
    }
  }

  lemma TracePrecedes(log: seq<Event>, n: nat, episode: nat)
    requires Ordered(log) && Founded(log) && n < |log| && log[n].episode == episode
    ensures forall i | 0 <= i < |TraceOf(log[..n], episode)| :: Succeeds(TraceOf(log[..n], episode)[i], log[n])
    ensures log[n].Resolved? ==> TraceOf(log[..n], episode) != []
  {
    hide Succeeds;
    var trace := TraceOf(log[..n], episode);
    forall i | 0 <= i < |trace| ensures Succeeds(trace[i], log[n]) {
      var k := TraceIsDrawn(log, n, episode, i);
    }
    if log[n].Resolved? {
      assert Mentions(log, n, episode);
      var k :| 0 <= k < n && k < |log| && log[k].episode == episode;
      TraceIsComplete(log, n, episode, k);
    }
  }

  /**
   * From empty tables, after any run on a clock that does not go back, the durable trace of each
   * episode is one or more alerts of one pit, device and scope, followed by at most one resolution.
   */
  lemma EpisodeTraces(sweeps: seq<Sweep>, episode: nat, from: int, limits: Limits)
    requires Clocked(sweeps, from)
    ensures WellFormedTrace(TraceOf(At(World(map[], map[], [], [], 0), sweeps, |sweeps|, limits).log, episode))
  {
    hide Clocked, Ordered, Founded, WellFormedTrace, At;
    var empty := World(map[], map[], [], [], 0);
    EmptyIsKept(from);
    RunKeeps(empty, sweeps, |sweeps|, from, limits);
    var log := At(empty, sweeps, |sweeps|, limits).log;
    assert log[..|log|] == log;
    TraceIsOrdered(log, |log|, episode);
  }

  // ---- Interrupted episodes ----

  /** An episode handed out before and held by no tracker any more. */
  predicate Gone(w: World, episode: nat) {
    episode < w.episodes && forall d <- w.trackers :: w.trackers[d].episode != Some(episode)
  }

  predicate Resolving(w: World, sweep: Sweep, limits: Limits)
    requires Evidence(sweep.s)
  {
    Resolves(w, sweep.source, ScopeFor(sweep.source, sweep.s, sweep.s.reading.value), sweep.s.reading.value.observed,
             Previous(w, sweep.source), StateAfter(w, sweep.source, sweep.s, sweep.filter, limits), limits.ttl)
  }

  /** The episode this evaluation goes on with, if the stored one is compatible. */
  function CarriedBy(w: World, sweep: Sweep, limits: Limits): Option<nat>
    requires Evidence(sweep.s)
  {
    Carried(w, sweep.source, ScopeFor(sweep.source, sweep.s, sweep.s.reading.value), sweep.s.reading.value.observed, limits.ttl)
  }

  function EpisodeBy(w: World, sweep: Sweep, limits: Limits): Option<nat>
    requires Evidence(sweep.s)
  {
    EpisodeAfter(w, sweep.source, ScopeFor(sweep.source, sweep.s, sweep.s.reading.value), sweep.s.reading.value.observed,
                 StateAfter(w, sweep.source, sweep.s, sweep.filter, limits), limits.ttl)
  }

  /** What one sweep adds to the log. */
  lemma SweepLogs(w: World, sweep: Sweep, limits: Limits)
    ensures var after := Swept(w, sweep, limits);
            if !Evaluating(w, sweep) then after.log == w.log
            else if Resolving(w, sweep, limits) then
              && |after.log| == |w.log| + 1 && after.log[..|w.log|] == w.log
              && after.log[|w.log|].Resolved? && CarriedBy(w, sweep, limits) == Some(after.log[|w.log|].episode)
              && after.log[|w.log|].at == sweep.now && after.log[|w.log|].observed == sweep.s.reading.value.observed
              && !Alerts(w, sweep.source, sweep.s, sweep.filter, sweep.now, limits)
            else if Alerts(w, sweep.source, sweep.s, sweep.filter, sweep.now, limits) then
              && |after.log| == |w.log| + 1 && after.log[..|w.log|] == w.log
              && after.log[|w.log|].Created? && EpisodeBy(w, sweep, limits) == Some(after.log[|w.log|].episode)
              && after.log[|w.log|].at == sweep.now && after.log[|w.log|].observed == sweep.s.reading.value.observed
              && after.log[|w.log|].source == sweep.source && after.log[|w.log|].alert == |w.alerts|
            else after.log == w.log
  {
    hide StateAfter, ScopeFor, Compatible, OperationAfter, PriorAlert;
  }

  /** What one sweep does to the tracker of its device. */
  lemma SweepTracks(w: World, sweep: Sweep, limits: Limits)
    ensures var after := Swept(w, sweep, limits);
            var d := sweep.source.device;
            && w.episodes <= after.episodes
            && (forall e <- after.trackers :: e != d ==> e in w.trackers && after.trackers[e] == w.trackers[e])
            && (d in after.trackers ==>
                  if Evaluating(w, sweep) then after.trackers[d].episode == EpisodeBy(w, sweep, limits)
                  else d in w.trackers && after.trackers[d].episode == if !AlreadySeenBy(w, sweep) && Invalidates(w, sweep.source)
                                                                       then None else w.trackers[d].episode)
  {
    hide StateAfter, ScopeFor, OperationAfter, PriorAlert, Compatible, Advanced;
    if Evaluating(w, sweep) {
      SteppedTracks(w, sweep, limits);
      assert Alerts(w, sweep.source, sweep.s, sweep.filter, sweep.now, limits) ==> EpisodeBy(w, sweep, limits).Some?;
    }
  }

  lemma SteppedTracks(w: World, sweep: Sweep, limits: Limits)
    requires Evidence(sweep.s)
    ensures var after := Stepped(w, sweep.source, sweep.s, sweep.filter, sweep.now, limits);
            var d := sweep.source.device;
            && w.episodes <= after.episodes
            && (forall e <- after.trackers :: e != d ==> e in w.trackers && after.trackers[e] == w.trackers[e])
            && (d in after.trackers ==> after.trackers[d].episode == EpisodeBy(w, sweep, limits))
            && (d !in after.trackers ==> EpisodeBy(w, sweep, limits).None?)
  {
    hide StateAfter, ScopeFor, Compatible;
  }

  predicate AlreadySeenBy(w: World, sweep: Sweep) {
    Evidence(sweep.s) && AlreadySeen(w, sweep.source, sweep.s.reading.value)
  }

  lemma {:induction false} TraceAppends(log: seq<Event>, event: Event, episode: nat)
    ensures TraceOf(log + [event], episode) == TraceOf(log, episode) + if event.episode == episode then [event] else []
  {
    assert (log + [event])[..|log|] == log;
  }

  /** An episode that is gone stays gone, and nothing more is written about it. */
  lemma SweepLeavesGone(w: World, sweep: Sweep, episode: nat, limits: Limits)
    requires Gone(w, episode)
    ensures Gone(Swept(w, sweep, limits), episode)
    ensures TraceOf(Swept(w, sweep, limits).log, episode) == TraceOf(w.log, episode)
  {
    SweepLogs(w, sweep, limits);
    SweepTracks(w, sweep, limits);
    hide Swept, StateAfter, ScopeFor, Evaluates, Alerts;
    var after := Swept(w, sweep, limits);
    if after.log != w.log {
      assert after.log == w.log + [after.log[|w.log|]];
      TraceAppends(w.log, after.log[|w.log|], episode);
    }
  }

  lemma {:induction false} RunLeavesGone(w: World, sweeps: seq<Sweep>, m: nat, n: nat, episode: nat, limits: Limits)
    requires m <= n <= |sweeps| && Gone(At(w, sweeps, m, limits), episode)
    ensures Gone(At(w, sweeps, n, limits), episode)
    ensures TraceOf(At(w, sweeps, n, limits).log, episode) == TraceOf(At(w, sweeps, m, limits).log, episode)
  {
    hide Swept, Gone, At, TraceOf;
    if m < n {
      RunLeavesGone(w, sweeps, m, n - 1, episode, limits);
      AtNext(w, sweeps, n - 1, limits);
      SweepLeavesGone(At(w, sweeps, n - 1, limits), sweeps[n - 1], episode, limits);
    }
  }

  /**
   * A sweep of the holder's device that interrupts its episode: a gap of the pit, without usable evidence or with
   * thresholds not in order, or a reading that is news but breaks with what the episode rests on or comes too late.
   */
  predicate Interrupts(w: World, sweep: Sweep, episode: nat, limits: Limits) {
    && Holds(w, sweep.source.device, episode)
    && var t := w.trackers[sweep.source.device];
    && (if !HasEvidence(sweep.s) then t.pit == sweep.source.pit
        else && IsNews(w, sweep, sweep.s.reading.value)
             && if InOrder(sweep.s) then Breaks(t, sweep, sweep.s.reading.value, limits.ttl) else t.pit == sweep.source.pit)
  }

  lemma InterruptedIsNotCarried(w: World, sweep: Sweep, episode: nat, limits: Limits)
    requires Interrupts(w, sweep, episode, limits)
    ensures !AlreadySeenBy(w, sweep)
    ensures if Evaluating(w, sweep) then CarriedBy(w, sweep, limits).None? else w.trackers[sweep.source.device].pit == sweep.source.pit
  {
    if Evaluating(w, sweep) && CarriedBy(w, sweep, limits).Some? {
      CarriedIff(w, sweep, CarriedBy(w, sweep, limits).value, limits.ttl);
    }
  }

  lemma InterruptedIsGone(w: World, sweep: Sweep, episode: nat, now: int, limits: Limits)
    requires Kept(w, now) && Interrupts(w, sweep, episode, limits)
    ensures Gone(Swept(w, sweep, limits), episode)
    ensures TraceOf(Swept(w, sweep, limits).log, episode) == TraceOf(w.log, episode)
  {
    SweepLogs(w, sweep, limits);
    SweepTracks(w, sweep, limits);
    InterruptedIsNotCarried(w, sweep, episode, limits);
    hide Swept, StateAfter, ScopeFor, Evaluates, Alerts, Ordered, Founded, AllOpen, Compatible, Breaks, IsNews;
    var after := Swept(w, sweep, limits);
    if after.log != w.log {
      assert after.log == w.log + [after.log[|w.log|]];
      TraceAppends(w.log, after.log[|w.log|], episode);
    }
  }

  /** Only alerts have been written about an episode that is still held. */
  lemma {:induction false} HeldHasAlertsOnly(w: World, d: nat, n: nat, episode: nat)
    requires AllOpen(w) && Holds(w, d, episode) && n <= |w.log|
    ensures forall i | 0 <= i < |TraceOf(w.log[..n], episode)| :: TraceOf(w.log[..n], episode)[i].Created?
  {
    hide Mentions;
    if n > 0 {
      assert w.log[..n][..n - 1] == w.log[..n - 1];
      HeldHasAlertsOnly(w, d, n - 1, episode);
      assert Open(w.log, d, w.trackers[d]);
      assert w.log[n - 1].episode == episode ==> BelongsTo(w.log[n - 1], d, w.trackers[d]);
    }
  }

  /**
   * An episode that is interrupted is never resolved: from that sweep on nothing is written about
   * it, whatever happens later, and until then there were only alerts.
   */
  lemma InterruptedNeverResolves(w: World, sweeps: seq<Sweep>, m: nat, n: nat, episode: nat, from: int, limits: Limits)
    requires Kept(w, from) && Clocked(sweeps, from) && m < n <= |sweeps|
    requires Interrupts(At(w, sweeps, m, limits), sweeps[m], episode, limits)
    ensures TraceOf(At(w, sweeps, n, limits).log, episode) == TraceOf(At(w, sweeps, m, limits).log, episode)
    ensures forall i | 0 <= i < |TraceOf(At(w, sweeps, n, limits).log, episode)| ::
              TraceOf(At(w, sweeps, n, limits).log, episode)[i].Created?
  {
    hide Swept, Gone, At, TraceOf, Ordered, Founded, AllOpen, Clocked;
    RunKeeps(w, sweeps, m, from, limits);
    var before := At(w, sweeps, m, limits);
    InterruptedIsGone(before, sweeps[m], episode, ClockAt(sweeps, m, from), limits);
    AtNext(w, sweeps, m, limits);
    RunLeavesGone(w, sweeps, m + 1, n, episode, limits);
    assert before.log[..|before.log|] == before.log;
    HeldHasAlertsOnly(before, sweeps[m].source.device, |before.log|, episode);
  }

  /**
   * A sweep resolves an episode exactly when it evaluates a reading that goes on with that episode, an alert
   * of it is on record, the alarm was raised, and the level is at or below the recovery level.
   */
  lemma ResolvedIffRecovered(w: World, sweep: Sweep, episode: nat, now: int, limits: Limits)
    requires Kept(w, now)
    ensures (exists i | |w.log| <= i < |Swept(w, sweep, limits).log| ::
               Swept(w, sweep, limits).log[i].Resolved? && Swept(w, sweep, limits).log[i].episode == episode)
       <==> && Evaluating(w, sweep) && GoesOn(w, sweep, sweep.s.reading.value, episode, limits.ttl)
            && Mentions(w.log, |w.log|, episode)
            && IsCritical(w, sweep.source) && Fill(sweep.s) <= sweep.s.critical - 5.0
  {
    SweepLogs(w, sweep, limits);
    if Evaluating(w, sweep) {
      CarriedIff(w, sweep, episode, limits.ttl);
    }
    var after := Swept(w, sweep, limits);
    hide Swept, ScopeFor, Alerts, Ordered, Founded, GoesOn;
    if Evaluating(w, sweep) && CarriedBy(w, sweep, limits) == Some(episode) {
      assert Open(w.log, sweep.source.device, w.trackers[sweep.source.device]);
    }
    if Evaluating(w, sweep) && Resolving(w, sweep, limits) {
      assert after.log[|w.log|].Resolved?;
    }
  }
}
