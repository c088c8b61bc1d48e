/** The reader of durable evidence: which alerts it calls resolved or active, and that it is right. */
module AlertLifecycles {
  import opened Basics
  import opened FillOperations
  import opened OperationRuns
  import opened OperationLaws
  import opened AlertEpisodes

  datatype Lifecycle = Unknown | Active | Closed(resolvedAt: int, observedAt: int)

  /** What evidence of one episode is looked up by. */
  datatype Key = Key(device: nat, episode: nat, scope: EpisodeScope)

  function KeyOf(event: Event): Key { Key(event.source.device, event.episode, event.scope) }

  // ---- The episode that is open now ----

  /** What the reader sees of the pit now: its configured source, its snapshot, and whether it is evaluated as critical. */
  datatype Present = Present(source: Option<Source>, s: Snapshot, critical: bool)

  predicate ScopeIsCurrent(t: Tracker, source: Source, s: Snapshot) {
    s.reading.Some? && t.scope == ScopeFor(source, s, s.reading.value)
  }

  function CurrentEpisode(w: World, pit: nat, present: Present, now: int, ttl: nat): (key: Option<Key>)
    ensures key.Some? ==> key.value.device in w.trackers
                          && w.trackers[key.value.device].episode == Some(key.value.episode)
                          && w.trackers[key.value.device].scope == key.value.scope
                          && w.trackers[key.value.device].pit == pit
                          && w.trackers[key.value.device].inputValid
                          && 0 <= now - w.trackers[key.value.device].observed < ttl * SECOND
                          && present.source == Some(Source(pit, key.value.device)) && present.critical && present.s.usable
                          && ScopeIsCurrent(w.trackers[key.value.device], present.source.value, present.s)
  {
    if present.source.None? || present.source.value.pit != pit || !present.s.usable || !present.critical then None
    else
      var d := present.source.value.device;
      if d in w.trackers && w.trackers[d].pit == pit && w.trackers[d].inputValid && w.trackers[d].episode.Some?
         && 0 <= now - w.trackers[d].observed < ttl * SECOND && ScopeIsCurrent(w.trackers[d], present.source.value, present.s)
      then Some(Key(d, w.trackers[d].episode.value, w.trackers[d].scope))
      else None
  }

  // ---- Looking up evidence ----

  /** A row of the query: an alert of the pit, joined with the event that created it. */
  predicate IsRow(w: World, pit: nat, id: nat, now: int, event: Event) {
    && event.Created? && event.alert == id && id < |w.alerts|
    && w.alerts[id].source.pit == pit && event.source.pit == pit
    && w.alerts[id].source.device == event.source.device && event.at <= now
  }

  function FirstCreated(w: World, pit: nat, id: nat, now: int, n: nat): Option<Event>
    requires n <= |w.log|
  {
    if n == 0 then None
    else if FirstCreated(w, pit, id, now, n - 1).Some? then FirstCreated(w, pit, id, now, n - 1)
    else if IsRow(w, pit, id, now, w.log[n - 1]) then Some(w.log[n - 1])
    else None
  }

  predicate IsEnd(event: Event, pit: nat, key: Key, now: int) {
    event.Resolved? && event.source.pit == pit && KeyOf(event) == key && event.at <= now
  }

  function FirstEnd(log: seq<Event>, pit: nat, key: Key, now: int, n: nat): Option<Event>
    requires n <= |log|
  {
    if n == 0 then None
    else if FirstEnd(log, pit, key, now, n - 1).Some? then FirstEnd(log, pit, key, now, n - 1)
    else if IsEnd(log[n - 1], pit, key, now) then Some(log[n - 1])
    else None
  }

  function Judged(began: Event, end: Option<Event>, active: Option<Key>): Lifecycle {
    if end.Some? then
      if began.observed < end.value.observed <= end.value.at && began.at <= end.value.at
      then Closed(end.value.at, end.value.observed) else Unknown
    else if active == Some(KeyOf(began)) then Active
    else Unknown
  }

  function LifecycleOf(w: World, pit: nat, id: nat, now: int, active: Option<Key>): Lifecycle {
    var began := FirstCreated(w, pit, id, now, |w.log|);
    if began.None? then Unknown
    else Judged(began.value, FirstEnd(w.log, pit, KeyOf(began.value), now, |w.log|), active)
  }

  method Lifecycles(w: World, pit: nat, ids: seq<nat>, present: Present, now: int, ttl: nat) returns (result: map<nat, Lifecycle>)
    ensures result.Keys == set k | 0 <= k < |ids| :: ids[k]
    ensures forall id <- result :: result[id] == LifecycleOf(w, pit, id, now, CurrentEpisode(w, pit, present, now, ttl))
  {
    hide FoundAll, FoundEnds, LifecycleOf, CurrentEpisode;
    var asked := set k | 0 <= k < |ids| :: ids[k];
    result := map id | id in asked :: Unknown;
    var created := FindCreated(w, pit, asked, now);
    var active := CurrentEpisode(w, pit, present, now, ttl);
    if created == map[] {
      forall id <- asked ensures LifecycleOf(w, pit, id, now, active) == Unknown {
        VerdictIs(w, pit, asked, created, map[], id, now, active);
      }
      return;
    }
    var ended := FindEnds(w.log, pit, created, now);
    for k := 0 to |ids|
      invariant result.Keys == asked
      invariant forall j | 0 <= j < k :: result[ids[j]] == LifecycleOf(w, pit, ids[j], now, active)
    {
      var id := ids[k];
      VerdictIs(w, pit, asked, created, ended, id, now, active);
      result := result[id := Verdict(created, ended, id, active)];
    }
  }

  function Verdict(created: map<nat, Event>, ended: map<Key, Event>, id: nat, active: Option<Key>): Lifecycle {
    if id !in created then Unknown
    else
      var key := KeyOf(created[id]);
      Judged(created[id], if key in ended then Some(ended[key]) else None, active)
  }

  predicate FoundAll(w: World, pit: nat, asked: set<nat>, created: map<nat, Event>, now: int, n: nat) {
    n <= |w.log| && forall id <- asked :: FirstCreated(w, pit, id, now, n) == if id in created then Some(created[id]) else None
  }

  ghost predicate FoundEnds(log: seq<Event>, pit: nat, created: map<nat, Event>, ended: map<Key, Event>, now: int, n: nat) {
    n <= |log| && forall key | Wanted(created, key) :: FirstEnd(log, pit, key, now, n) == if key in ended then Some(ended[key]) else None
  }

  lemma VerdictIs(w: World, pit: nat, asked: set<nat>, created: map<nat, Event>, ended: map<Key, Event>, id: nat, now: int, active: Option<Key>)
    requires id in asked && FoundAll(w, pit, asked, created, now, |w.log|)
    requires created != map[] ==> FoundEnds(w.log, pit, created, ended, now, |w.log|)
    ensures Verdict(created, ended, id, active) == LifecycleOf(w, pit, id, now, active)
  {
    hide FirstCreated, FirstEnd, Judged;
    if id in created {
      assert Wanted(created, KeyOf(created[id]));
    }
  }

  /** The first event of every alert that was asked for and has one. */
  method FindCreated(w: World, pit: nat, asked: set<nat>, now: int) returns (created: map<nat, Event>)
    ensures created.Keys <= asked
    ensures FoundAll(w, pit, asked, created, now, |w.log|)
  {
    created := map[];
    for i := 0 to |w.log|
      invariant created.Keys <= asked
      invariant FoundAll(w, pit, asked, created, now, i)
    {
      var event := w.log[i];
      if event.Created? && event.alert in asked && event.alert !in created && IsRow(w, pit, event.alert, now, event) {
        created := created[event.alert := event];
      }
    }
  }

  /** The resolutions looked for: those of an episode and of a device that some created event has. */
  predicate Wanted(created: map<nat, Event>, key: Key) {
    && (exists id <- created :: created[id].episode == key.episode)
    && (exists id <- created :: created[id].source.device == key.device)
  }

  method FindEnds(log: seq<Event>, pit: nat, created: map<nat, Event>, now: int) returns (ended: map<Key, Event>)
    ensures FoundEnds(log, pit, created, ended, now, |log|)
  {
    ended := map[];
    for i := 0 to |log|
      invariant FoundEnds(log, pit, created, ended, now, i)
    {
      var event := log[i];
      if event.Resolved? && event.source.pit == pit && event.at <= now && Wanted(created, KeyOf(event)) && KeyOf(event) !in ended {
        ended := ended[KeyOf(event) := event];
      }
    }
  }

  lemma {:induction false} FirstCreatedIs(w: World, pit: nat, id: nat, now: int, n: nat)
    requires n <= |w.log|
    ensures match FirstCreated(w, pit, id, now, n)
            case Some(event) => exists i | 0 <= i < n :: w.log[i] == event && IsRow(w, pit, id, now, event)
            case None => forall i | 0 <= i < n :: !IsRow(w, pit, id, now, w.log[i])
  {
    hide IsRow;
    if n > 0 {
      FirstCreatedIs(w, pit, id, now, n - 1);
      assert IsRow(w, pit, id, now, w.log[n - 1]) ==> w.log[n - 1] == w.log[n - 1];
    }
  }

  lemma {:induction false} FirstEndIs(log: seq<Event>, pit: nat, key: Key, now: int, n: nat)
    requires n <= |log|
    ensures match FirstEnd(log, pit, key, now, n)
            case Some(event) => exists i | 0 <= i < n :: log[i] == event && IsEnd(event, pit, key, now)
            case None => forall i | 0 <= i < n :: !IsEnd(log[i], pit, key, now)
  {
    hide IsEnd;
    if n > 0 {
      FirstEndIs(log, pit, key, now, n - 1);
    }
  }

  // ---- The reader is right ----

  /** Each created event belongs to its own recorded alert; each resolution was observed before it was written. */
  predicate LinkedAt(w: World, i: nat)
    requires i < |w.log|
  {
    match w.log[i]
    case Created(source, at, alert, _, _, observed) =>
      && alert < |w.alerts| && w.alerts[alert].source == source
      && w.alerts[alert].at == at && w.alerts[alert].observed == observed
    case Resolved(_, at, _, _, observed) => observed <= at
  }

  predicate CreatedFor(w: World, i: nat, id: nat) { i < |w.log| && w.log[i].Created? && w.log[i].alert == id }

  predicate Witnessed(w: World, id: nat) { exists i | 0 <= i < |w.log| :: CreatedFor(w, i, id) }

  predicate Linked(w: World) {
    && (forall i | 0 <= i < |w.log| :: LinkedAt(w, i))
    && (forall i, j | 0 <= i < j < |w.log| && w.log[i].Created? && w.log[j].Created? :: w.log[i].alert < w.log[j].alert)
    && forall id | 0 <= id < |w.alerts| :: Witnessed(w, id)
  }

  /** Usable evidence was observed in the past: the snapshot does not call it usable otherwise. */
  predicate Timely(sweep: Sweep) { Evidence(sweep.s) ==> sweep.s.reading.value.observed <= sweep.now }

  lemma SweepLinks(w: World, sweep: Sweep, limits: Limits)
    requires Linked(w) && Timely(sweep)
    ensures Linked(Swept(w, sweep, limits))
  {
    SweepLogs(w, sweep, limits);
    SweepBooks(w, sweep, limits);
    var after := Swept(w, sweep, limits);
    hide Swept, Alerts, Resolves, OperationAfter;
    forall i | 0 <= i < |after.log| ensures LinkedAt(after, i) {
      assert i < |w.log| ==> LinkedAt(w, i);
    }
    forall i, j | 0 <= i < j < |after.log| && after.log[i].Created? && after.log[j].Created?
      ensures after.log[i].alert < after.log[j].alert
    {
      assert LinkedAt(w, i);
    }
    forall id | 0 <= id < |after.alerts| ensures Witnessed(after, id) {
      if id < |w.alerts| {
        assert Witnessed(w, id);
        var i :| 0 <= i < |w.log| && CreatedFor(w, i, id);
        assert CreatedFor(after, i, id);
      } else {
        assert CreatedFor(after, |w.log|, id);
      }
    }
  }

  lemma {:induction false} RunLinks(w: World, sweeps: seq<Sweep>, n: nat, limits: Limits)
    requires Linked(w) && n <= |sweeps| && forall k | 0 <= k < |sweeps| :: Timely(sweeps[k])
    ensures Linked(At(w, sweeps, n, limits))
  {
    hide Swept, Linked, At, Timely;
    if n == 0 {
      AtStart(w, sweeps, limits);
    } else {
      RunLinks(w, sweeps, n - 1, limits);
      AtNext(w, sweeps, n - 1, limits);
      SweepLinks(At(w, sweeps, n - 1, limits), sweeps[n - 1], limits);
    }
  }

  /** The query finds the one event that created an alert. */
  lemma CreationIsFound(w: World, id: nat, i: nat, pit: nat, clock: int, now: int)
    requires Linked(w) && Known(w, clock) && clock <= now
    requires CreatedFor(w, i, id) && w.log[i].source.pit == pit
    ensures FirstCreated(w, pit, id, now, |w.log|) == Some(w.log[i])
  {
    FirstCreatedIs(w, pit, id, now, |w.log|);
    hide FirstCreated;
    assert LinkedAt(w, i);
    assert IsRow(w, pit, id, now, w.log[i]);
    var found := FirstCreated(w, pit, id, now, |w.log|);
    var k :| 0 <= k < |w.log| && w.log[k] == found.value && IsRow(w, pit, id, now, found.value);
    assert k == i;
  }

  /** The query finds the one resolution of an episode, if there is one, and nothing else. */
  lemma EndIsFound(w: World, i: nat, clock: int, now: int)
    requires Ordered(w.log) && Known(w, clock) && clock <= now && i < |w.log| && w.log[i].Created?
    ensures var end := FirstEnd(w.log, w.log[i].source.pit, KeyOf(w.log[i]), now, |w.log|);
            && (end.Some? ==> Mentioned(w.log, end.value, w.log[i].episode) && Succeeds(w.log[i], end.value))
            && forall j | 0 <= j < |w.log| && w.log[j].Resolved? && w.log[j].episode == w.log[i].episode :: end == Some(w.log[j])
  {
    var key := KeyOf(w.log[i]);
    FirstEndIs(w.log, w.log[i].source.pit, key, now, |w.log|);
    hide FirstEnd;
    var end := FirstEnd(w.log, w.log[i].source.pit, key, now, |w.log|);
    if end.Some? {
      var k :| 0 <= k < |w.log| && w.log[k] == end.value && IsEnd(end.value, w.log[i].source.pit, key, now);
      ResolutionIsLast(w.log, i, k);
      forall j | 0 <= j < |w.log| && w.log[j].Resolved? && w.log[j].episode == w.log[i].episode
        ensures j == k
      {
        ResolutionIsLast(w.log, j, k);
        ResolutionIsLast(w.log, k, j);
      }
    } else {
      forall j | 0 <= j < |w.log| && w.log[j].Resolved? && w.log[j].episode == w.log[i].episode
        ensures IsEnd(w.log[j], w.log[i].source.pit, key, now)
      {
        ResolutionIsLast(w.log, i, j);
      }
    }
  }

  predicate Mentioned(log: seq<Event>, event: Event, episode: nat) {
    event in log && event.Resolved? && event.episode == episode
  }

  /** Nothing of an episode comes after its resolution. */
  lemma ResolutionIsLast(log: seq<Event>, i: nat, j: nat)
    requires Ordered(log) && i < |log| && j < |log| && log[j].Resolved? && log[i].episode == log[j].episode
    ensures i <= j && (i < j ==> Succeeds(log[i], log[j]))
  {
  }

  lemma HeldIsOpen(w: World, d: nat)
    requires AllOpen(w) && d in w.trackers && w.trackers[d].episode.Some?
    ensures forall j | 0 <= j < |w.log| && w.log[j].episode == w.trackers[d].episode.value :: w.log[j].Created?
  {
    assert Open(w.log, d, w.trackers[d]);
  }

  /**
   * After any run the reader calls an alert resolved exactly when its own episode recorded a
   * resolution, with that resolution's times, and active exactly when its episode is the one
   * that is open now.
   */
  lemma ReaderIsRight(w: World, id: nat, i: nat, present: Present, clock: int, now: int, ttl: nat)
    requires Kept(w, clock) && Linked(w) && clock <= now && CreatedFor(w, i, id)
    ensures var pit := w.log[i].source.pit;
            var current := CurrentEpisode(w, pit, present, now, ttl);
            var life := LifecycleOf(w, pit, id, now, current);
            && (life.Closed? ==> exists j | 0 <= j < |w.log| :: w.log[j].Resolved? && w.log[j].episode == w.log[i].episode)
            && (forall j | 0 <= j < |w.log| && w.log[j].Resolved? && w.log[j].episode == w.log[i].episode ::
                  life == Closed(w.log[j].at, w.log[j].observed))
            && (life.Active? <==> current == Some(KeyOf(w.log[i])))
  {
    var pit := w.log[i].source.pit;
    CreationIsFound(w, id, i, pit, clock, now);
    EndIsFound(w, i, clock, now);
    var current := CurrentEpisode(w, pit, present, now, ttl);
    if current.Some? {
      HeldIsOpen(w, current.value.device);
    }
    hide FirstCreated, FirstEnd, CurrentEpisode, Founded, Witnessed;
    var end := FirstEnd(w.log, pit, KeyOf(w.log[i]), now, |w.log|);
    if end.Some? {
      var j :| 0 <= j < |w.log| && w.log[j] == end.value;
      assert LinkedAt(w, j);
    }
  }

  /** From empty tables, after any run: every recorded alert has an event of its own that the reader finds it by. */
  lemma EveryAlertHasAnEvent(sweeps: seq<Sweep>, id: nat, from: int, limits: Limits) returns (i: nat)
    requires Clocked(sweeps, from) && forall k | 0 <= k < |sweeps| :: Timely(sweeps[k])
    requires id < |At(World(map[], map[], [], [], 0), sweeps, |sweeps|, limits).alerts|
    ensures var w := At(World(map[], map[], [], [], 0), sweeps, |sweeps|, limits);
            && Kept(w, ClockAt(sweeps, |sweeps|, from)) && Linked(w) && CreatedFor(w, i, id)
            && w.log[i].source == w.alerts[id].source && w.log[i].at == w.alerts[id].at && w.log[i].observed == w.alerts[id].observed
  {
    hide Kept, At, Clocked;
    var empty := World(map[], map[], [], [], 0);
    EmptyIsKept(from);
    RunKeeps(empty, sweeps, |sweeps|, from, limits);
    RunLinks(empty, sweeps, |sweeps|, limits);
    var w := At(empty, sweeps, |sweeps|, limits);
    assert Witnessed(w, id);
    i :| 0 <= i < |w.log| && CreatedFor(w, i, id);
    assert LinkedAt(w, i);
  }

  /** At most one episode of a pit is reported active. */
  lemma OneActiveEpisode(w: World, a: nat, b: nat, i: nat, j: nat, present: Present, clock: int, now: int, ttl: nat)
    requires Kept(w, clock) && Linked(w) && clock <= now && CreatedFor(w, i, a) && CreatedFor(w, j, b)
    requires w.log[i].source.pit == w.log[j].source.pit
    requires LifecycleOf(w, w.log[i].source.pit, a, now, CurrentEpisode(w, w.log[i].source.pit, present, now, ttl)).Active?
    requires LifecycleOf(w, w.log[i].source.pit, b, now, CurrentEpisode(w, w.log[i].source.pit, present, now, ttl)).Active?
    ensures w.log[i].episode == w.log[j].episode
  {
    hide LifecycleOf, CurrentEpisode, Kept, Linked;
    ReaderIsRight(w, a, i, present, clock, now, ttl);
    ReaderIsRight(w, b, j, present, clock, now, ttl);
  }

  /** Two snapshots differ in nothing an episode rests on. */
  predicate SameFooting(a: Snapshot, b: Snapshot) {
    && a.instance == b.instance && a.warning == b.warning && a.critical == b.critical
    && a.reading.Some? && b.reading.Some?
    && var (r, q) := (a.reading.value, b.reading.value);
    && r.config == q.config && r.rule == q.rule && r.methodVersion == q.methodVersion && r.token == q.token
    && r.source == q.source && r.simulated == q.simulated
  }

  /**
   * Once a sweep has found a pit critical, every alert of its open episode is active for as long as the observation is
   * younger than its lifetime and the reader still sees the same source, critical and on the same footing.
   */
  lemma CriticalIsActive(w: World, sweep: Sweep, i: nat, present: Present, before: int, now: int, limits: Limits)
    requires Kept(w, before) && Linked(w) && Timely(sweep) && before <= sweep.now <= now
    requires Evaluating(w, sweep) && StateAfter(w, sweep.source, sweep.s, sweep.filter, limits) == Critical
    requires present.source == Some(sweep.source) && present.critical && present.s.usable && SameFooting(sweep.s, present.s)
    requires now - sweep.s.reading.value.observed < limits.ttl * SECOND
    ensures var after := Swept(w, sweep, limits);
            && Kept(after, sweep.now) && Linked(after)
            && sweep.source.device in after.trackers && after.trackers[sweep.source.device].episode.Some?
            && (i < |after.log| && after.log[i].Created? && after.trackers[sweep.source.device].episode == Some(after.log[i].episode) ==>
                  LifecycleOf(after, sweep.source.pit, after.log[i].alert, now,
                              CurrentEpisode(after, sweep.source.pit, present, now, limits.ttl)) == Active)
  {
    SweepKeeps(w, sweep, before, limits);
    SweepLinks(w, sweep, limits);
    EpisodeFollows(w, sweep, limits);
    hide Swept, StateAfter, Kept, Linked, Breaks, LifecycleOf;
    var after := Swept(w, sweep, limits);
    var t := after.trackers[sweep.source.device];
    if i < |after.log| && after.log[i].Created? && t.episode == Some(after.log[i].episode) {
      HeldEventsAreItsOwn(after, sweep.source.device, i, sweep.now);
      assert CurrentEpisode(after, sweep.source.pit, present, now, limits.ttl) == Some(KeyOf(after.log[i]));
      ReaderIsRight(after, after.log[i].alert, i, present, sweep.now, now, limits.ttl);
    }
  }

  lemma HeldEventsAreItsOwn(w: World, d: nat, i: nat, now: int)
    requires Kept(w, now) && d in w.trackers && i < |w.log| && w.trackers[d].episode == Some(w.log[i].episode)
    ensures BelongsTo(w.log[i], d, w.trackers[d])
  {
    assert Open(w.log, d, w.trackers[d]);
  }
}
