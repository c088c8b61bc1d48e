/** The worker's gates around the detector, and how its stored row follows one tracker life at a time. */
module CollectionProcess {
  import opened Basics
  import opened CollectionModel
  import opened CollectionTracking
  import opened CollectionRuns
  import opened CollectionPreparation

  datatype DataState = Fresh | Stale | Unknown | Unavailable | NoData

  datatype FilterState = Disabled | Warming | Ready | NotAvailable

  datatype InputSource = EdgeState | HeightSections

  datatype Observation = Observation(
    messageId: string, generatedAt: int, observedTo: Option<int>, source: InputSource, simulated: bool)

  /** What the worker reads in one database snapshot. */
  datatype Reading = Reading(
    scope: Option<Scope>,
    depth: Option<real>,
    dataState: DataState,
    filterState: FilterState,
    loadPercent: Option<real>,
    observation: Option<Observation>,
    height: Option<real>)

  datatype Row = Row(messageId: string, generatedAt: int, payload: Tracker)

  /** One sweep: which source it serves, whether its geometry is simulated, and what was read. */
  datatype Sweep = Sweep(source: Source, simulation: bool, reading: Reading)
  {
    predicate Usable() {
      && reading.scope.Some? && reading.depth.Some?
      && reading.dataState == Fresh && reading.filterState == Ready
      && reading.loadPercent.Some?
      && reading.observation.Some?
      && reading.observation.value.observedTo.Some?
      && reading.observation.value.source == HeightSections
      && reading.height.Some?
      && reading.observation.value.simulated == simulation
    }

    function ObservedAt(): int
      requires Usable()
    {
      reading.observation.value.observedTo.value
    }

    /** The stored tracker, unless it belongs to another pit or another scope. */
    function Kept(row: Option<Row>): Option<Tracker> {
      if row.Some? && row.value.payload.identity.pitId == source.pitId && Some(row.value.payload.identity.scope) == reading.scope
      then Some(row.value.payload) else None
    }

    /** An observation or generation time that does not advance is a replay. */
    predicate Replays(row: Option<Row>)
      requires Usable()
    {
      Kept(row).Some? &&
      (ObservedAt() <= row.value.payload.observedAt || reading.observation.value.generatedAt <= row.value.generatedAt)
    }

    function Newborn(): Tracker
      requires Usable()
    {
      Born(Identity(source.pitId, reading.scope.value, reading.observation.value.simulated), ObservedAt())
    }

    function Accepted(): Input
      requires Usable()
    {
      Observed(ObservedAt(), reading.height.value)
    }
  }

  function Processed(row: Option<Row>, sweep: Sweep): (Option<Row>, seq<Event>)
    requires row.Some? ==> row.value.payload.Sound()
  {
    var kept := sweep.Kept(row);
    if !sweep.Usable() then
      if kept.Some? && kept.value.inputValid then (Some(row.value.(payload := Invalidated(kept.value))), []) else (row, [])
    else if sweep.Replays(row) then (row, [])
    else
      var start := if kept.Some? then kept.value else sweep.Newborn();
      var (after, events) := Step(start, sweep.Accepted());
      var observation := sweep.reading.observation.value;
      (Some(Row(observation.messageId, observation.generatedAt, after)), events)
  }

  class CollectionWorker {
    var row: Option<Row>
    var log: seq<Event>

    constructor ()
      ensures row.None? && log == []
    {
      row, log := None, [];
    }

    method Process(sweep: Sweep)
      requires row.Some? ==> row.value.payload.Sound()
      modifies this
      ensures var (after, events) := Processed(old(row), sweep);
        row == after && log == old(log) + events
      ensures row.Some? ==> row.value.payload.Sound()
    {
      hide Advanced, Invalidated;
      var reading := sweep.reading;
      var valid := sweep.Usable();
      var state: CollectionTracker? := null;
      if row.Some? {
        state := new CollectionTracker.Load(row.value.payload);
        if state.identity.pitId != sweep.source.pitId || Some(state.identity.scope) != reading.scope {
          state := null;
        }
      }
      if !valid {
        if state != null && state.inputValid {
          state.Invalidate();
          row := Some(row.value.(payload := state.Value()));
        }
        return;
      }
      var observation := reading.observation.value;
      var observed := observation.observedTo.value;
      if state != null && (observed <= state.observedAt || observation.generatedAt <= row.value.generatedAt) {
        return;
      }
      if state == null {
        state := new CollectionTracker.Load(
          Born(Identity(sweep.source.pitId, reading.scope.value, observation.simulated), observed));
      } else if observed - state.observedAt > MAX_GAP {
        state.Invalidate();
      }
      var events := state.Advance(reading.height.value, observed);
      log := log + events;
      row := Some(Row(observation.messageId, observation.generatedAt, state.Value()));
    }
  }

  // ---- Runs of the worker ----

  /** The worker's durable state, the life of the tracker its row holds and all lives that came before. */
  datatype World = World(row: Option<Row>, log: seq<Event>, life: Option<Life>, ended: seq<Life>)

  /** The life a sweep leaves behind: extended, restarted under another scope, or untouched. */
  ghost function LifeAfter(w: World, sweep: Sweep): Option<Life> {
    var kept := sweep.Kept(w.row);
    if !sweep.Usable() then
      if kept.Some? && w.life.Some? then Some(Grown(w.life.value, Outage)) else w.life
    else if sweep.Replays(w.row) then w.life
    else if kept.Some? && w.life.Some? then Some(Grown(w.life.value, sweep.Accepted()))
    else Some(Life(sweep.Newborn().identity, [sweep.Accepted()]))
  }

  ghost function Grown(life: Life, input: Input): Life { life.(inputs := life.inputs + [input]) }

  ghost function WorldAfter(w: World, sweep: Sweep): (v: World)
    requires w.row.Some? ==> w.row.value.payload.Sound()
    ensures v.row.Some? ==> v.row.value.payload.Sound()
  {
    var (row, events) := Processed(w.row, sweep);
    var restarts := sweep.Usable() && sweep.Kept(w.row).None? && w.life.Some?;
    World(row, w.log + events, LifeAfter(w, sweep), if restarts then w.ended + [w.life.value] else w.ended)
  }

  ghost function Run(sweeps: seq<Sweep>): (w: World)
    ensures w.row.Some? ==> w.row.value.payload.Sound()
  {
    if sweeps == [] then World(None, [], None, [])
    else WorldAfter(Run(sweeps[..|sweeps| - 1]), sweeps[|sweeps| - 1])
  }

  /** All events of finished lives, in order. */
  ghost function Ended(lives: seq<Life>): seq<Event>
    requires forall life | life in lives :: life.Valid()
  {
    if lives == [] then []
    else
      var life := lives[|lives| - 1];
      Ended(lives[..|lives| - 1]) + life.Trace(|life.inputs|)
  }

  /** The row is exactly the tracker of its life, and the log is exactly the lives' events in order. */
  ghost predicate Tied(w: World) {
    && (forall life | life in w.ended :: life.Valid())
    && (w.row.Some? <==> w.life.Some?)
    && (w.life.None? ==> w.ended == [] && w.log == [])
    && (w.life.Some? ==>
          var life := w.life.value;
          && life.Valid()
          && w.row.value.payload == life.After(|life.inputs|)
          && w.log == Ended(w.ended) + life.Trace(|life.inputs|))
  }

  lemma {:induction false} GrowthKeepsThePast(life: Life, input: Input, n: nat)
    requires life.Valid() && Grown(life, input).Valid() && n <= |life.inputs|
    ensures Grown(life, input).After(n) == life.After(n)
    ensures Grown(life, input).Trace(n) == life.Trace(n)
  {
    hide Step;
    if n > 0 {
      GrowthKeepsThePast(life, input, n - 1);
      assert Grown(life, input).inputs[n - 1] == life.inputs[n - 1];
    }
  }

  lemma LifeGrows(w: World, sweep: Sweep, input: Input)
    requires Tied(w) && w.life.Some? && sweep.Kept(w.row).Some?
    requires input.Observed? ==> input.at > w.row.value.payload.observedAt
    ensures var (life, grown) := (w.life.value, Grown(w.life.value, input));
            && grown.Valid()
            && grown.After(|grown.inputs|) == Step(w.row.value.payload, input).0
            && grown.Trace(|grown.inputs|) == life.Trace(|life.inputs|) + Step(w.row.value.payload, input).1
  {
    hide Step;
    var (life, grown) := (w.life.value, Grown(w.life.value, input));
    Continuity(life, |life.inputs|);
    assert forall i | 0 <= i < |life.inputs| :: grown.inputs[i] == life.inputs[i];
    GrowthKeepsThePast(life, input, |life.inputs|);
    assert |grown.inputs| == |life.inputs| + 1;
  }

  lemma NewLife(identity: Identity, input: Input)
    requires input.Observed?
    ensures var life := Life(identity, [input]);
            && life.Valid()
            && life.After(1) == Step(Born(identity, input.at), input).0
            && life.Trace(1) == Step(Born(identity, input.at), input).1
  {
    hide Step;
    var life := Life(identity, [input]);
    assert life.After(0) == Born(identity, input.at);
    assert life.Trace(1) == life.Trace(0) + life.EventsAt(0);
  }

  lemma UnusableSweepKeepsTied(w: World, sweep: Sweep)
    requires Tied(w) && (w.row.Some? ==> w.row.value.payload.Sound()) && !sweep.Usable()
    ensures Tied(WorldAfter(w, sweep))
  {
    hide Step, Invalidated, Life.After, Life.Trace, Ended;
    if sweep.Kept(w.row).Some? {
      LifeGrows(w, sweep, Outage);
      OutageStep(w.row.value.payload);
    }
  }

  lemma KeptSweepKeepsTied(w: World, sweep: Sweep)
    requires Tied(w) && (w.row.Some? ==> w.row.value.payload.Sound())
    requires sweep.Usable() && sweep.Kept(w.row).Some?
    ensures Tied(WorldAfter(w, sweep))
  {
    hide Step, Life.After, Life.Trace, Ended;
    if !sweep.Replays(w.row) {
      LifeGrows(w, sweep, sweep.Accepted());
    }
  }

  lemma RestartKeepsTied(w: World, sweep: Sweep)
    requires Tied(w) && (w.row.Some? ==> w.row.value.payload.Sound())
    requires sweep.Usable() && sweep.Kept(w.row).None?
    ensures Tied(WorldAfter(w, sweep))
  {
    hide Step, Life.After, Life.Trace;
    var v := WorldAfter(w, sweep);
    NewLife(sweep.Newborn().identity, sweep.Accepted());
    if w.life.Some? {
      assert v.ended[..|v.ended| - 1] == w.ended;
      assert Ended(v.ended) == w.log;
    } else {
      assert Ended(v.ended) == [];
    }
  }

  lemma SweepKeepsTied(w: World, sweep: Sweep)
    requires Tied(w) && (w.row.Some? ==> w.row.value.payload.Sound())
    ensures Tied(WorldAfter(w, sweep))
  {
    hide Tied, WorldAfter;
    if !sweep.Usable() {
      UnusableSweepKeepsTied(w, sweep);
    } else if sweep.Kept(w.row).Some? {
      KeptSweepKeepsTied(w, sweep);
    } else {
      RestartKeepsTied(w, sweep);
    }
  }

  lemma OutageStep(t: Tracker)
    requires t.Sound()
    ensures Step(t, Outage) == (if t.inputValid then Invalidated(t) else t, [])
  {
  }

  /** In every run of the worker the stored row and the event log follow valid tracker lives exactly. */
  lemma {:induction false} WorkerFollowsLives(sweeps: seq<Sweep>)
    ensures Tied(Run(sweeps))
  {
    if sweeps != [] {
      WorkerFollowsLives(sweeps[..|sweeps| - 1]);
      SweepKeepsTied(Run(sweeps[..|sweeps| - 1]), sweeps[|sweeps| - 1]);
    }
  }

  // ---- What the lives of a run are made of ----

  ghost function WorldAt(sweeps: seq<Sweep>, n: nat): World
    requires n <= |sweeps|
  {
    Run(sweeps[..n])
  }

  /** A usable sweep that finds no tracker of its pit and scope begins a new life. */
  ghost predicate Restarts(sweeps: seq<Sweep>, s: nat)
    requires s < |sweeps|
  {
    sweeps[s].Usable() && sweeps[s].Kept(WorldAt(sweeps, s).row).None?
  }

  /** What the worker takes from one sweep: a usable one that is no replay, or an outage of the stored tracker. */
  ghost function Given(sweeps: seq<Sweep>, s: nat): seq<Input>
    requires s < |sweeps|
  {
    var row := WorldAt(sweeps, s).row;
    if !sweeps[s].Usable() then if sweeps[s].Kept(row).Some? then [Outage] else []
    else if sweeps[s].Replays(row) then []
    else [sweeps[s].Accepted()]
  }

  /** What the worker takes from a range of sweeps, in order. */
  ghost function Fed(sweeps: seq<Sweep>, from: nat, to: nat): seq<Input>
    requires from <= to <= |sweeps|
  {
    if from == to then [] else Fed(sweeps, from, to - 1) + Given(sweeps, to - 1)
  }

  /** Sweep `s` gave the life nothing, or was a sweep of the life's own pit and scope. */
  ghost predicate OfLife(sweeps: seq<Sweep>, s: nat, life: Life)
    requires s < |sweeps|
  {
    Given(sweeps, s) != [] ==> sweeps[s].source.pitId == life.identity.pitId && sweeps[s].reading.scope == Some(life.identity.scope)
  }

  /** The life began with sweep `from` and is exactly what the worker took from the sweeps before `to`. */
  ghost predicate Received(sweeps: seq<Sweep>, life: Life, from: nat, to: nat) {
    && from < to <= |sweeps| && Restarts(sweeps, from)
    && life.identity == sweeps[from].Newborn().identity
    && life.inputs == Fed(sweeps, from, to)
    && (forall s | from < s < to :: !Restarts(sweeps, s))
    && forall s | from <= s < to :: OfLife(sweeps, s, life)
  }

  /** ... and it ended with sweep `to`, which began another life. */
  ghost predicate Over(sweeps: seq<Sweep>, life: Life, from: nat, to: nat) {
    to < |sweeps| && Received(sweeps, life, from, to) && Restarts(sweeps, to)
  }

  ghost predicate OverBefore(sweeps: seq<Sweep>, n: nat, life: Life) { exists from, to: nat :: to < n && Over(sweeps, life, from, to) }

  /** After the first `n` sweeps: the current life was received up to now, and every ended one up to its end. */
  ghost predicate Accounted(sweeps: seq<Sweep>, n: nat)
    requires n <= |sweeps|
  {
    var w := WorldAt(sweeps, n);
    && (w.life.Some? ==> exists from: nat :: Received(sweeps, w.life.value, from, n))
    && forall life | life in w.ended :: OverBefore(sweeps, n, life)
  }

  lemma WorldNext(sweeps: seq<Sweep>, n: nat)
    requires n < |sweeps|
    ensures WorldAt(sweeps, n + 1) == WorldAfter(WorldAt(sweeps, n), sweeps[n])
  {
    hide WorldAfter;
    assert sweeps[..n + 1][..n] == sweeps[..n];
  }

  /** The sweep goes on with the current life, or leaves it alone. */
  lemma ReceivedGoesOn(sweeps: seq<Sweep>, n: nat, from: nat)
    requires n < |sweeps| && Tied(WorldAt(sweeps, n)) && !Restarts(sweeps, n)
    requires WorldAt(sweeps, n).life.Some? && Received(sweeps, WorldAt(sweeps, n).life.value, from, n)
    ensures LifeAfter(WorldAt(sweeps, n), sweeps[n]).Some?
    ensures Received(sweeps, LifeAfter(WorldAt(sweeps, n), sweeps[n]).value, from, n + 1)
  {
    hide WorldAt, Life.After, Life.Trace, Ended;
    var w := WorldAt(sweeps, n);
    var life := w.life.value;
    var next := LifeAfter(w, sweeps[n]).value;
    assert w.row.value.payload.identity == life.identity by { LifeIdentity(w); }
    assert next.identity == life.identity && next.inputs == life.inputs + Given(sweeps, n);
    forall s | from <= s < n + 1 ensures OfLife(sweeps, s, next) {
      assert s < n ==> OfLife(sweeps, s, life);
    }
  }

  lemma LifeIdentity(w: World)
    requires Tied(w) && w.life.Some?
    ensures w.row.Some? && w.row.value.payload.identity == w.life.value.identity
  {
    hide Step, Life.Trace, Ended;
  }

  /** A sweep that begins a new life ends the current one, if there is any. */
  lemma ReceivedBegins(sweeps: seq<Sweep>, n: nat)
    requires n < |sweeps| && Restarts(sweeps, n)
    ensures LifeAfter(WorldAt(sweeps, n), sweeps[n]).Some?
    ensures Received(sweeps, LifeAfter(WorldAt(sweeps, n), sweeps[n]).value, n, n + 1)
  {
    hide WorldAt;
    assert Fed(sweeps, n, n + 1) == Fed(sweeps, n, n) + Given(sweeps, n);
  }

  lemma EndedStayOver(sweeps: seq<Sweep>, n: nat, life: Life)
    requires n < |sweeps| && OverBefore(sweeps, n, life)
    ensures OverBefore(sweeps, n + 1, life)
  {
    hide Over;
    var from, to: nat :| to < n && Over(sweeps, life, from, to);
    assert to < n + 1 && Over(sweeps, life, from, to);
  }

  lemma AccountedStep(sweeps: seq<Sweep>, n: nat)
    requires n < |sweeps| && Accounted(sweeps, n) && Tied(WorldAt(sweeps, n))
    ensures Accounted(sweeps, n + 1)
  {
    hide Received, Tied, Restarts, OverBefore, WorldAt, LifeAfter, Processed;
    WorldNext(sweeps, n);
    var w := WorldAt(sweeps, n);
    var v := WorldAt(sweeps, n + 1);
    RestartIs(sweeps, n);
    if Restarts(sweeps, n) {
      ReceivedBegins(sweeps, n);
      if w.life.Some? {
        var from: nat :| Received(sweeps, w.life.value, from, n);
        assert Over(sweeps, w.life.value, from, n);
        OverNow(sweeps, w.life.value, from, n);
      }
    } else if w.life.Some? {
      var from: nat :| Received(sweeps, w.life.value, from, n);
      ReceivedGoesOn(sweeps, n, from);
      assert Received(sweeps, v.life.value, from, n + 1);
    } else {
      NothingToGoOn(sweeps, n);
    }
    forall life | life in v.ended ensures OverBefore(sweeps, n + 1, life) {
      if life in w.ended {
        EndedStayOver(sweeps, n, life);
      }
    }
  }

  lemma RestartIs(sweeps: seq<Sweep>, n: nat)
    requires n < |sweeps|
    ensures Restarts(sweeps, n) <==> sweeps[n].Usable() && sweeps[n].Kept(WorldAt(sweeps, n).row).None?
  {
  }

  lemma OverNow(sweeps: seq<Sweep>, life: Life, from: nat, to: nat)
    requires Over(sweeps, life, from, to)
    ensures OverBefore(sweeps, to + 1, life)
  {
  }

  lemma NothingToGoOn(sweeps: seq<Sweep>, n: nat)
    requires n < |sweeps| && Tied(WorldAt(sweeps, n)) && WorldAt(sweeps, n).life.None? && !Restarts(sweeps, n)
    ensures LifeAfter(WorldAt(sweeps, n), sweeps[n]).None?
  {
    hide WorldAt;
  }

  /** Every life of a run is exactly what the worker took from a range of sweeps: all it took between two restarts, and nothing else. */
  lemma {:induction false} LivesAreReceived(sweeps: seq<Sweep>, n: nat)
    requires n <= |sweeps|
    ensures Accounted(sweeps, n)
  {
    hide Accounted, WorldAfter, Tied;
    if n == 0 {
      NothingAccounted(sweeps);
    } else {
      LivesAreReceived(sweeps, n - 1);
      WorkerFollowsLives(sweeps[..n - 1]);
      AccountedStep(sweeps, n - 1);
    }
  }

  lemma NothingAccounted(sweeps: seq<Sweep>)
    ensures Accounted(sweeps, 0)
  {
    assert sweeps[..0] == [];
  }

  // ---- Events of a run ----

  /** A life of the run: the current one or one that ended, received from the sweeps of the run. */
  ghost predicate LifeOf(sweeps: seq<Sweep>, life: Life) {
    var w := Run(sweeps);
    && (life in w.ended || Some(life) == w.life)
    && exists from, to: nat :: Received(sweeps, life, from, to) && (to == |sweeps| || Over(sweeps, life, from, to))
  }

  lemma LivesOfRun(sweeps: seq<Sweep>, life: Life)
    requires life in Run(sweeps).ended || Some(life) == Run(sweeps).life
    ensures LifeOf(sweeps, life)
  {
    hide Received, Restarts;
    LivesAreReceived(sweeps, |sweeps|);
    assert sweeps[..|sweeps|] == sweeps;
    if Some(life) == Run(sweeps).life {
      var from: nat :| Received(sweeps, life, from, |sweeps|);
    } else {
      assert OverBefore(sweeps, |sweeps|, life);
      var from, to: nat :| to < |sweeps| && Over(sweeps, life, from, to);
    }
  }

  ghost predicate EmittedBy(e: Event, life: Life, n: nat) {
    life.Valid() && n < |life.inputs| && e in life.EventsAt(n)
  }

  lemma {:induction false} TracedEventIsEmitted(e: Event, life: Life, n: nat) returns (k: nat)
    requires life.Valid() && n <= |life.inputs| && e in life.Trace(n)
    ensures EmittedBy(e, life, k)
  {
    hide Life.EventsAt, Life.After, Life.Valid;
    if e in life.EventsAt(n - 1) {
      k := n - 1;
    } else {
      k := TracedEventIsEmitted(e, life, n - 1);
    }
  }

  lemma {:induction false} EndedEventIsEmitted(e: Event, lives: seq<Life>) returns (life: Life, k: nat)
    requires (forall life | life in lives :: life.Valid()) && e in Ended(lives)
    ensures life in lives && EmittedBy(e, life, k)
  {
    hide EmittedBy;
    life := lives[|lives| - 1];
    if e in life.Trace(|life.inputs|) {
      k := TracedEventIsEmitted(e, life, |life.inputs|);
    } else {
      life, k := EndedEventIsEmitted(e, lives[..|lives| - 1]);
    }
  }

  /** Every event the worker ever logs was emitted by one input of one of the run's own tracker lives. */
  lemma LoggedEventIsEmitted(sweeps: seq<Sweep>, e: Event) returns (life: Life, n: nat)
    requires e in Run(sweeps).log
    ensures LifeOf(sweeps, life) && EmittedBy(e, life, n)
  {
    hide Step, EmittedBy, LifeOf, Run;
    WorkerFollowsLives(sweeps);
    var w := Run(sweeps);
    if e in Ended(w.ended) {
      life, n := EndedEventIsEmitted(e, w.ended);
    } else {
      life := w.life.value;
      n := TracedEventIsEmitted(e, life, |life.inputs|);
    }
    LivesOfRun(sweeps, life);
  }

  lemma {:induction false} EmittedIsTraced(e: Event, life: Life, k: nat, n: nat)
    requires EmittedBy(e, life, k) && k < n <= |life.inputs|
    ensures e in life.Trace(n)
  {
    hide Life.EventsAt, Life.After;
    if k < n - 1 {
      EmittedIsTraced(e, life, k, n - 1);
    }
  }

  lemma {:induction false} TracedIsEnded(e: Event, lives: seq<Life>, life: Life)
    requires (forall l | l in lives :: l.Valid()) && life in lives && e in life.Trace(|life.inputs|)
    ensures e in Ended(lives)
  {
    if life != lives[|lives| - 1] {
      assert life in lives[..|lives| - 1];
      TracedIsEnded(e, lives[..|lives| - 1], life);
    }
  }

  /** And every event that a life of the run emits is logged. */
  lemma EmittedEventIsLogged(sweeps: seq<Sweep>, e: Event, life: Life, n: nat)
    requires LifeOf(sweeps, life) && EmittedBy(e, life, n)
    ensures e in Run(sweeps).log
  {
    hide Step, Run, Received;
    WorkerFollowsLives(sweeps);
    EmittedIsTraced(e, life, n, |life.inputs|);
    if life in Run(sweeps).ended {
      TracedIsEnded(e, Run(sweeps).ended, life);
    }
  }

  ghost predicate EmittedAndBacked(d: Event, life: Life, n: nat) {
    EmittedBy(d, life, n) && exists e: nat, m: nat :: Backed(life, n, e, m)
  }

  /**
   * Every detection the worker ever logs, across scope changes, outages and replays, is backed by what the
   * worker itself received: by the inputs of one life, which are all it took from a range of sweeps.
   */
  lemma WorkerDetectionsAreBacked(sweeps: seq<Sweep>, d: Event) returns (life: Life, n: nat)
    requires d in Run(sweeps).log && d.Detected?
    ensures LifeOf(sweeps, life) && EmittedAndBacked(d, life, n)
  {
    hide Step, Backed, Run, LifeOf;
    life, n := LoggedEventIsEmitted(sweeps, d);
    DetectionIsBacked(life, n, d);
  }

  /** A sustained drop that a life of the run received has its detection in the worker's log. */
  lemma WorkerLogsSustainedDrops(sweeps: seq<Sweep>, life: Life, m: nat, n: nat) returns (d: Event)
    requires LifeOf(sweeps, life) && life.Valid() && 0 < m <= n < |life.inputs| && life.Unbroken(m - 1, n)
    requires life.After(m).Watching()
    requires forall k | m <= k <= n :: life.inputs[k].Observed? && life.After(m).baseline.value - life.inputs[k].height >= life.Tune().drop
    requires life.inputs[n].at - life.inputs[m].at >= life.Tune().confirm
    ensures d.Detected? && d in Run(sweeps).log
    ensures life.inputs[m].at <= d.at <= life.inputs[n].at
  {
    hide Step, Run, LifeOf;
    SustainedDropIsDetected(life, m, n);
    var k :| m <= k <= n && DetectsAt(life, k);
    d :| d in life.EventsAt(k) && d.Detected?;
    DetectionIsBacked(life, k, d);
    assert EmittedBy(d, life, k);
    EmittedEventIsLogged(sweeps, d, life, k);
  }

  /**
   * From heights and times alone: a life of the run that starts, or starts again after an outage or a long
   * gap, sees the baseline time without a fall of more than a band and then, unbroken for the confirm time,
   * heights at least the drop below all of those, has a detection in the log within the time of the drop.
   */
  lemma WorkerDetectsFromHeights(sweeps: seq<Sweep>, life: Life, i: nat, m: nat, n: nat) returns (d: Event)
    requires LifeOf(sweeps, life) && life.Valid() && i < m <= n && life.Unbroken(i, n) && life.Unbroken(i, m - 1)
    requires || i == 0 || life.inputs[i - 1].Outage?
             || (life.inputs[i].Observed? && life.inputs[i].at - life.inputs[i - 1].at > 3 * SECOND)
    requires i == 0 || life.After(i).phase != Collecting
    requires NeverFell(life, i, m - 1) && life.inputs[i].Observed? && life.inputs[m - 1].Observed?
    requires life.inputs[m - 1].at - life.inputs[i].at >= life.Tune().baseline
    requires forall k | m <= k <= n :: life.inputs[k].Observed? && Lowest(life, i, m - 1) - life.inputs[k].height >= life.Tune().drop
    requires life.inputs[n].at - life.inputs[m].at >= life.Tune().confirm
    ensures d.Detected? && d in Run(sweeps).log
    ensures life.inputs[m].at <= d.at <= life.inputs[n].at
  {
    NewLifeIsClosed(life);
    hide Step, Run, LifeOf, NeverFell;
    StartsFromScratch(life, i);
    BaselineIsEstablished(life, i, m - 1);
    assert life.Unbroken(m - 1, n);
    d := WorkerLogsSustainedDrops(sweeps, life, m, n);
  }

  /** A new life has no open episode. */
  lemma NewLifeIsClosed(life: Life)
    requires life.Valid()
    ensures life.After(0).phase != Collecting
  {
  }

  // ---- What the worker takes ----

  /** A fresh and ready reading of height sections, measured at a time and newer than the row of its pit and scope. */
  predicate NewHeight(sweep: Sweep, row: Option<Row>, at: int, height: real) {
    var g := sweep.reading;
    && g.scope.Some? && g.depth.Some? && g.dataState == Fresh && g.filterState == Ready && g.loadPercent.Some?
    && g.observation.Some? && g.observation.value.observedTo == Some(at) && g.observation.value.source == HeightSections
    && g.observation.value.simulated == sweep.simulation && g.height == Some(height)
    && (row.Some? && row.value.payload.identity.pitId == sweep.source.pitId && Some(row.value.payload.identity.scope) == g.scope ==>
          at > row.value.payload.observedAt && g.observation.value.generatedAt > row.value.generatedAt)
  }

  /** The worker takes a height exactly from such a sweep. */
  lemma HeightIsTakenIff(sweeps: seq<Sweep>, s: nat, at: int, height: real)
    requires s < |sweeps|
    ensures Given(sweeps, s) == [Observed(at, height)] <==> NewHeight(sweeps[s], WorldAt(sweeps, s).row, at, height)
  {
    hide WorldAt;
  }
}
