/** The collection detector as values: the stored tracker, its events and one transition. */
module CollectionModel {
  import opened Basics

  const MAX_GAP: int := 3 * SECOND

  datatype Phase = Baselining | Idle | Candidate | Collecting

  datatype HeightBasis = Upper | Representative

  datatype Source = Source(siteId: string, edgeId: string, pitId: string)

  /** Heights in centimetres, durations in microseconds. */
  datatype AnyTuning = Tuning(drop: real, band: real, confirm: int, baseline: int, settle: int)

  /** The limits the settings validator enforces at start-up. */
  type Tuning = c: AnyTuning |
    && 0.0 < c.band < c.drop
    && SECOND <= c.confirm && SECOND <= c.baseline && SECOND <= c.settle
    witness AnyTuning.Tuning(2.0, 1.0, SECOND, SECOND, SECOND)

  /** The content of the scope digest. Equal tokens mean equal content, so the token is its content. */
  datatype Scope = Scope(source: Source, heightMethod: string, basis: HeightBasis, tuning: Tuning)

  /** The content of the digest behind an episode identifier. */
  datatype EpisodeId = EpisodeId(scope: Scope, detectedAt: int)

  /** Fields that the program only ever sets and clears together form one optional record each. */
  datatype Plateau = Plateau(since: int, low: real, high: real)
  {
    function Height(): real { (low + high) / 2.0 }
  }

  datatype Quiet = Quiet(since: int, anchor: real, progressSince: Option<int>)

  datatype Reference = Reference(level: real, since: int, peak: real)

  datatype Identity = Identity(pitId: string, scope: Scope, simulated: bool)

  datatype Tracker = Tracker(
    identity: Identity,
    phase: Phase,
    observedAt: int,
    inputValid: bool,
    baseline: Option<real>,
    current: Option<real>,
    stable: Option<Plateau>,
    candidateSince: Option<int>,
    episode: Option<EpisodeId>,
    quiet: Option<Quiet>,
    reference: Option<Reference>)
  {
    /** Every phase after preparation has a baseline: the program asserts it before each use. */
    predicate Sound() { phase != Baselining ==> baseline.Some? }

    /** No timer is running and, unless an episode is open, preparation starts again. */
    predicate Cleared() {
      && stable.None? && candidateSince.None? && quiet.None? && reference.None?
      && (phase == Collecting || (phase == Baselining && baseline.None?))
    }

    predicate Watching() { phase == Idle || phase == Candidate }
  }

  datatype Event =
    | Detected(id: EpisodeId, at: int, baseline: real, height: real)
    | Settled(episode: Option<EpisodeId>, at: int, height: real)

  function Born(identity: Identity, at: int): Tracker {
    Tracker(identity, Baselining, at, true, None, None, None, None, None, None, None)
  }

  function Invalidated(t: Tracker): (r: Tracker)
    ensures r.identity == t.identity && (t.Sound() ==> r.Sound())
  {
    var cleared := t.(inputValid := false, stable := None, candidateSince := None, quiet := None, reference := None);
    if t.phase == Collecting then cleared else cleared.(phase := Baselining, baseline := None)
  }

  /** The flat-band window after one height. */
  function Widened(c: Tuning, stable: Option<Plateau>, h: real, at: int): (p: Plateau)
    ensures p.low <= h <= p.high || stable.Some?
  {
    var low := if stable.Some? then Min(stable.value.low, h) else h;
    var high := if stable.Some? then Max(stable.value.high, h) else h;
    if stable.None? || high - low > c.band then Plateau(at, h, h) else Plateau(stable.value.since, low, high)
  }

  /** The rising reference after one height: a fall of more than a band below its peak restarts it. */
  function Tracked(c: Tuning, reference: Option<Reference>, h: real, at: int): Reference {
    if reference.None? || h < reference.value.peak - c.band then Reference(h, at, h)
    else reference.value.(peak := Max(reference.value.peak, h))
  }

  /** The stored reference after one height and the level that height confirms, if any. */
  function Referenced(c: Tuning, reference: Option<Reference>, h: real, at: int): (Reference, Option<real>) {
    var r := Tracked(c, reference, h, at);
    if at - r.since < c.baseline then (r, None) else (Reference(h, at, h), Some(r.level))
  }

  function Prepared(c: Tuning, t: Tracker, p: Plateau, supported: Option<real>): Tracker {
    if t.observedAt - p.since >= c.baseline then t.(baseline := Some(p.Height()), phase := Idle)
    else if supported.Some? then t.(baseline := supported, phase := Idle)
    else t
  }

  /** The baseline of a watching tracker only rises: to a supported level or to a stable plateau. */
  function Raised(c: Tuning, base: real, p: Plateau, supported: Option<real>, h: real, at: int): real {
    var b := if supported.Some? then Max(base, supported.value) else base;
    if h > b && at - p.since >= c.baseline then Max(b, p.Height()) else b
  }

  function Opened(t: Tracker, h: real, at: int): Tracker {
    t.(episode := Some(EpisodeId(t.identity.scope, at)), phase := Collecting,
       quiet := Some(Quiet(at, h, None)), reference := None, stable := Some(Plateau(at, h, h)))
  }

  /** A drop below the raised baseline `b` is a candidate until it has lasted the confirm time. */
  function Watched(c: Tuning, t: Tracker, b: real, h: real, at: int): (Tracker, seq<Event>) {
    if b - h < c.drop then (t.(baseline := Some(b), candidateSince := None, phase := Idle), [])
    else
      var since := if t.candidateSince.None? then at else t.candidateSince.value;
      var phase := if t.candidateSince.None? then Candidate else t.phase;
      var lowered := t.(baseline := Some(b), candidateSince := Some(since), phase := phase);
      if at - since < c.confirm then (lowered, [])
      else (Opened(lowered, h, at), [Detected(EpisodeId(t.identity.scope, at), at, b, h)])
  }

  /** The level that further progress is measured from: a first height, raised by a higher plateau. */
  function Anchored(c: Tuning, quiet: Option<Quiet>, p: Plateau, h: real, at: int): Quiet {
    var q := if quiet.None? then Quiet(at, h, None) else quiet.value;
    if h > q.anchor && at - p.since >= c.baseline then q.(anchor := Max(q.anchor, p.Height())) else q
  }

  /** A further drop held for the confirm time restarts the quiet interval. */
  function Progressed(c: Tuning, q: Quiet, h: real, at: int): Quiet {
    if q.anchor - h < c.band then q.(progressSince := None)
    else
      var since := if q.progressSince.Some? then q.progressSince.value else at;
      if at - since < c.confirm then q.(progressSince := Some(since)) else Quiet(at, h, None)
  }

  /** The quiet record after one height of an open episode, before a settlement clears it. */
  function Listened(c: Tuning, quiet: Option<Quiet>, p: Plateau, h: real, at: int): Quiet {
    Progressed(c, Anchored(c, quiet, p, h, at), h, at)
  }

  function Closed(t: Tracker, p: Plateau): Tracker {
    t.(baseline := Some(p.Height()), phase := Idle, episode := None, candidateSince := None,
       quiet := None, reference := None)
  }

  function Collected(c: Tuning, t: Tracker, q: Quiet, p: Plateau, h: real, at: int): (Tracker, seq<Event>) {
    if q.progressSince.None? && at - q.since >= c.settle
    then (Closed(t, p), [Settled(t.episode, at, h)])
    else (t.(quiet := Some(q)), [])
  }

  /** One accepted height. */
  function Advanced(t: Tracker, h: real, at: int): (r: (Tracker, seq<Event>))
    requires t.Sound()
    ensures r.0.Sound() && r.0.observedAt == at && r.0.inputValid && r.0.stable.Some?
    ensures r.0.identity == t.identity
  {
    var c := t.identity.scope.tuning;
    var p := Widened(c, t.stable, h, at);
    var s := t.(current := Some(h), observedAt := at, inputValid := true, stable := Some(p));
    if t.phase == Collecting then
      Collected(c, s, Listened(c, t.quiet, p, h, at), p, h, at)
    else
      var (r, supported) := Referenced(c, t.reference, h, at);
      var u := s.(reference := Some(r));
      if t.phase == Baselining then (Prepared(c, u, p, supported), [])
      else Watched(c, u, Raised(c, t.baseline.value, p, supported, h, at), h, at)
  }
}
