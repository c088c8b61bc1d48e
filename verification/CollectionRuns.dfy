/** What the detector's events mean, over every run of one tracker. */
module CollectionRuns {
  import opened Basics
  import opened CollectionModel

  datatype Input = Observed(at: int, height: real) | Outage

  /** An outage, or an observation after a long gap, meets an invalidated tracker. */
  function Met(t: Tracker, input: Input): (r: Tracker)
    requires t.Sound()
    ensures r.Sound() && r.identity == t.identity
  {
    if input.Outage? then (if t.inputValid then Invalidated(t) else t)
    else if input.at - t.observedAt > MAX_GAP then Invalidated(t)
    else t
  }

  function Step(t: Tracker, input: Input): (r: (Tracker, seq<Event>))
    requires t.Sound()
    ensures r.0.Sound() && r.0.identity == t.identity
  {
    if input.Outage? then (Met(t, input), []) else Advanced(Met(t, input), input.height, input.at)
  }

  /** Everything one tracker was given since it was created: accepted observations and outages. */
  datatype Life = Life(identity: Identity, inputs: seq<Input>)
  {
    ghost predicate Valid() {
      && inputs != [] && inputs[0].Observed?
      && forall i, j | 0 <= i < j < |inputs| :: inputs[i].Observed? && inputs[j].Observed? ==> inputs[i].at < inputs[j].at
    }

    function Tune(): Tuning { identity.scope.tuning }

    /** The tracker after the first `n` inputs. */
    function After(n: nat): (t: Tracker)
      requires Valid() && n <= |inputs|
      ensures t.Sound() && t.identity == identity
    {
      if n == 0 then Born(identity, inputs[0].at) else Step(After(n - 1), inputs[n - 1]).0
    }

    /** The tracker that input `n` meets. */
    function Prior(n: nat): (t: Tracker)
      requires Valid() && n < |inputs|
    {
      Met(After(n), inputs[n])
    }

    function EventsAt(n: nat): seq<Event>
      requires Valid() && n < |inputs|
    {
      Step(After(n), inputs[n]).1
    }

    /** The events of the first `n` inputs, in order. */
    function Trace(n: nat): seq<Event>
      requires Valid() && n <= |inputs|
    {
      if n == 0 then [] else Trace(n - 1) + EventsAt(n - 1)
    }

    /** Input `k` follows its predecessor without an outage or a gap above the limit. */
    ghost predicate Follows(k: nat) {
      0 < k < |inputs| && inputs[k - 1].Observed? && inputs[k].Observed? && inputs[k].at - inputs[k - 1].at <= MAX_GAP
    }

    /** Inputs i..j are observations with no gap above the limit between neighbours. */
    ghost predicate Unbroken(i: nat, j: nat) {
      i <= j < |inputs| && inputs[i].Observed? && forall k | i < k <= j :: Follows(k)
    }
  }

  /** An input either meets a cleared tracker or continues an unbroken stretch. */
  lemma {:induction false} Continuity(life: Life, n: nat)
    requires life.Valid() && n <= |life.inputs|
    ensures !life.After(n).inputValid ==> life.After(n).Cleared()
    ensures forall k | 0 <= k < n && life.inputs[k].Observed? :: life.inputs[k].at <= life.After(n).observedAt
    ensures 0 < n && life.inputs[n - 1].Observed? ==> life.After(n).inputValid && life.After(n).observedAt == life.inputs[n - 1].at
    ensures 0 < n && life.inputs[n - 1].Outage? ==> !life.After(n).inputValid
    ensures life.After(n).observedAt >= life.inputs[0].at
  {
    if n > 0 {
      Continuity(life, n - 1);
    }
  }

  lemma {:induction false} LastObserved(life: Life, n: nat) returns (k: nat)
    requires life.Valid() && 0 < n <= |life.inputs|
    ensures k < n && life.inputs[k].Observed? && life.After(n).observedAt == life.inputs[k].at
  {
    if n == 1 || life.inputs[n - 1].Observed? {
      k := n - 1;
    } else {
      k := LastObserved(life, n - 1);
    }
  }

  lemma PriorCases(life: Life, n: nat)
    requires life.Valid() && n < |life.inputs| && life.inputs[n].Observed?
    ensures life.Prior(n).Cleared() ||
            (0 < n && life.Unbroken(n - 1, n) && life.Prior(n) == life.After(n))
  {
    Continuity(life, n);
  }

  lemma FollowerMeetsAfter(life: Life, k: nat)
    requires life.Valid() && life.Follows(k)
    ensures life.Prior(k) == life.After(k)
  {
    Continuity(life, k);
  }

  /** What an observation makes of the tracker it meets. */
  lemma ObservedStep(life: Life, n: nat)
    requires life.Valid() && n < |life.inputs| && life.inputs[n].Observed?
    ensures life.After(n + 1) == Advanced(life.Prior(n), life.inputs[n].height, life.inputs[n].at).0
    ensures life.EventsAt(n) == Advanced(life.Prior(n), life.inputs[n].height, life.inputs[n].at).1
  {
    hide Advanced, Met;
  }

  lemma Extend(life: Life, i: nat, n: nat)
    requires 0 < n < |life.inputs| && life.Unbroken(i, n - 1) && life.Unbroken(n - 1, n)
    ensures life.Unbroken(i, n)
  {
  }

  /** Which optional fields each phase uses. `candidateSince` is unconstrained while collecting. */
  ghost predicate Shape(t: Tracker) {
    && (t.phase == Collecting ==> t.reference.None? && t.episode.Some?)
    && (t.phase != Collecting ==> t.quiet.None? && t.episode.None? && (t.candidateSince.Some? <==> t.phase == Candidate))
  }

  lemma AdvancedShape(t: Tracker, h: real, at: int)
    requires t.Sound() && Shape(t)
    ensures Shape(Advanced(t, h, at).0)
  {
  }

  lemma {:induction false} ShapeAlways(life: Life, n: nat)
    requires life.Valid() && n <= |life.inputs|
    ensures Shape(life.After(n))
    ensures n < |life.inputs| ==> Shape(life.Prior(n))
  {
    if n > 0 {
      ShapeAlways(life, n - 1);
      if life.inputs[n - 1].Observed? {
        AdvancedShape(life.Prior(n - 1), life.inputs[n - 1].height, life.inputs[n - 1].at);
      }
    }
  }

  // ---- What the running windows remember ----

  /** `p` started at input `i`, spans every height up to input `n` and is at most one band wide. */
  ghost predicate PlateauFrom(life: Life, n: nat, i: nat, p: Plateau)
    requires life.Valid() && n < |life.inputs|
  {
    && life.Unbroken(i, n)
    && p.since == life.inputs[i].at
    && p.low <= p.high <= p.low + life.Tune().band
    && forall k | i <= k <= n :: life.inputs[k].Observed? && p.low <= life.inputs[k].height <= p.high
  }

  function PlateauAt(life: Life, n: nat): Plateau
    requires life.Valid() && n < |life.inputs| && life.inputs[n].Observed?
  {
    Widened(life.Tune(), life.Prior(n).stable, life.inputs[n].height, life.inputs[n].at)
  }

  lemma AdvancedPlateau(t: Tracker, h: real, at: int)
    requires t.Sound()
    ensures var p := Advanced(t, h, at).0.stable.value;
            p == Plateau(at, h, h) || p == Widened(t.identity.scope.tuning, t.stable, h, at)
  {
  }

  lemma PlateauStarts(life: Life, n: nat)
    requires life.Valid() && n < |life.inputs| && life.inputs[n].Observed?
    ensures PlateauFrom(life, n, n, Plateau(life.inputs[n].at, life.inputs[n].height, life.inputs[n].height))
  {
  }

  lemma {:induction false} PlateauNow(life: Life, n: nat) returns (i: nat)
    requires life.Valid() && n < |life.inputs| && life.inputs[n].Observed?
    ensures PlateauFrom(life, n, i, PlateauAt(life, n))
    decreases n, 1
  {
    PriorCases(life, n);
    i := n;
    if PlateauAt(life, n) != Plateau(life.inputs[n].at, life.inputs[n].height, life.inputs[n].height) {
      i := PlateauHistory(life, n);
      Extend(life, i, n);
    }
  }

  lemma {:induction false} PlateauHistory(life: Life, n: nat) returns (i: nat)
    requires life.Valid() && n <= |life.inputs|
    ensures life.After(n).stable.Some? ==> 0 < n && PlateauFrom(life, n - 1, i, life.After(n).stable.value)
    decreases n, 0
  {
    hide Advanced, Met, Step, Widened;
    i := 0;
    Continuity(life, n);
    if n > 0 && life.inputs[n - 1].Observed? {
      ObservedStep(life, n - 1);
      PlateauStarts(life, n - 1);
      AdvancedPlateau(life.Prior(n - 1), life.inputs[n - 1].height, life.inputs[n - 1].at);
      if life.After(n).stable.value == PlateauAt(life, n - 1) {
        i := PlateauNow(life, n - 1);
      } else {
        i := n - 1;
      }
    }
  }

  /** `r` started at input `i` and no height up to input `n` fell more than a band below an earlier one. */
  ghost predicate ReferenceFrom(life: Life, n: nat, i: nat, r: Reference)
    requires life.Valid() && n < |life.inputs|
  {
    && life.Unbroken(i, n)
    && r.since == life.inputs[i].at && r.level == life.inputs[i].height
    && NeverFell(life, i, n)
    && forall k | i <= k <= n :: life.inputs[k].Observed? && life.inputs[k].height <= r.peak
  }

  ghost predicate NeverFell(life: Life, i: nat, j: nat)
    requires j < |life.inputs|
  {
    forall a, b | i <= a <= b <= j :: Held(life, a, b)
  }

  ghost predicate Held(life: Life, a: nat, b: nat)
    requires a < |life.inputs| && b < |life.inputs|
  {
    life.inputs[a].Observed? && life.inputs[b].Observed? && life.inputs[b].height >= life.inputs[a].height - life.Tune().band
  }

  /** The reference after input `n`, before an accepted level restarts it. */
  function TrackedAt(life: Life, n: nat): Reference
    requires life.Valid() && n < |life.inputs| && life.inputs[n].Observed?
  {
    Tracked(life.Tune(), life.Prior(n).reference, life.inputs[n].height, life.inputs[n].at)
  }

  lemma AdvancedReference(t: Tracker, h: real, at: int)
    requires t.Sound() && Shape(t)
    ensures var r := Advanced(t, h, at).0.reference;
            r.None? || r.value == Reference(h, at, h) || r.value == Tracked(t.identity.scope.tuning, t.reference, h, at)
  {
  }

  lemma {:induction false} ReferenceNow(life: Life, n: nat) returns (i: nat)
    requires life.Valid() && n < |life.inputs| && life.inputs[n].Observed?
    ensures ReferenceFrom(life, n, i, TrackedAt(life, n))
    decreases n, 1
  {
    PriorCases(life, n);
    i := n;
    if TrackedAt(life, n) != Reference(life.inputs[n].height, life.inputs[n].at, life.inputs[n].height) {
      i := ReferenceHistory(life, n);
      Extend(life, i, n);
      forall a | i <= a <= n
        ensures Held(life, a, n)
      {
        assert a < n ==> life.inputs[a].height <= life.After(n).reference.value.peak;
      }
    }
  }

  lemma {:induction false} ReferenceHistory(life: Life, n: nat) returns (i: nat)
    requires life.Valid() && n <= |life.inputs|
    ensures life.After(n).reference.Some? ==> 0 < n && ReferenceFrom(life, n - 1, i, life.After(n).reference.value)
    decreases n, 0
  {
    i := 0;
    Continuity(life, n);
    if n > 0 && life.inputs[n - 1].Observed? && life.After(n).reference.Some? {
      ShapeAlways(life, n - 1);
      AdvancedReference(life.Prior(n - 1), life.inputs[n - 1].height, life.inputs[n - 1].at);
      if life.After(n).reference.value == TrackedAt(life, n - 1) {
        i := ReferenceNow(life, n - 1);
      } else {
        i := n - 1;
      }
    }
  }

  /**
   * Every level accepted from below, whether it becomes the baseline or not, was the first height of an
   * unbroken stretch of the baseline time in which no height fell more than a band below an earlier one.
   */
  lemma AcceptedLevelWasHeld(life: Life, n: nat, level: real) returns (i: nat)
    requires life.Valid() && n < |life.inputs| && life.inputs[n].Observed? && life.Prior(n).phase != Collecting
    requires Referenced(life.Tune(), life.Prior(n).reference, life.inputs[n].height, life.inputs[n].at).1 == Some(level)
    ensures i <= n && life.Unbroken(i, n) && level == life.inputs[i].height && NeverFell(life, i, n)
    ensures life.inputs[n].at - life.inputs[i].at >= life.Tune().baseline
  {
    i := ReferenceNow(life, n);
  }

  // ---- What stands behind a baseline ----

  /** `level` was observed for the whole baseline time, as a flat plateau or from below. */
  ghost predicate Supported(life: Life, n: nat, level: real)
    requires life.Valid() && n < |life.inputs|
  {
    exists i: nat :: i <= n && SupportedFrom(life, n, i, level)
  }

  ghost predicate SupportedFrom(life: Life, n: nat, i: nat, level: real)
    requires life.Valid() && i <= n < |life.inputs|
  {
    && life.Unbroken(i, n) && life.inputs[n].Observed?
    && life.inputs[n].at - life.inputs[i].at >= life.Tune().baseline
    && ((forall k | i <= k <= n :: Near(life, k, level)) || (level == life.inputs[i].height && NeverFell(life, i, n)))
  }

  /** The height at `k` is within half a band of `level`. */
  ghost predicate Near(life: Life, k: nat, level: real)
    requires k < |life.inputs|
  {
    life.inputs[k].Observed? && -life.Tune().band <= 2.0 * (life.inputs[k].height - level) <= life.Tune().band
  }

  lemma AdvancedBaseline(t: Tracker, h: real, at: int)
    requires t.Sound() && t.phase != Collecting
    ensures var (c, b) := (t.identity.scope.tuning, Advanced(t, h, at).0.baseline);
            var (p, r) := (Widened(c, t.stable, h, at), Tracked(c, t.reference, h, at));
            || b == t.baseline
            || (b == Some(p.Height()) && at - p.since >= c.baseline)
            || (b == Some(r.level) && at - r.since >= c.baseline)
    ensures t.Watching() ==> Advanced(t, h, at).0.baseline.value >= t.baseline.value
  {
  }

  /**
   * Every baseline that is set or raised outside settlement was held for the baseline time,
   * in one stretch without an outage or a long gap; and a watching tracker's baseline never falls.
   */
  lemma BaselineIsSupported(life: Life, n: nat)
    requires life.Valid() && n < |life.inputs| && life.inputs[n].Observed? && life.Prior(n).phase != Collecting
    ensures life.After(n + 1).baseline != life.Prior(n).baseline ==>
              life.After(n + 1).baseline.Some? && Supported(life, n, life.After(n + 1).baseline.value)
    ensures life.Prior(n).Watching() ==>
              life.After(n + 1).baseline.Some? && life.After(n + 1).baseline.value >= life.Prior(n).baseline.value
  {
    AdvancedBaseline(life.Prior(n), life.inputs[n].height, life.inputs[n].at);
    var b := life.After(n + 1).baseline;
    if b != life.Prior(n).baseline {
      if b == Some(PlateauAt(life, n).Height()) && life.inputs[n].at - PlateauAt(life, n).since >= life.Tune().baseline {
        var i := PlateauNow(life, n);
        PlateauIsNear(life, n, i, PlateauAt(life, n));
        assert SupportedFrom(life, n, i, b.value);
      } else {
        var i := ReferenceNow(life, n);
        assert SupportedFrom(life, n, i, b.value);
      }
    }
  }

  lemma PlateauIsNear(life: Life, n: nat, i: nat, p: Plateau)
    requires life.Valid() && n < |life.inputs| && PlateauFrom(life, n, i, p)
    ensures forall k | i <= k <= n :: Near(life, k, p.Height())
  {
    forall k | i <= k <= n
      ensures Near(life, k, p.Height())
    {
      assert p.low <= life.inputs[k].height <= p.high;
    }
  }

  // ---- Detections ----

  /** From input `e`, which set a baseline, to state `n` the tracker watched one rising baseline unbroken. */
  ghost predicate WatchedSince(life: Life, n: nat, e: nat)
    requires life.Valid() && n <= |life.inputs|
  {
    && e < n && life.Unbroken(e, n - 1)
    && !life.Prior(e).Watching()
    && (forall k | e < k <= n :: WatchingAt(life, k))
    && forall k | e < k < n :: BaselineRises(life, k)
  }

  ghost predicate WatchingAt(life: Life, k: nat)
    requires life.Valid() && k <= |life.inputs|
  {
    life.After(k).Watching()
  }

  ghost predicate BaselineRises(life: Life, k: nat)
    requires life.Valid() && k < |life.inputs|
  {
    && life.After(k).baseline.Some? && life.After(k + 1).baseline.Some?
    && life.After(k).baseline.value <= life.After(k + 1).baseline.value
  }

  lemma WatchHistoryStep(life: Life, m: nat, e: nat)
    requires life.Valid() && 0 < m < |life.inputs| && WatchedSince(life, m, e) && life.Unbroken(m - 1, m)
    requires BaselineRises(life, m) && WatchingAt(life, m + 1)
    ensures WatchedSince(life, m + 1, e)
  {
    hide Step, Advanced;
    Extend(life, e, m);
  }

  lemma {:induction false} WatchHistory(life: Life, n: nat) returns (e: nat)
    requires life.Valid() && n <= |life.inputs|
    ensures life.After(n).Watching() ==> WatchedSince(life, n, e)
  {
    hide Advanced, Met, Step;
    e := 0;
    Continuity(life, n);
    if n > 0 && life.inputs[n - 1].Observed? && life.After(n).Watching() {
      var m := n - 1;
      PriorCases(life, m);
      if life.Prior(m).Watching() {
        e := WatchHistory(life, m);
        BaselineIsSupported(life, m);
        WatchHistoryStep(life, m, e);
      } else {
        e := m;
      }
    }
  }

  /** Input `k` left its height at least the drop below the baseline in force. */
  ghost predicate Dropped(life: Life, k: nat)
    requires life.Valid() && k < |life.inputs|
  {
    && life.inputs[k].Observed? && life.After(k + 1).baseline.Some?
    && life.After(k + 1).baseline.value - life.inputs[k].height >= life.Tune().drop
  }

  /** The candidate timer started at input `i` and every height since then stayed dropped. */
  ghost predicate CandidateFrom(life: Life, n: nat, i: nat, since: int)
    requires life.Valid() && n < |life.inputs|
  {
    && life.Unbroken(i, n) && since == life.inputs[i].at
    && life.Prior(i).phase == Idle
    && (forall k | i < k <= n :: WatchingAt(life, k))
    && forall k | i <= k <= n :: Dropped(life, k)
  }

  lemma AdvancedCandidate(t: Tracker, h: real, at: int)
    requires t.Sound() && Shape(t)
    ensures var (r, events) := Advanced(t, h, at);
            var dropped := r.baseline.Some? && r.baseline.value - h >= t.identity.scope.tuning.drop;
            var since := if t.candidateSince.Some? then t.candidateSince.value else at;
            && (r.phase == Candidate ==> t.Watching() && dropped && r.candidateSince == Some(since)
                                         && at - since < t.identity.scope.tuning.confirm && events == [])
            && (t.Watching() && dropped && at - since >= t.identity.scope.tuning.confirm ==>
                  events == [Detected(EpisodeId(t.identity.scope, at), at, r.baseline.value, h)])
            && (t.Watching() && dropped && at - since < t.identity.scope.tuning.confirm ==>
                  r.phase == Candidate && r.candidateSince == Some(since))
            && (forall e | e in events && e.Detected? ::
                  && t.Watching() && dropped && at - since >= t.identity.scope.tuning.confirm
                  && r.phase == Collecting && e.at == at && e.height == h && Some(e.baseline) == r.baseline
                  && r.episode == Some(e.id) && e.id == EpisodeId(t.identity.scope, at))
  {
  }

  lemma {:induction false} CandidateHistory(life: Life, n: nat) returns (i: nat)
    requires life.Valid() && n <= |life.inputs|
    ensures life.After(n).phase == Candidate ==>
              0 < n && life.After(n).candidateSince.Some? && CandidateFrom(life, n - 1, i, life.After(n).candidateSince.value)
  {
    hide Advanced, Met, Step;
    i := 0;
    Continuity(life, n);
    ShapeAlways(life, n);
    if n > 0 && life.inputs[n - 1].Observed? && life.After(n).phase == Candidate {
      var m := n - 1;
      ObservedStep(life, m);
      PriorCases(life, m);
      ShapeAlways(life, m);
      AdvancedCandidate(life.Prior(m), life.inputs[m].height, life.inputs[m].at);
      if life.Prior(m).phase == Candidate {
        i := CandidateHistory(life, m);
        Extend(life, i, m);
        assert Dropped(life, m) && WatchingAt(life, m);
      } else {
        i := m;
      }
    }
  }

  /**
   * The evidence behind a detection at input `n`: input `e` set a baseline that was watched, only rising
   * and unbroken by an outage or a long gap, up to `n`; and from input `m` on, for at least the confirm
   * time, every height was at least the drop below the baseline in force at that height.
   */
  ghost predicate Backed(life: Life, n: nat, e: nat, m: nat)
    requires life.Valid() && n < |life.inputs|
  {
    && e < m <= n && life.Unbroken(e, n)
    && WatchedSince(life, n, e)
    && life.inputs[m].Observed? && life.inputs[n].Observed?
    && life.inputs[n].at - life.inputs[m].at >= life.Tune().confirm
    && forall k | m <= k <= n :: Dropped(life, k)
  }

  lemma DetectionIsBacked(life: Life, n: nat, d: Event)
    requires life.Valid() && n < |life.inputs| && d in life.EventsAt(n) && d.Detected?
    ensures life.inputs[n] == Observed(d.at, d.height)
    ensures life.After(n + 1).baseline == Some(d.baseline) && d.baseline - d.height >= life.Tune().drop
    ensures exists e: nat, m: nat :: Backed(life, n, e, m)
  {
    PriorCases(life, n);
    ShapeAlways(life, n);
    AdvancedCandidate(life.Prior(n), life.inputs[n].height, life.inputs[n].at);
    var e, m := DetectionStretch(life, n);
  }

  lemma DetectionStretch(life: Life, n: nat) returns (e: nat, m: nat)
    requires life.Valid() && 0 < n < |life.inputs| && life.Unbroken(n - 1, n) && Dropped(life, n)
    requires life.After(n).phase == Candidate && life.inputs[n].at - life.After(n).candidateSince.value >= life.Tune().confirm
    ensures Backed(life, n, e, m)
  {
    hide Step, Advanced;
    e := WatchHistory(life, n);
    Extend(life, e, n);
    m := CandidateHistory(life, n);
    Extend(life, m, n);
    forall k | m < k < n
      ensures life.Prior(k).Watching()
    {
      FollowerMeetsAfter(life, k);
      assert WatchingAt(life, k);
    }
  }

  /**
   * Conversely no sustained drop is missed: if a watching tracker's heights stay at least the drop below
   * the baseline of input `m`, unbroken for the confirm time, a detection happens on the way.
   */
  lemma {:induction false} SustainedDropIsDetected(life: Life, m: nat, n: nat)
    requires life.Valid() && 0 < m <= n < |life.inputs| && life.Unbroken(m - 1, n)
    requires life.After(m).Watching()
    requires forall k | m <= k <= n :: life.inputs[k].Observed? && life.After(m).baseline.value - life.inputs[k].height >= life.Tune().drop
    requires life.inputs[n].at - life.inputs[m].at >= life.Tune().confirm
    ensures exists k :: m <= k <= n && DetectsAt(life, k)
  {
    if !exists k :: m <= k <= n && DetectsAt(life, k) {
      DropWithoutDetection(life, m, n);
    }
  }

  ghost predicate DetectsAt(life: Life, k: nat)
    requires life.Valid() && k < |life.inputs|
  {
    exists e :: e in life.EventsAt(k) && e.Detected?
  }

  lemma {:induction false} DropWithoutDetection(life: Life, m: nat, n: nat)
    requires life.Valid() && 0 < m <= n < |life.inputs| && life.Unbroken(m - 1, n)
    requires life.After(m).Watching()
    requires forall k | m <= k <= n :: life.inputs[k].Observed? && life.After(m).baseline.value - life.inputs[k].height >= life.Tune().drop
    requires forall k | m <= k <= n :: !DetectsAt(life, k)
    ensures life.After(n + 1).phase == Candidate && life.After(n + 1).candidateSince.Some?
    ensures life.After(n + 1).candidateSince.value <= life.inputs[m].at
    ensures life.After(n + 1).baseline.Some? && life.After(n + 1).baseline.value >= life.After(m).baseline.value
    ensures life.inputs[n].at - life.inputs[m].at < life.Tune().confirm
  {
    hide Advanced;
    if n > m {
      DropWithoutDetection(life, m, n - 1);
    } else if life.After(m).phase == Candidate {
      var i := CandidateHistory(life, m);
    }
    assert life.Follows(n);
    FollowerMeetsAfter(life, n);
    ShapeAlways(life, n);
    AdvancedBaseline(life.Prior(n), life.inputs[n].height, life.inputs[n].at);
    AdvancedCandidate(life.Prior(n), life.inputs[n].height, life.inputs[n].at);
    assert life.EventsAt(n) == [] || life.EventsAt(n)[0] in life.EventsAt(n);
    assert !DetectsAt(life, n);
  }
}
