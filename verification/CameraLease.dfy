/** Camera evidence on two clocks: how long an observation may be shown, and that refetching never prolongs it. */
module CameraLease {
  import opened Basics

  const REFRESH: int := 2 * SECOND

  datatype Binding = Binding(pit: nat, base: nat, camera: nat)

  datatype Observation = Observation(camera: nat, assessed: int, validUntil: int, lastFrame: Option<int>, status: nat)

  /** What a fetch makes of an observation; the end of validity is on the wall clock. */
  datatype Evidence = Evidence(assessed: int, validUntil: int, lastFrame: Option<int>, status: nat)

  datatype Cached = Cached(binding: Binding, evidence: Option<Evidence>, refreshAt: int, deadline: int, receivedAt: int)

  /** The newest accepted observation; the deadline is on the steady clock. */
  datatype Last = Last(binding: Binding, assessed: int, deadline: int)

  datatype Lease = Lease(saved: Option<Cached>, last: Option<Last>)

  datatype Interpreted =
    | Accepted(evidence: Evidence, deadline: int)
    | IdentityMismatch
    | ClockUntrusted
    | Expired

  /** What a caller is shown: evidence with the time it stays valid, or nothing to rely on. */
  datatype Shown = Evident(evidence: Evidence, computedAt: int, validFor: int) | Unknown

  // ---- Interpreting one observation ----

  function Remaining(obs: Observation, started: int, wall: int, steady: int): int {
    MinInt(obs.validUntil - wall, obs.validUntil - obs.assessed - (steady - started))
  }

  predicate Remembers(last: Option<Last>, binding: Binding) { last.Some? && last.value.binding == binding }

  function Granted(last: Option<Last>, binding: Binding, obs: Observation, started: int, wall: int, steady: int): int {
    var deadline := steady + Remaining(obs, started, wall, steady);
    if Remembers(last, binding) && obs.assessed == last.value.assessed then MinInt(deadline, last.value.deadline) else deadline
  }

  function Interpret(last: Option<Last>, binding: Binding, obs: Observation, started: int, wall: int, steady: int): Interpreted {
    if obs.camera != binding.camera then IdentityMismatch
    else if obs.assessed > wall + SECOND || (obs.lastFrame.Some? && obs.lastFrame.value > obs.assessed + SECOND) then ClockUntrusted
    else if Remembers(last, binding) && obs.assessed < last.value.assessed then ClockUntrusted
    else
      var deadline := Granted(last, binding, obs, started, wall, steady);
      if deadline <= steady then Expired
      else Accepted(Evidence(obs.assessed, wall + (deadline - steady), obs.lastFrame, obs.status), deadline)
  }

  // ---- Reading the cache ----

  predicate MayShow(saved: Option<Cached>, binding: Binding, wall: int, steady: int) {
    && saved.Some? && saved.value.binding == binding && steady < saved.value.refreshAt && saved.value.receivedAt <= wall
    && (saved.value.evidence.Some? ==> wall < saved.value.evidence.value.validUntil && steady < saved.value.deadline)
  }

  function ShownFrom(saved: Option<Cached>, binding: Binding, wall: int, steady: int): Option<Shown> {
    if !MayShow(saved, binding, wall, steady) then None
    else if saved.value.evidence.None? then Some(Unknown)
    else
      var e := saved.value.evidence.value;
      Some(Evident(e, wall, MaxInt(0, MinInt(saved.value.deadline - steady, e.validUntil - wall))))
  }

  // ---- One fetch, from the answer on ----

  /** The clock readings of a fetch, in order, and the binding configured when it is over. */
  datatype Fetch = Fetch(binding: Binding, configured: Option<Binding>, answer: Option<Observation>, started: int,
                         wall: int, steady: int, failed: int, stored: int, received: int)

  function Answered(last: Option<Last>, f: Fetch): Interpreted {
    if f.answer.Some? then Interpret(last, f.binding, f.answer.value, f.started, f.wall, f.steady) else Expired
  }

  function LastAfter(last: Option<Last>, f: Fetch): Option<Last> {
    var answered := Answered(last, f);
    if answered.Accepted? then Some(Last(f.binding, answered.evidence.assessed, answered.deadline)) else last
  }

  function SavedAfter(last: Option<Last>, f: Fetch): Option<Cached> {
    var answered := Answered(last, f);
    if f.configured != Some(f.binding) then None
    else if answered.Accepted? then
      Some(Cached(f.binding, Some(answered.evidence), MinInt(f.stored + REFRESH, answered.deadline), answered.deadline, f.received))
    else Some(Cached(f.binding, None, f.stored + REFRESH, f.failed, f.received))
  }

  function Fetched(l: Lease, f: Fetch): Lease { Lease(SavedAfter(l.last, f), LastAfter(l.last, f)) }

  class CameraStatus {
    var saved: Option<Cached>
    var last: Option<Last>

    function View(): Lease
      reads this
    {
      Lease(saved, last)
    }

    constructor ()
      ensures View() == Lease(None, None)
    {
      saved, last := None, None;
    }

    method Close()
      modifies this
      ensures View() == Lease(None, None)
    {
      saved, last := None, None;
    }

    method CachedStatus(binding: Binding, wall: int, steady: int) returns (shown: Option<Shown>)
      ensures shown == ShownFrom(saved, binding, wall, steady)
    {
      if saved.None? || saved.value.binding != binding || steady >= saved.value.refreshAt || wall < saved.value.receivedAt {
        return None;
      }
      var evidence := saved.value.evidence;
      if evidence.Some? && (wall >= evidence.value.validUntil || steady >= saved.value.deadline) {
        return None;
      }
      if evidence.None? {
        return Some(Unknown);
      }
      var validFor := MinInt(saved.value.deadline - steady, evidence.value.validUntil - wall);
      return Some(Evident(evidence.value, wall, MaxInt(0, validFor)));
    }

    method InterpretAnswer(binding: Binding, obs: Observation, started: int, wall: int, steady: int) returns (result: Interpreted)
      modifies this`last
      ensures result == Interpret(old(last), binding, obs, started, wall, steady)
      ensures last == if result.Accepted? then Some(Last(binding, result.evidence.assessed, result.deadline)) else old(last)
    {
      if obs.camera != binding.camera {
        return IdentityMismatch;
      }
      if obs.assessed > wall + SECOND || (obs.lastFrame.Some? && obs.lastFrame.value > obs.assessed + SECOND) {
        return ClockUntrusted;
      }
      var remaining := MinInt(obs.validUntil - wall, obs.validUntil - obs.assessed - (steady - started));
      var deadline := steady + remaining;
      if last.Some? && last.value.binding == binding {
        if obs.assessed < last.value.assessed {
          return ClockUntrusted;
        }
        if obs.assessed == last.value.assessed {
          deadline := MinInt(deadline, last.value.deadline);
        }
      }
      if deadline <= steady {
        return Expired;
      }
      last := Some(Last(binding, obs.assessed, deadline));
      return Accepted(Evidence(obs.assessed, wall + (deadline - steady), obs.lastFrame, obs.status), deadline);
    }

    /** The part of a request that holds the lock, after a cache that had nothing to show; then the cache is read again. */
    method Refresh(f: Fetch, wall: int, steady: int) returns (shown: Shown)
      modifies this
      ensures View() == Fetched(old(View()), f)
      ensures shown == if ShownFrom(saved, f.binding, wall, steady).Some? then ShownFrom(saved, f.binding, wall, steady).value else Unknown
    {
      var result := Expired;
      if f.answer.Some? {
        result := InterpretAnswer(f.binding, f.answer.value, f.started, f.wall, f.steady);
      }
      if f.configured != Some(f.binding) {
        saved := None;
        return Unknown;
      }
      if result.Accepted? {
        saved := Some(Cached(f.binding, Some(result.evidence), MinInt(f.stored + REFRESH, result.deadline), result.deadline, f.received));
      } else {
        saved := Some(Cached(f.binding, None, f.stored + REFRESH, f.failed, f.received));
      }
      var found := CachedStatus(f.binding, wall, steady);
      return if found.Some? then found.value else Unknown;
    }
  }

  // ---- Whole runs ----

  /** A fetch, or the service is closed, which forgets everything. */
  datatype Step = Refetch(f: Fetch) | Close

  function Stepped(l: Lease, step: Step): Lease {
    match step
    case Refetch(f) => Fetched(l, f)
    case Close => Lease(None, None)
  }

  function After(steps: seq<Step>): Lease {
    if steps == [] then Lease(None, None) else Stepped(After(steps[..|steps| - 1]), steps[|steps| - 1])
  }

  /**
   * A deadline that was given to an assessment of a binding, and the latest it could have been: by the time the answer
   * took on the steady clock, and by what its own validity had left on the wall clock.
   */
  datatype Grant = Grant(binding: Binding, assessed: int, validUntil: int, deadline: int, utmost: int, wallmost: int)

  function GrantOf(last: Option<Last>, f: Fetch): seq<Grant> {
    var answered := Answered(last, f);
    if answered.Accepted? then
      var o := f.answer.value;
      [Grant(f.binding, o.assessed, o.validUntil, answered.deadline, f.started + o.validUntil - o.assessed, f.steady + o.validUntil - f.wall)]
    else []
  }

  /** The grants since the service was last closed. */
  function Grants(steps: seq<Step>): seq<Grant> {
    if steps == [] then []
    else
      var n := |steps| - 1;
      match steps[n]
      case Refetch(f) => Grants(steps[..n]) + GrantOf(After(steps[..n]).last, f)
      case Close => []
  }

  /** The second grant does not go back in time, nor forward in its deadline for the same assessment. */
  predicate Tighter(a: Grant, b: Grant) {
    a.assessed <= b.assessed && (a.assessed == b.assessed ==> b.deadline <= a.deadline)
  }

  /** No other binding was granted anything from one grant to another. */
  predicate OnlyBinding(grants: seq<Grant>, i: nat, j: nat) {
    i <= j < |grants| && forall t | i <= t <= j :: grants[t].binding == grants[i].binding
  }

  predicate InItsValidity(g: Grant) { g.deadline <= g.utmost && g.deadline <= g.wallmost }

  /** Grants of one binding tighten as long as no other binding was granted anything in between; none exceeds its own validity. */
  predicate Tightening(grants: seq<Grant>) {
    && (forall i | 0 <= i < |grants| :: InItsValidity(grants[i]))
    && forall i, j | 0 <= i < j < |grants| && OnlyBinding(grants, i, j) :: Tighter(grants[i], grants[j])
  }

  /** The remembered observation is the newest grant, and saved evidence is that one. */
  predicate Follows(l: Lease, grants: seq<Grant>) {
    && (l.last.Some? <==> grants != [])
    && (grants != [] ==>
          var g := grants[|grants| - 1]; l.last.value == Last(g.binding, g.assessed, g.deadline))
    && (l.saved.Some? && l.saved.value.evidence.Some? ==>
          && grants != [] && l.saved.value.binding == grants[|grants| - 1].binding
          && l.saved.value.evidence.value.assessed == grants[|grants| - 1].assessed
          && l.saved.value.deadline == grants[|grants| - 1].deadline
          && l.saved.value.evidence.value.validUntil <= grants[|grants| - 1].validUntil)
  }

  /** In every run of fetches and closings, whatever bindings they are for. */
  lemma {:induction false} RunTightens(steps: seq<Step>)
    ensures Tightening(Grants(steps)) && Follows(After(steps), Grants(steps))
  {
    hide Tightening, Follows, Fetched, GrantOf;
    NothingGranted();
    if steps != [] && steps[|steps| - 1].Refetch? {
      var n := |steps| - 1;
      RunTightens(steps[..n]);
      FetchTightens(Grants(steps[..n]), After(steps[..n]), steps[n].f);
    }
  }

  lemma NothingGranted()
    ensures Tightening([]) && Follows(Lease(None, None), [])
  {
  }

  lemma FetchTightens(grants: seq<Grant>, l: Lease, f: Fetch)
    requires Tightening(grants) && Follows(l, grants)
    ensures Tightening(grants + GrantOf(l.last, f)) && Follows(Fetched(l, f), grants + GrantOf(l.last, f))
  {
    hide Interpret, Remaining, Tightening;
    if Answered(l.last, f).Accepted? {
      AcceptedTightens(l.last, f.binding, f.answer.value, f.started, f.wall, f.steady);
      GrantTightens(grants, GrantOf(l.last, f)[0]);
    } else {
      assert grants + [] == grants;
    }
  }

  lemma GrantTightens(grants: seq<Grant>, next: Grant)
    requires Tightening(grants) && InItsValidity(next)
    requires grants != [] && grants[|grants| - 1].binding == next.binding ==> Tighter(grants[|grants| - 1], next)
    ensures Tightening(grants + [next])
  {
    var longer := grants + [next];
    forall i, j | 0 <= i < j < |longer| && OnlyBinding(longer, i, j)
      ensures Tighter(longer[i], longer[j])
    {
      var last := MinInt(j, |grants| - 1);
      assert forall t | i <= t <= last :: longer[t] == grants[t];
      assert OnlyBinding(grants, i, last);
      assert longer[last].binding == longer[i].binding == longer[j].binding;
      assert i < last ==> Tighter(grants[i], grants[last]);
    }
  }

  lemma AcceptedTightens(last: Option<Last>, binding: Binding, obs: Observation, started: int, wall: int, steady: int)
    requires Interpret(last, binding, obs, started, wall, steady).Accepted?
    ensures var a := Interpret(last, binding, obs, started, wall, steady);
            && a.evidence.assessed == obs.assessed
            && a.deadline <= started + obs.validUntil - obs.assessed && a.deadline <= steady + obs.validUntil - wall
            && a.evidence.validUntil <= obs.validUntil
            && (Remembers(last, binding) ==>
                  last.value.assessed <= obs.assessed && (last.value.assessed == obs.assessed ==> a.deadline <= last.value.deadline))
  {
  }

  /** The grants of a binding since another one was last granted anything. */
  predicate Recent(grants: seq<Grant>, i: nat, binding: Binding) {
    i < |grants| && grants[i].binding == binding && OnlyBinding(grants, i, |grants| - 1)
  }

  /**
   * Evidence that is shown is the newest one accepted for its binding. It is shown before every deadline
   * granted to it since another binding was last accepted or the service was closed, and before its own
   * validity has run out on either clock, however the wall clock jumps and however often the same
   * evidence is fetched again.
   */
  lemma ShownBeforeEveryDeadline(steps: seq<Step>, binding: Binding, wall: int, steady: int)
    ensures match ShownFrom(After(steps).saved, binding, wall, steady)
            case Some(Evident(e, _, validFor)) =>
              && (exists i | 0 <= i < |Grants(steps)| :: Recent(Grants(steps), i, binding) && IsOf(e, Grants(steps)[i], wall, validFor))
              && (forall i | 0 <= i < |Grants(steps)| && Recent(Grants(steps), i, binding) ::
                    Grants(steps)[i].assessed <= e.assessed && Covers(Grants(steps)[i], e, steady, validFor))
              && validFor > 0
            case _ => true
  {
    RunTightens(steps);
    hide Stepped, GrantOf, Grants, After, ShownFrom, Tightening, Recent;
    SavedBeforeEveryDeadline(After(steps), Grants(steps), binding, wall, steady);
  }

  /** Evidence of a grant, shown while the observation's own validity lasts on the wall clock. */
  predicate IsOf(e: Evidence, g: Grant, wall: int, validFor: int) {
    g.assessed == e.assessed && wall + validFor <= e.validUntil <= g.validUntil
  }

  /** Evidence of a grant's own assessment is shown before the grant's deadline and the latest it could have been. */
  predicate Covers(g: Grant, e: Evidence, steady: int, validFor: int) {
    g.assessed == e.assessed ==> steady + validFor <= g.deadline && steady < g.utmost && steady < g.wallmost
  }

  lemma SavedBeforeEveryDeadline(l: Lease, grants: seq<Grant>, binding: Binding, wall: int, steady: int)
    requires Tightening(grants) && Follows(l, grants)
    ensures match ShownFrom(l.saved, binding, wall, steady)
            case Some(Evident(e, _, validFor)) =>
              && (exists i | 0 <= i < |grants| :: Recent(grants, i, binding) && IsOf(e, grants[i], wall, validFor))
              && (forall i | 0 <= i < |grants| && Recent(grants, i, binding) ::
                    grants[i].assessed <= e.assessed && Covers(grants[i], e, steady, validFor))
              && validFor > 0
            case _ => true
  {
    if grants != [] && grants[|grants| - 1].binding == binding {
      var n := |grants| - 1;
      assert Recent(grants, n, binding);
      forall i | 0 <= i < |grants| && Recent(grants, i, binding)
        ensures Tighter(grants[i], grants[n]) && InItsValidity(grants[i])
      {
        assert i < n ==> OnlyBinding(grants, i, n);
      }
    }
  }

  // ---- Exactly what is accepted, and what is then shown ----

  /** An answer of the bound camera whose times can be trusted, and which is not older than the remembered one. */
  predicate Trusted(last: Option<Last>, f: Fetch, o: Observation) {
    && o.camera == f.binding.camera
    && o.assessed <= f.wall + SECOND && (o.lastFrame.Some? ==> o.lastFrame.value <= o.assessed + SECOND)
    && (last.Some? && last.value.binding == f.binding ==> last.value.assessed <= o.assessed)
  }

  /** The remembered deadline binds the same assessment. */
  predicate Binds(last: Option<Last>, f: Fetch, o: Observation) {
    last.Some? && last.value.binding == f.binding && last.value.assessed == o.assessed
  }

  predicate TimeIsLeft(last: Option<Last>, f: Fetch, o: Observation) {
    && f.wall < o.validUntil
    && f.steady - f.started < o.validUntil - o.assessed
    && (Binds(last, f, o) ==> f.steady < last.value.deadline)
  }

  /** A deadline within what both clocks and the remembered deadline leave, and no earlier. */
  predicate Exactly(deadline: int, last: Option<Last>, f: Fetch, o: Observation) {
    var (onWall, onSteady) := (f.steady + o.validUntil - f.wall, f.started + o.validUntil - o.assessed);
    && deadline <= onWall && deadline <= onSteady && (Binds(last, f, o) ==> deadline <= last.value.deadline)
    && (deadline == onWall || deadline == onSteady || (Binds(last, f, o) && deadline == last.value.deadline))
  }

  /** The evidence says what the observation says, and lasts as long on the wall clock as the deadline on the steady one. */
  predicate SaysTheSame(e: Evidence, deadline: int, f: Fetch, o: Observation) {
    && e.assessed == o.assessed && e.lastFrame == o.lastFrame && e.status == o.status
    && e.validUntil - f.wall == deadline - f.steady
  }

  /**
   * An answer is accepted exactly when it can be trusted and time is left of it on both clocks and of the deadline it was
   * given before; it then gets exactly the least of the three. A late answer is refused even if it came at once.
   */
  lemma AcceptedIff(last: Option<Last>, f: Fetch, o: Observation)
    requires f.answer == Some(o)
    ensures Answered(last, f).Accepted? <==> Trusted(last, f, o) && TimeIsLeft(last, f, o)
    ensures Answered(last, f).Expired? <==> Trusted(last, f, o) && !TimeIsLeft(last, f, o)
    ensures Answered(last, f).IdentityMismatch? <==> o.camera != f.binding.camera
    ensures Answered(last, f).Accepted? ==>
              && Exactly(Answered(last, f).deadline, last, f, o)
              && SaysTheSame(Answered(last, f).evidence, Answered(last, f).deadline, f, o)
              && LastAfter(last, f) == Some(Last(f.binding, o.assessed, Answered(last, f).deadline))
    ensures !Answered(last, f).Accepted? ==> LastAfter(last, f) == last
  {
  }

  /** What is shown lasts until the deadline or the end of validity, whichever comes first. */
  predicate LastsUntil(validFor: int, deadline: int, validUntil: int, wall: int, steady: int) {
    && validFor > 0 && steady + validFor <= deadline && wall + validFor <= validUntil
    && (steady + validFor == deadline || wall + validFor == validUntil)
  }

  /**
   * After a fetch under an unchanged binding, for two seconds and unless the wall clock goes back, an accepted answer is
   * shown while it lasts, and otherwise that nothing is known; nothing is shown under any other circumstances.
   */
  lemma FetchedIsShownIff(l: Lease, f: Fetch, binding: Binding, wall: int, steady: int)
    ensures var shown := ShownFrom(Fetched(l, f).saved, binding, wall, steady);
            var answered := Answered(l.last, f);
            var current := binding == f.binding && f.configured == Some(binding) && f.received <= wall && steady < f.stored + 2 * SECOND;
            && (shown.Some? && shown.value.Evident? <==>
                  && current && answered.Accepted? && steady < answered.deadline && wall < answered.evidence.validUntil)
            && (shown.Some? && shown.value.Evident? ==>
                  && shown.value.evidence == answered.evidence && shown.value.computedAt == wall
                  && LastsUntil(shown.value.validFor, answered.deadline, answered.evidence.validUntil, wall, steady))
            && (shown == Some(Unknown) <==> current && !answered.Accepted?)
  {
    hide Interpret;
  }

  /** A binding that was left and came back is not remembered: the same evidence can then be granted a later deadline. */
  lemma ReturningForgets(a: Binding, b: Binding)
    requires a != b
    ensures var grants := Grants([Refetch(FetchAt(a, 0)), Refetch(FetchAt(b, 0)), Refetch(FetchAt(a, SECOND))]);
            && |grants| == 3 && grants[0].binding == grants[2].binding && grants[0].assessed == grants[2].assessed
            && grants[0].deadline < grants[2].deadline
  {
    var all := [Refetch(FetchAt(a, 0)), Refetch(FetchAt(b, 0)), Refetch(FetchAt(a, SECOND))];
    assert all[..2] == [all[0], all[1]] && all[..2][..1] == [all[0]] && all[..2][..1][..0] == [];
    assert After([]) == Lease(None, None) && Grants([]) == [];
    assert Grants([all[0]]) == [Grant(a, 0, 10 * SECOND, 10 * SECOND, 10 * SECOND, 10 * SECOND)];
    assert After([all[0]]).last == Some(Last(a, 0, 10 * SECOND));
    assert Grants([all[0], all[1]]) == [Grant(a, 0, 10 * SECOND, 10 * SECOND, 10 * SECOND, 10 * SECOND), Grant(b, 0, 10 * SECOND, 10 * SECOND, 10 * SECOND, 10 * SECOND)];
    assert After([all[0], all[1]]).last == Some(Last(b, 0, 10 * SECOND));
    assert GrantOf(Some(Last(b, 0, 10 * SECOND)), FetchAt(a, SECOND)) == [Grant(a, 0, 10 * SECOND, 11 * SECOND, 11 * SECOND, 11 * SECOND)];
  }

  /** A fetch of the same evidence at a steady time, while the wall clock stands. */
  function FetchAt(binding: Binding, steady: int): Fetch {
    Fetch(binding, Some(binding), Some(Observation(binding.camera, 0, 10 * SECOND, None, 0)), steady, 0, steady, 0, steady, 0)
  }
}
