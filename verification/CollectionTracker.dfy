/** The mutable tracker record and the three procedures that update it field by field. */
module CollectionTracking {
  import opened Basics
  import opened CollectionModel

  class CollectionTracker {
    const identity: Identity
    var phase: Phase
    var observedAt: int
    var inputValid: bool
    var baseline: Option<real>
    var current: Option<real>
    var stable: Option<Plateau>
    var candidateSince: Option<int>
    var episode: Option<EpisodeId>
    var quiet: Option<Quiet>
    var reference: Option<Reference>

    /** The record as a value, which is also what the row stores. */
    function Value(): Tracker
      reads this
    {
      Tracker(identity, phase, observedAt, inputValid, baseline, current,
              stable, candidateSince, episode, quiet, reference)
    }

    constructor Load(t: Tracker)
      ensures Value() == t
    {
      identity, phase, observedAt, inputValid := t.identity, t.phase, t.observedAt, t.inputValid;
      baseline, current, stable := t.baseline, t.current, t.stable;
      candidateSince, episode, quiet, reference := t.candidateSince, t.episode, t.quiet, t.reference;
    }

    /** An outage is never elapsed stable time and never confirms a fresh drop. */
    method Invalidate()
      modifies this
      ensures Value() == Invalidated(old(Value()))
    {
      inputValid := false;
      stable := None;
      candidateSince := None;
      quiet := None;
      reference := None;
      if phase != Collecting {
        phase := Baselining;
        baseline := None;
      }
    }

    /** Confirm a level from below while loading continues. */
    method SustainedReference(c: Tuning, height: real, observed: int) returns (accepted: Option<real>)
      modifies this`reference
      ensures var (r, level) := Referenced(c, old(reference), height, observed);
        reference == Some(r) && accepted == level
    {
      if reference.None? || height < reference.value.peak - c.band {
        reference := Some(Reference(height, observed, height));
      }
      reference := Some(reference.value.(peak := Max(reference.value.peak, height)));
      if observed - reference.value.since < c.baseline {
        return None;
      }
      accepted := Some(reference.value.level);
      reference := Some(Reference(height, observed, height));
    }

    method Advance(height: real, observed: int) returns (events: seq<Event>)
      requires Value().Sound()
      modifies this
      ensures var (after, emitted) := Advanced(old(Value()), height, observed);
        Value() == after && events == emitted
    {
      hide Watched, Collected, Listened, Raised;
      var c := identity.scope.tuning;
      events := [];
      var low := if stable.Some? then Min(stable.value.low, height) else height;
      var high := if stable.Some? then Max(stable.value.high, height) else height;
      var since := if stable.Some? then stable.value.since else observed;
      if stable.None? || high - low > c.band {
        since, low, high := observed, height, height;
      }
      stable := Some(Plateau(since, low, high));
      var stableSpan := observed - since;
      var stableHeight := (low + high) / 2.0;
      current, observedAt, inputValid := Some(height), observed, true;
      var supported := None;
      if phase != Collecting {
        supported := SustainedReference(c, height, observed);
      }
      if phase == Baselining {
        if stableSpan >= c.baseline {
          baseline, phase := Some(stableHeight), Idle;
        } else if supported.Some? {
          baseline, phase := supported, Idle;
        }
        return;
      }
      if phase == Collecting {
        events := Collect(c, height, observed, stableSpan, stableHeight);
        return;
      }
      events := Watch(c, height, observed, stableSpan, stableHeight, supported);
    }

    /** The branch of `Advance` while no episode is open and a baseline exists. */
    method Watch(c: Tuning, height: real, observed: int, stableSpan: int, stableHeight: real, supported: Option<real>)
      returns (events: seq<Event>)
      requires baseline.Some?
      requires stable.Some? && stableSpan == observed - stable.value.since && stableHeight == stable.value.Height()
      modifies this
      ensures var raised := Raised(c, old(baseline.value), old(stable.value), supported, height, observed);
        var (after, emitted) := Watched(c, old(Value()), raised, height, observed);
        Value() == after && events == emitted
    {
      events := [];
      if supported.Some? {
        baseline := Some(Max(baseline.value, supported.value));
      }
      if height > baseline.value && stableSpan >= c.baseline {
        baseline := Some(Max(baseline.value, stableHeight));
      }
      if baseline.value - height < c.drop {
        candidateSince, phase := None, Idle;
        return;
      }
      if candidateSince.None? {
        candidateSince, phase := Some(observed), Candidate;
      }
      if observed - candidateSince.value >= c.confirm {
        episode := Some(EpisodeId(identity.scope, observed));
        phase := Collecting;
        quiet := Some(Quiet(observed, height, None));
        reference := None;
        stable := Some(Plateau(observed, height, height));
        events := events + [Detected(episode.value, observed, baseline.value, height)];
      }
    }

    /** The branch of `Advance` for an open episode. */
    method Collect(c: Tuning, height: real, observed: int, stableSpan: int, stableHeight: real)
      returns (events: seq<Event>)
      requires stable.Some? && stableSpan == observed - stable.value.since && stableHeight == stable.value.Height()
      modifies this
      ensures var listened := Listened(c, old(quiet), old(stable.value), height, observed);
        var (after, emitted) := Collected(c, old(Value()), listened, old(stable.value), height, observed);
        Value() == after && events == emitted
    {
      events := [];
      if quiet.None? {
        quiet := Some(Quiet(observed, height, None));
      }
      if height > quiet.value.anchor && stableSpan >= c.baseline {
        quiet := Some(quiet.value.(anchor := Max(quiet.value.anchor, stableHeight)));
      }
      if quiet.value.anchor - height >= c.band {
        var since := if quiet.value.progressSince.Some? then quiet.value.progressSince.value else observed;
        quiet := Some(quiet.value.(progressSince := Some(since)));
        if observed - since >= c.confirm {
          quiet := Some(Quiet(observed, height, None));
        }
      } else {
        quiet := Some(quiet.value.(progressSince := None));
      }
      if quiet.value.progressSince.None? && observed - quiet.value.since >= c.settle {
        events := events + [Settled(episode, observed, height)];
        baseline, phase := Some(stableHeight), Idle;
        episode := None;
        candidateSince := None;
        quiet := None;
        reference := None;
      }
    }
  }
}
