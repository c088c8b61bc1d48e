/** The published history sample of one bucket, and its meaning in terms of the bucket's slots. */
module MinuteResults {
  import opened Basics
  import opened MinuteModel
  import opened MinuteReader
  import opened MinuteStreams
  import opened MinuteTables

  datatype Sample = Sample(
    at: nat,
    generatedAt: Option<nat>,
    observedAt: Option<int>,
    assessmentId: Option<string>,
    observationId: Option<string>,
    inputSource: string,
    simulated: bool,
    methodVersion: Option<string>,
    valuePercent: Option<real>,
    dataState: string,
    reasonCodes: seq<string>,
    average: Option<real>,
    minimum: Option<real>,
    maximum: Option<real>,
    validSamples: nat,
    invalidSamples: nat)

  predicate Mixed(g: Group) { g.mixed || |g.sources| > 1 || |g.methods| > 1 }

  /** The evidence of the last slot is published only when it lies in the window and in the slot's second. */
  predicate Retained(l: Last, start: nat, end: nat) {
    start <= l.evidence.generatedAt < end && l.evidence.generatedAt / SECOND == l.time / SECOND
  }

  /** One group published. `source` and `technique` are the names an unmixed bucket shows. */
  function Published(g: Group, start: nat, end: nat, source: string, technique: Option<string>): Sample
    requires g.last.Some?
  {
    var l := g.last.value;
    var kept := Retained(l, start, end);
    var mixed := Mixed(g);
    var value := if mixed then None else l.value;
    Sample(
      if kept then l.evidence.generatedAt else l.time,
      if kept then Some(l.evidence.generatedAt) else None,
      if kept then l.evidence.observedAt else None,
      if kept then l.evidence.assessmentId else None,
      if kept then l.evidence.observationId else None,
      if mixed then "MIXED" else source,
      g.simulated,
      if mixed then None else technique,
      value,
      if mixed then "UNKNOWN" else if kept then l.evidence.dataState else if value.Some? then "AVAILABLE" else "UNKNOWN",
      if mixed then ["FILL_METHOD_CHANGED_WITHIN_BUCKET"]
      else if kept then l.evidence.reasonCodes
      else ["COMPACT_SUBMINUTE_METADATA_NOT_RETAINED"],
      if g.count > 0 && !mixed then Some(g.total / g.count as real) else None,
      if mixed then None else g.minimum,
      if mixed then None else g.maximum,
      if mixed then 0 else g.count,
      if mixed then g.invalid + g.count else g.invalid)
  }

  /** Any name of a set, or the fallback when it is empty. */
  ghost predicate NameFrom(names: set<string>, fallback: string, name: string) {
    if names == {} then name == fallback else name in names
  }

  ghost predicate TechniqueFrom(names: set<string>, fallback: Option<string>, technique: Option<string>) {
    if names == {} then technique == fallback else technique.Some? && technique.value in names
  }

  ghost predicate Publishes(g: Group, start: nat, end: nat, r: Sample) {
    g.last.Some? && exists source, technique ::
      && NameFrom(g.sources, g.last.value.source, source)
      && TechniqueFrom(g.methods, g.last.value.technique, technique)
      && r == Published(g, start, end, source, technique)
  }

  ghost predicate PublishesAll(groups: map<nat, Group>, start: nat, end: nat, result: map<nat, Sample>) {
    result.Keys == groups.Keys && forall b | b in groups :: Publishes(groups[b], start, end, result[b])
  }

  method PublishOne(g: Group, start: nat, end: nat) returns (r: Sample)
    requires g.last.Some?
    ensures Publishes(g, start, end, r)
  {
    var source := g.last.value.source;
    if g.sources != {} {
      source :| source in g.sources;
    }
    var technique := g.last.value.technique;
    if g.methods != {} {
      var name :| name in g.methods;
      technique := Some(name);
    }
    r := Published(g, start, end, source, technique);
    assert NameFrom(g.sources, g.last.value.source, source) && TechniqueFrom(g.methods, g.last.value.technique, technique);
  }

  method CompactResult(groups: map<nat, Group>, start: nat, end: nat) returns (result: map<nat, Sample>)
    requires forall b | b in groups :: groups[b].last.Some?
    ensures PublishesAll(groups, start, end, result)
  {
    hide Publishes;
    result := map[];
    var rest := groups.Keys;
    while rest != {}
      invariant rest <= groups.Keys
      invariant result.Keys == groups.Keys - rest
      invariant forall b | b in result :: Publishes(groups[b], start, end, result[b])
    {
      var b :| b in rest;
      var r := PublishOne(groups[b], start, end);
      result := result[b := r];
      rest := rest - {b};
    }
  }

  lemma SmallCap(kept: set<string>, all: set<string>)
    requires Capped(kept, all)
    ensures |kept| > 1 <==> |all| > 1
    ensures |all| <= 1 ==> kept == all
  {
    if |all| <= 1 {
      SubsetOfSize(kept, all);
    }
  }

  lemma OneName(names: set<string>, a: string, b: string)
    requires |names| <= 1 && a in names && b in names
    ensures a == b
  {
    SubsetSize({a, b}, names);
  }

  lemma BoundsAreUnique(x: Option<real>, y: Option<real>, slots: set<Slot>)
    ensures Least(x, slots) && Least(y, slots) ==> x == y
    ensures Greatest(x, slots) && Greatest(y, slots) ==> x == y
  {
  }

  lemma LastIsUnique(x: Option<Last>, y: Option<Last>, slots: set<Slot>)
    requires Latest(x, slots) && Latest(y, slots)
    ensures x == y
  {
  }

  /**
   * The published sample depends only on which slots the bucket holds: not on the order of rows, pages or
   * slots, not on which two of several names a capped set kept, and not on stored or recomputed statistics.
   */
  lemma PublishedIsDetermined(g1: Group, g2: Group, slots: set<Slot>, start: nat, end: nat, r1: Sample, r2: Sample)
    requires Represents(g1, slots) && Represents(g2, slots) && slots != {}
    requires Publishes(g1, start, end, r1) && Publishes(g2, start, end, r2)
    ensures r1 == r2
  {
    hide Least, Greatest, Latest, Capped, SomeSimulated, Retained;
    BoundsAreUnique(g1.minimum, g2.minimum, slots);
    BoundsAreUnique(g1.maximum, g2.maximum, slots);
    LastIsUnique(g1.last, g2.last, slots);
    SmallCap(g1.sources, Sources(slots));
    SmallCap(g2.sources, Sources(slots));
    SmallCap(g1.methods, Methods(slots));
    SmallCap(g2.methods, Methods(slots));
    var s1, t1 :| NameFrom(g1.sources, g1.last.value.source, s1) && TechniqueFrom(g1.methods, g1.last.value.technique, t1)
                  && r1 == Published(g1, start, end, s1, t1);
    var s2, t2 :| NameFrom(g2.sources, g2.last.value.source, s2) && TechniqueFrom(g2.methods, g2.last.value.technique, t2)
                  && r2 == Published(g2, start, end, s2, t2);
    if !Mixed(g1) {
      if g1.sources != {} { OneName(g1.sources, s1, s2); }
      if g1.methods != {} { OneName(g1.methods, t1.value, t2.value); }
    }
  }

  /** What a published sample says about its slots. */
  lemma PublishedMeaning(g: Group, slots: set<Slot>, start: nat, end: nat, r: Sample)
    requires Represents(g, slots) && slots != {} && Publishes(g, start, end, r)
    ensures r.validSamples + r.invalidSamples == |slots|
    ensures r.simulated <==> SomeSimulated(slots)
    ensures |Sources(slots)| > 1 || |Methods(slots)| > 1 ==>
              && r.inputSource == "MIXED" && r.valuePercent.None? && r.average.None? && r.minimum.None? && r.maximum.None?
              && r.methodVersion.None? && r.validSamples == 0 && r.reasonCodes == ["FILL_METHOD_CHANGED_WITHIN_BUCKET"]
    ensures |Sources(slots)| <= 1 && |Methods(slots)| <= 1 ==>
              && r.validSamples == |Valid(slots)|
              && (r.average.Some? <==> Valid(slots) != {})
              && (r.average.Some? ==> r.average.value * |Valid(slots)| as real == Total(slots))
              && Least(r.minimum, slots) && Greatest(r.maximum, slots)
              && (forall s | s in Valid(slots) :: r.inputSource == s.source)
              && (forall s | s in Valid(slots) && s.technique.Some? :: r.methodVersion == s.technique)
    ensures |Sources(slots)| <= 1 && |Methods(slots)| <= 1 ==>
              exists l :: l in slots && r.valuePercent == l.value && (forall t | t in slots && t != l :: t.time < l.time)
                          && (Sources(slots) == {} ==> r.inputSource == l.source)
                          && (Methods(slots) == {} ==> r.methodVersion == l.technique)
  {
    hide Least, Greatest, Capped, SomeSimulated, Retained, Total;
    SmallCap(g.sources, Sources(slots));
    SmallCap(g.methods, Methods(slots));
    SubsetSize(Valid(slots), slots);
    var source, technique :| NameFrom(g.sources, g.last.value.source, source)
                             && TechniqueFrom(g.methods, g.last.value.technique, technique)
                             && r == Published(g, start, end, source, technique);
    if !Mixed(g) {
      forall s | s in Valid(slots)
        ensures r.inputSource == s.source
      {
        assert s.source in Sources(slots);
        OneName(Sources(slots), s.source, source);
      }
      forall s | s in Valid(slots) && s.technique.Some?
        ensures r.methodVersion == s.technique
      {
        assert s.technique.value in Methods(slots);
        OneName(Methods(slots), s.technique.value, technique.value);
      }
    }
  }

  /** The published history of two accumulations of the same slots is the same, bucket by bucket. */
  lemma SameSlotsSameHistory(
    g1: map<nat, Group>, g2: map<nat, Group>, slots: set<Slot>, seconds: nat, start: nat, end: nat,
    r1: map<nat, Sample>, r2: map<nat, Sample>)
    requires 0 < seconds && Answers(g1, slots, seconds) && Answers(g2, slots, seconds)
    requires PublishesAll(g1, start, end, r1) && PublishesAll(g2, start, end, r2)
    ensures r1 == r2
  {
    hide Represents, Publishes;
    forall b: nat
      ensures b in g1 <==> b in g2
      ensures b in g1 ==> r1[b] == r2[b]
    {
      AnswerOf(g1, slots, seconds, b);
      AnswerOf(g2, slots, seconds, b);
      if b in g1 {
        PublishedIsDetermined(g1[b], g2[b], InBucket(slots, b, seconds), start, end, r1[b], r2[b]);
      }
    }
  }

  lemma AnsweredGroupsHaveALast(groups: map<nat, Group>, slots: set<Slot>, seconds: nat)
    requires 0 < seconds && Answers(groups, slots, seconds)
    ensures forall b | b in groups :: groups[b].last.Some?
  {
    forall b | b in groups
      ensures groups[b].last.Some?
    {
      AnswerOf(groups, slots, seconds, b);
    }
  }

  /** The published history of a window: that of groups which answer exactly the window's slots. */
  ghost predicate IsHistory(table: Table, start: nat, end: nat, seconds: nat, result: map<nat, Sample>)
    requires 0 < seconds
  {
    exists groups: map<nat, Group> ::
      Answers(groups, WindowSlots(table, table.Keys, start, end), seconds) && PublishesAll(groups, start, end, result)
  }

  /** A window has one published history. */
  lemma HistoryIsUnique(table: Table, start: nat, end: nat, seconds: nat, a: map<nat, Sample>, b: map<nat, Sample>)
    requires 0 < seconds && IsHistory(table, start, end, seconds, a) && IsHistory(table, start, end, seconds, b)
    ensures a == b
  {
    hide Answers, PublishesAll, WindowSlots;
    var slots := WindowSlots(table, table.Keys, start, end);
    var g1: map<nat, Group> :| Answers(g1, slots, seconds) && PublishesAll(g1, start, end, a);
    var g2: map<nat, Group> :| Answers(g2, slots, seconds) && PublishesAll(g2, start, end, b);
    SameSlotsSameHistory(g1, g2, slots, seconds, start, end, a, b);
  }

  /**
   * For every true table and every whole-minute interval, the summary reader and the original reader
   * publish the one history of the window's slots, however their cursors order the rows and split the pages.
   */
  method ReadersAgree(
    table: Table, pages: seq<seq<nat>>, others: seq<seq<nat>>, start: nat, end: nat, seconds: nat)
    returns (cached: map<nat, Sample>, original: map<nat, Sample>)
    requires 0 < seconds && seconds % 60 == 0 && TrueTable(table)
    requires Delivers(pages, Selected(table, start, end)) && Delivers(others, Selected(table, start, end))
    ensures IsHistory(table, start, end, seconds, cached) && IsHistory(table, start, end, seconds, original)
    ensures cached == original
  {
    hide Answers, Delivers, PublishesAll, TrueTable, WindowSlots, Selected;
    var g1 := SummaryStreamGroups(table, pages, start, end, seconds);
    var g2 := LegacyStreamGroups(table, others, start, end, seconds);
    ghost var slots := WindowSlots(table, table.Keys, start, end);
    AnsweredGroupsHaveALast(g1, slots, seconds);
    AnsweredGroupsHaveALast(g2, slots, seconds);
    cached := CompactResult(g1, start, end);
    original := CompactResult(g2, start, end);
    assert Answers(g1, slots, seconds) && PublishesAll(g1, start, end, cached);
    assert Answers(g2, slots, seconds) && PublishesAll(g2, start, end, original);
    HistoryIsUnique(table, start, end, seconds, cached, original);
  }
}
