/** Which evidence a published sample carries, from the writer's observation to the reader's answer. */
module MinuteEvidence {
  import opened Basics
  import opened MinuteModel
  import opened MinuteReader
  import opened MinuteStreams
  import opened MinuteTables
  import opened MinuteResults
  import opened MinuteWriters

  /** The slot after all others of its bucket. */
  ghost predicate IsLast(s: Slot, slots: set<Slot>) { s in slots && forall t | t in slots && t != s :: t.time < s.time }

  /** The evidence lies in the window and in the slot's own second. */
  predicate EvidenceFits(s: Slot, start: nat, end: nat) {
    start <= s.evidence.generatedAt < end && s.evidence.generatedAt / SECOND == s.time / SECOND
  }

  predicate OneOrigin(slots: set<Slot>) { |Sources(slots)| <= 1 && |Methods(slots)| <= 1 }

  /** A sample that carries an observation's time, identifiers, state and reasons; a mixed bucket keeps its own state and reason. */
  predicate Carries(r: Sample, e: Evidence, mixed: bool) {
    && r.at == e.generatedAt && r.generatedAt == Some(e.generatedAt)
    && r.observedAt == e.observedAt && r.assessmentId == e.assessmentId && r.observationId == e.observationId
    && r.dataState == (if mixed then "UNKNOWN" else e.dataState)
    && r.reasonCodes == (if mixed then ["FILL_METHOD_CHANGED_WITHIN_BUCKET"] else e.reasonCodes)
  }

  /** A sample that carries no evidence but the second of its slot. */
  predicate Withheld(r: Sample, s: Slot, mixed: bool) {
    && r.at == s.time && r.generatedAt.None? && r.observedAt.None? && r.assessmentId.None? && r.observationId.None?
    && r.dataState == (if mixed || s.value.None? then "UNKNOWN" else "AVAILABLE")
    && r.reasonCodes == [if mixed then "FILL_METHOD_CHANGED_WITHIN_BUCKET" else "COMPACT_SUBMINUTE_METADATA_NOT_RETAINED"]
  }

  /** The published sample carries the evidence of its bucket's last slot exactly when that fits, and none otherwise. */
  lemma EvidenceIsPublished(g: Group, slots: set<Slot>, start: nat, end: nat, r: Sample, s: Slot)
    requires Represents(g, slots) && IsLast(s, slots) && Publishes(g, start, end, r)
    ensures if EvidenceFits(s, start, end) then Carries(r, s.evidence, !OneOrigin(slots)) else Withheld(r, s, !OneOrigin(slots))
  {
    hide Least, Greatest, Capped, SomeSimulated, Total, Sources, Methods;
    SmallCap(g.sources, Sources(slots));
    SmallCap(g.methods, Methods(slots));
    LastIsUnique(g.last, Some(LastOf(s)), slots);
  }

  /**
   * Round trip from writer to reader: an observation that was stored, lies in the window and is the last of its
   * bucket is what the bucket's published sample carries.
   */
  lemma WrittenIsPublished(
    table: Table, before: Payload, o: Projected, start: nat, end: nat, seconds: nat, result: map<nat, Sample>)
    requires 0 < seconds && IsHistory(table, start, end, seconds, result)
    requires o.Bucket() in table && table[o.Bucket()].payload == Written(before, o).(stats := table[o.Bucket()].payload.stats)
    requires start <= o.evidence.generatedAt < end
    requires forall t | t in InBucket(WindowSlots(table, table.Keys, start, end), BucketOf(o.evidence.generatedAt, seconds), seconds) ::
               t == WrittenSlot(o) || t.time < o.evidence.generatedAt
    ensures var b := BucketOf(o.evidence.generatedAt, seconds);
            b in result
            && Carries(result[b], o.evidence, !OneOrigin(InBucket(WindowSlots(table, table.Keys, start, end), b, seconds)))
  {
    hide Represents, Publishes, WindowSlots, Written, InBucket, Slots, Windowed, Carries, IsLast, OneOrigin, Answers;
    var slots := WindowSlots(table, table.Keys, start, end);
    var b := BucketOf(o.evidence.generatedAt, seconds);
    var groups: map<nat, Group> :| Answers(groups, slots, seconds) && PublishesAll(groups, start, end, result);
    WrittenIsInWindow(table, before, o, start, end);
    InOwnBucket(slots, WrittenSlot(o), b, seconds);
    AnswerOf(groups, slots, seconds, b);
    LastOfBucket(WrittenSlot(o), InBucket(slots, b, seconds));
    EvidenceIsPublished(groups[b], InBucket(slots, b, seconds), start, end, result[b], WrittenSlot(o));
  }

  function WrittenSlot(o: Projected): Slot {
    Slot(o.Second(), o.evidence.generatedAt, o.filtered, o.source, o.technique, o.evidence)
  }

  lemma WrittenIsInWindow(table: Table, before: Payload, o: Projected, start: nat, end: nat)
    requires o.Bucket() in table && table[o.Bucket()].payload == Written(before, o).(stats := table[o.Bucket()].payload.stats)
    requires start <= o.evidence.generatedAt < end
    ensures WrittenSlot(o) in WindowSlots(table, table.Keys, start, end)
  {
    hide Written;
    var p := table[o.Bucket()].payload;
    WrittenSlots(before, o);
    SlotsIgnoreStats(Written(before, o), p.stats);
    assert SlotOf(Written(before, o), o.Second()) == WrittenSlot(o);
    assert WrittenSlot(o) in Slots(p);
    assert WrittenSlot(o) in Windowed(p, start, end);
  }

  lemma InOwnBucket(slots: set<Slot>, s: Slot, b: nat, seconds: nat)
    requires 0 < seconds && s in slots && b == BucketOf(s.time, seconds)
    ensures s in InBucket(slots, b, seconds) && InBucket(slots, b, seconds) != {}
  {
  }

  lemma LastOfBucket(s: Slot, slots: set<Slot>)
    requires s in slots && forall t | t in slots :: t == s || t.time < s.time
    ensures IsLast(s, slots)
  {
  }

  // ---- Which slots a bucket is made of ----

  /** A stored second of the table whose time lies in the window and in the bucket. */
  predicate IsIn(table: Table, at: nat, k: nat, start: nat, end: nat, seconds: nat, b: nat)
    requires 0 < seconds
  {
    && at in table && k in table[at].payload.values
    && start <= SlotOf(table[at].payload, k).time < end
    && b * seconds * SECOND <= SlotOf(table[at].payload, k).time < (b + 1) * seconds * SECOND
  }

  ghost function Members(table: Table, start: nat, end: nat, seconds: nat, b: nat): set<Slot>
    requires 0 < seconds
  {
    set at, k | at in table && k in table[at].payload.values && IsIn(table, at, k, start, end, seconds, b) :: SlotOf(table[at].payload, k)
  }

  lemma BucketBounds(time: nat, seconds: nat, b: nat)
    requires 0 < seconds
    ensures BucketOf(time, seconds) == b <==> b * seconds * SECOND <= time < (b + 1) * seconds * SECOND
  {
    var (second, q, r) := (time / SECOND, time / SECOND / seconds, time / SECOND % seconds);
    assert second == q * seconds + r;
    assert b * seconds * SECOND <= time <==> b * seconds <= second;
    assert time < (b + 1) * seconds * SECOND <==> second < (b + 1) * seconds;
    if b < q { ProductMonotone(b + 1, q, seconds); }
    if q < b { ProductMonotone(q + 1, b, seconds); }
  }

  lemma MembersAreInBucket(table: Table, start: nat, end: nat, seconds: nat, b: nat)
    requires 0 < seconds
    ensures InBucket(WindowSlots(table, table.Keys, start, end), b, seconds) == Members(table, start, end, seconds, b)
  {
    hide BucketOf, SlotOf;
    forall s: Slot
      ensures s in InBucket(WindowSlots(table, table.Keys, start, end), b, seconds) <==> s in Members(table, start, end, seconds, b)
    {
      BucketBounds(s.time, seconds, b);
      if s in InBucket(WindowSlots(table, table.Keys, start, end), b, seconds) {
        var at :| at in table && s in Windowed(table[at].payload, start, end);
        var k :| k in table[at].payload.values && s == SlotOf(table[at].payload, k);
        assert IsIn(table, at, k, start, end, seconds, b);
      }
      if s in Members(table, start, end, seconds, b) {
        var at, k :| at in table && k in table[at].payload.values && IsIn(table, at, k, start, end, seconds, b)
                     && s == SlotOf(table[at].payload, k);
        assert s in Slots(table[at].payload) && s in Windowed(table[at].payload, start, end);
      }
    }
  }

  predicate MadeBy(technique: Option<string>, prefix: string) { technique.Some? && prefix <= technique.value }

  ghost predicate AnySimulation(slots: set<Slot>) {
    exists s <- slots :: MadeBy(s.technique, "SIMULATION_HEIGHT_SECTION_V1:") || MadeBy(s.technique, "SIMULATION_SENSOR_ANGLE_V1:")
  }

  lemma SimulationIsSeen(slots: set<Slot>)
    ensures SomeSimulated(slots) <==> AnySimulation(slots)
  {
  }

  /**
   * A history has a sample for exactly the buckets in which some second of the table lies, in the window; the sample
   * counts just these, and is simulated exactly when one of them was made by one of the two simulations.
   */
  lemma HistoryIsOfItsSeconds(table: Table, start: nat, end: nat, seconds: nat, result: map<nat, Sample>, b: nat)
    requires 0 < seconds && IsHistory(table, start, end, seconds, result)
    ensures b in result <==> Members(table, start, end, seconds, b) != {}
    ensures b in result ==>
              && result[b].validSamples + result[b].invalidSamples == |Members(table, start, end, seconds, b)|
              && (result[b].simulated <==> AnySimulation(Members(table, start, end, seconds, b)))
  {
    MembersAreInBucket(table, start, end, seconds, b);
    SimulationIsSeen(Members(table, start, end, seconds, b));
    hide Represents, Publishes, WindowSlots, InBucket, Members, Answers, PublishesAll, SomeSimulated, AnySimulation;
    hide Valid, Sources, Methods, Least, Greatest, Total;
    var slots := WindowSlots(table, table.Keys, start, end);
    var groups: map<nat, Group> :| Answers(groups, slots, seconds) && PublishesAll(groups, start, end, result);
    AnswerOf(groups, slots, seconds, b);
    PublishedKeys(groups, start, end, result, b);
    if b in result {
      PublishedMeaning(groups[b], InBucket(slots, b, seconds), start, end, result[b]);
    }
  }

  lemma PublishedKeys(groups: map<nat, Group>, start: nat, end: nat, result: map<nat, Sample>, b: nat)
    requires PublishesAll(groups, start, end, result)
    ensures b in result <==> b in groups
    ensures b in result ==> Publishes(groups[b], start, end, result[b])
  {
    hide Publishes;
  }

  // ---- What is read from a row ----

  /** A slot with its own evidence has its exact time; any other has its whole second and the evidence written last. */
  lemma SlotEvidence(p: Payload, k: nat)
    requires k in p.values
    ensures var s := SlotOf(p, k);
            && s.value == p.values[k]
            && s.source == (if k in p.sources then p.sources[k] else "EDGE_STATE")
            && s.technique == (if k in p.methods then p.methods[k] else None)
            && (if k in p.metadata && p.metadata[k].generatedAt / SECOND == k
                then s.time == p.metadata[k].generatedAt && s.evidence == p.metadata[k]
                else s.time == k * SECOND && s.evidence == p.last)
  {
  }

  /** A summary is used only in its own format, for its own minute and generation, and with possible content. */
  lemma SummaryIsCurrent(summary: Option<Summary>, at: nat, generatedAt: nat)
    requires Restored(summary, at, generatedAt).Some?
    ensures summary.Some? && summary.value.version == 1 && summary.value.usable
    ensures summary.value.bucketStartAt == at && summary.value.generatedAt == generatedAt
    ensures var g := Restored(summary, at, generatedAt).value;
            && summary.value.group == Some(g) && g.last.Some? && at <= g.last.value.time < at + MINUTE
            && 0 < g.count + g.invalid <= 60 && (g.count > 0 ==> g.minimum.Some? && g.maximum.Some?)
  {
  }
}
