/** The two writers of the minute table: the live projection and the summary backfill. */
module MinuteWriters {
  import opened Basics
  import opened MinuteModel
  import opened MinuteReader
  import opened MinuteStreams
  import opened MinuteTables

  /** One projected observation: its evidence, its provenance and its filtered value. */
  datatype Projected = Projected(evidence: Evidence, source: string, technique: Option<string>, filtered: Option<real>)
  {
    function Second(): nat { evidence.generatedAt / SECOND }

    function Bucket(): nat { FloorMinute(evidence.generatedAt) }
  }

  /** The payload after one observation, apart from its statistics. */
  function Written(p: Payload, o: Projected): Payload {
    var k := o.Second();
    var values := p.values[k := o.filtered];
    Payload(values,
            (map j | j in p.metadata && j in values :: p.metadata[j])[k := o.evidence],
            p.sources[k := o.source],
            p.methods[k := o.technique],
            p.stats,
            o.evidence)
  }

  /** The written slot says exactly what was observed, at its own time; other keys keep their values and names. */
  lemma WrittenSlots(p: Payload, o: Projected)
    ensures var w := Written(p, o);
            && SlotOf(w, o.Second()) == Slot(o.Second(), o.evidence.generatedAt, o.filtered, o.source, o.technique, o.evidence)
            && w.values.Keys == p.values.Keys + {o.Second()}
            && w.metadata.Keys == p.metadata.Keys * p.values.Keys + {o.Second()}
            && forall k | k in p.values && k != o.Second() ::
                 var (s, t) := (SlotOf(p, k), SlotOf(w, k));
                 && t == s.(evidence := t.evidence)
                 && (Precise(p, k) ==> t == s)
  {
  }

  /** The valid values of a payload, listed in any order. */
  method ValidValues(p: Payload) returns (valid: seq<real>)
    ensures Lists(valid, Slots(p))
  {
    EmptyRepresents();
    var g;
    g, valid := Provenances(NewGroup(), p, {});
  }

  class MinuteStore {
    var rows: Table

    /** Store one observation in its minute, with recomputed statistics and summary. */
    method Project(o: Projected)
      requires TrueTable(rows)
      modifies this
      ensures TrueTable(rows)
      ensures rows.Keys == old(rows.Keys) + {o.Bucket()}
      ensures forall at | at in old(rows) && at != o.Bucket() :: rows[at] == old(rows[at])
      ensures var before := if o.Bucket() in old(rows) then old(rows[o.Bucket()].payload) else NewPayload(o.evidence);
        && rows[o.Bucket()].payload == Written(before, o).(stats := rows[o.Bucket()].payload.stats)
        && rows[o.Bucket()].payload.stats.Some? && CountsMatch(rows[o.Bucket()].payload)
        && rows[o.Bucket()].generatedAt == o.evidence.generatedAt
      ensures |rows[o.Bucket()].payload.values| <= 60
      ensures Restored(rows[o.Bucket()].summary, o.Bucket(), o.evidence.generatedAt).Some?
    {
      hide TrueRow, Written, CountsMatch, Restored, FloorMinute;
      var bucket := o.Bucket();
      var before := if bucket in rows then rows[bucket].payload else NewPayload(o.evidence);
      if bucket in rows {
        TrueRowIsPlaced(bucket, rows[bucket]);
      }
      var row := NextRow(bucket, before, o);
      rows := rows[bucket := row];
    }
  }

  lemma TrueRowIsPlaced(at: nat, row: Row)
    requires TrueRow(at, row)
    ensures Placed(at, row.payload)
  {
  }

  method NextRow(bucket: nat, before: Payload, o: Projected) returns (row: Row)
    requires bucket == o.Bucket() && Placed(bucket, before)
    ensures TrueRow(bucket, row)
    ensures row.payload == Written(before, o).(stats := row.payload.stats)
    ensures row.payload.stats.Some? && CountsMatch(row.payload)
    ensures row.generatedAt == o.evidence.generatedAt
    ensures |row.payload.values| <= 60 && Restored(row.summary, bucket, row.generatedAt).Some?
  {
    hide TrueRow, TrueStats, Lists, Represents, Restored, CountsMatch;
    var data := Written(before, o);
    WrittenIsPlaced(bucket, before, o);
    var valid := ValidValues(data);
    ValidFit(data, valid);
    data := data.(stats := Some(Stats(|valid|, |data.values| - |valid|, SumOf(valid), MinOf(valid), MaxOf(valid))));
    RecomputedStats(Written(before, o), valid, data);
    var summary := BuildMinuteSummary(bucket, o.evidence.generatedAt, data);
    row := Row(o.evidence.generatedAt, data, Some(summary));
    BuiltRow(bucket, row, summary);
  }

  lemma ValidFit(p: Payload, valid: seq<real>)
    requires Lists(valid, Slots(p))
    ensures |valid| <= |p.values|
  {
    SlotsSize(p);
    SubsetSize(Valid(Slots(p)), Slots(p));
  }

  function NewPayload(last: Evidence): Payload {
    Payload(map[], map[], map[], map[], None, last)
  }

  lemma WrittenIsPlaced(bucket: nat, p: Payload, o: Projected)
    requires bucket == o.Bucket() && Placed(bucket, p)
    ensures Placed(bucket, Written(p, o)) && Written(p, o).values != map[] && bucket % MINUTE == 0
  {
    FloorMinuteIs(o.evidence.generatedAt);
    assert o.Second() in Written(p, o).values;
  }

  lemma FloorMinuteIs(t: nat)
    ensures FloorMinute(t) % MINUTE == 0 && FloorMinute(t) / SECOND <= t / SECOND < FloorMinute(t) / SECOND + 60
  {
    assert FloorMinute(t) == t / MINUTE * MINUTE;
  }

  lemma SlotsIgnoreStats(p: Payload, stats: Option<Stats>)
    ensures Slots(p.(stats := stats)) == Slots(p)
  {
    var q := p.(stats := stats);
    assert forall k | k in p.values :: SlotOf(q, k) == SlotOf(p, k);
  }

  lemma RecomputedStats(p: Payload, valid: seq<real>, data: Payload)
    requires Lists(valid, Slots(p)) && |p.values| >= |valid|
    requires data == p.(stats := Some(Stats(|valid|, |p.values| - |valid|, SumOf(valid), MinOf(valid), MaxOf(valid))))
    ensures TrueStats(data) && CountsMatch(data)
  {
    hide Least, Greatest;
    SlotsIgnoreStats(p, data.stats);
  }

  lemma BuiltRow(at: nat, row: Row, s: Summary)
    requires at % MINUTE == 0 && row.payload.values != map[] && Placed(at, row.payload) && TrueStats(row.payload)
    requires row.summary == Some(s) && s.version == 1 && s.bucketStartAt == at && s.generatedAt == row.generatedAt
    requires s.usable <==> 0 < |row.payload.values| <= 60 && Placed(at, row.payload)
    requires s.usable ==> s.group.Some? && Represents(s.group.value, Slots(row.payload))
    ensures TrueRow(at, row) && |row.payload.values| <= 60
    ensures Restored(row.summary, at, row.generatedAt) == s.group && s.group.Some?
  {
    hide Represents, TrueStats;
    KeysInRange(row.payload.values.Keys, at / SECOND, 60);
    SlotsSize(row.payload);
    BuiltIsRestored(at, row.payload, s);
  }

  /** Rows without a summary, after the cursor and not locked by a live writer. */
  function Missing(rows: Table, after: Option<nat>, locked: set<nat>): set<nat> {
    set at | at in rows && rows[at].summary.None? && (after.None? || after.value < at) && at !in locked
  }

  method LeastKey(keys: set<nat>) returns (m: nat)
    requires keys != {}
    ensures m in keys && forall k | k in keys :: m <= k
  {
    m :| m in keys;
    var rest := keys - {m};
    while rest != {}
      invariant rest <= keys && m in keys
      invariant forall k | k in keys && k !in rest :: m <= k
    {
      var k :| k in rest;
      if k < m { m := k; }
      rest := rest - {k};
    }
  }

  /** `filled` is `row` with the summary its own payload gives, and nothing else changed. */
  ghost predicate Filled(at: nat, row: Row, filled: Row) {
    && filled.payload == row.payload && filled.generatedAt == row.generatedAt
    && Restored(filled.summary, at, filled.generatedAt).Some?
  }

  /**
   * One backfill batch, rows in key order. Only missing summaries are written and no observation changes;
   * a batch that comes back short has left no unlocked row behind its cursor without a summary.
   */
  method BackfillBatch(store: MinuteStore, batchSize: nat, after: Option<nat>, locked: set<nat>)
    returns (count: nat, cursor: Option<nat>)
    requires 1 <= batchSize <= 512 && TrueTable(store.rows)
    modifies store
    ensures TrueTable(store.rows) && store.rows.Keys == old(store.rows.Keys)
    ensures count <= batchSize
    ensures Backfilled(old(store.rows), store.rows, Missing(old(store.rows), after, locked))
    ensures cursor != after ==> cursor.Some?
    ensures forall at | at in Missing(store.rows, after, locked) :: cursor.None? || cursor.value < at
    ensures count < batchSize ==> Missing(store.rows, after, locked) == {}
    ensures |Missing(old(store.rows), after, locked)| == |Missing(store.rows, after, locked)| + count
  {
    hide TrueRow, Filled, Missing;
    ghost var all := Missing(store.rows, after, locked);
    var left := Missing(store.rows, after, locked);
    count, cursor := 0, after;
    MissingIsAhead(store.rows, after, locked);
    while count < batchSize && left != {}
      invariant count <= batchSize && left <= all && |all| == |left| + count
      invariant TrueTable(store.rows) && store.rows.Keys == old(store.rows.Keys)
      invariant left == Missing(store.rows, after, locked)
      invariant cursor != after ==> cursor.Some?
      invariant forall at | at in left :: cursor.None? || cursor.value < at
      invariant Backfilled(old(store.rows), store.rows, all)
    {
      var at := LeastKey(left);
      MissingIsAhead(store.rows, after, locked);
      var row := FillRow(at, store.rows[at]);
      BackfilledMore(old(store.rows), store.rows, all, at, row);
      FilledIsNotMissing(store.rows, at, row, after, locked);
      store.rows := store.rows[at := row];
      count, cursor := count + 1, Some(at);
      left := left - {at};
    }
  }

  /** Every row is as it was, or was one of `missing` and now has its summary. */
  ghost predicate Backfilled(before: Table, now: Table, missing: set<nat>) {
    now.Keys == before.Keys &&
    forall at | at in now :: now[at] == before[at] || (at in missing && Filled(at, before[at], now[at]))
  }

  lemma BackfilledMore(before: Table, now: Table, missing: set<nat>, at: nat, row: Row)
    requires Backfilled(before, now, missing) && at in now && at in missing && Filled(at, now[at], row)
    ensures Backfilled(before, now[at := row], missing)
  {
  }

  lemma MissingIsAhead(rows: Table, after: Option<nat>, locked: set<nat>)
    ensures forall at | at in Missing(rows, after, locked) :: at in rows && (after.None? || after.value < at)
  {
  }

  method FillRow(at: nat, row: Row) returns (filled: Row)
    requires TrueRow(at, row)
    ensures TrueRow(at, filled) && Filled(at, row, filled) && filled.summary.Some?
  {
    hide TrueStats, Represents, Restored;
    var summary := BuildMinuteSummary(at, row.generatedAt, row.payload);
    filled := row.(summary := Some(summary));
    BuiltRow(at, filled, summary);
  }

  lemma FilledIsNotMissing(rows: Table, at: nat, row: Row, after: Option<nat>, locked: set<nat>)
    requires at in Missing(rows, after, locked) && row.summary.Some?
    ensures Missing(rows[at := row], after, locked) == Missing(rows, after, locked) - {at}
    ensures |Missing(rows[at := row], after, locked)| == |Missing(rows, after, locked)| - 1
  {
  }
}
