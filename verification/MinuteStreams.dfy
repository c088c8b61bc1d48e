/** History streams over stored minutes: the original reader and the summary reader give one answer. */
module MinuteStreams {
  import opened Basics
  import opened MinuteModel
  import opened MinuteReader

  const PAGE_SIZE: nat := 128

  datatype Summary = Summary(version: int, bucketStartAt: nat, generatedAt: nat, usable: bool, group: Option<Group>)

  datatype Row = Row(generatedAt: nat, payload: Payload, summary: Option<Summary>)

  /** The minutes of one device, by the start of the minute. */
  type Table = map<nat, Row>

  /** Every key is a second of the minute that starts at `at`. */
  predicate Placed(at: nat, p: Payload) {
    forall k | k in p.values :: at / SECOND <= k < at / SECOND + 60
  }

  function BucketOf(time: nat, seconds: nat): nat
    requires 0 < seconds
  {
    time / SECOND / seconds
  }

  function InBucket(slots: set<Slot>, b: nat, seconds: nat): set<Slot>
    requires 0 < seconds
  {
    set s | s in slots && BucketOf(s.time, seconds) == b
  }

  function Windowed(p: Payload, start: nat, end: nat): set<Slot> {
    set s | s in Slots(p) && start <= s.time < end
  }

  /** The accumulated groups are exactly the groups of `slots`, bucket by bucket. */
  ghost predicate Answers(groups: map<nat, Group>, slots: set<Slot>, seconds: nat)
    requires 0 < seconds
  {
    forall b: nat :: AnswersAt(groups, b, InBucket(slots, b, seconds))
  }

  /** Updating one bucket keeps the answer when the added slots all belong to it. */
  lemma AnswersUpdate(before: map<nat, Group>, after: map<nat, Group>, seen: set<Slot>, more: set<Slot>, b: nat, seconds: nat)
    requires 0 < seconds && Answers(before, seen, seconds)
    requires forall s | s in more :: BucketOf(s.time, seconds) == b
    requires after == before || (b in after && after == before[b := after[b]])
    requires AnswersAt(after, b, InBucket(seen, b, seconds) + more)
    ensures Answers(after, seen + more, seconds)
  {
    hide Represents;
    forall c: nat
      ensures AnswersAt(after, c, InBucket(seen + more, c, seconds))
    {
      assert AnswersAt(before, c, InBucket(seen, c, seconds));
      if c == b {
        assert InBucket(seen + more, b, seconds) == InBucket(seen, b, seconds) + more;
      } else {
        assert InBucket(seen + more, c, seconds) == InBucket(seen, c, seconds);
      }
    }
  }

  lemma ProductMonotone(a: int, b: nat, d: nat)
    requires a <= b
    ensures a * d <= b * d
  {
  }

  lemma QuotientIs(n: nat, d: nat, q: int, r: nat)
    requires 0 < d && n == q * d + r && r < d
    ensures n / d == q
  {
    var (x, y) := (n / d, n % d);
    if x <= q {
      ProductMonotone(x, q, d);
    }
    if x < q {
      ProductMonotone(x + 1, q, d);
    } else if q < x {
      ProductMonotone(q + 1, x, d);
    }
  }

  /** All seconds of an aligned minute fall in one bucket of whole minutes. */
  lemma MinuteInOneBucket(m: nat, stamp: nat, seconds: nat)
    requires 0 < seconds && seconds % 60 == 0 && m % 60 == 0 && m <= stamp < m + 60
    ensures stamp / seconds == m / seconds
  {
    var (d, e, q, r) := (m / seconds, m % seconds, seconds / 60, m / 60);
    assert m == d * seconds + e;
    assert d * seconds == 60 * (d * q);
    assert e == 60 * (r - d * q);
    assert r - d * q <= q - 1;
    QuotientIs(stamp, seconds, d, e + (stamp - m));
  }

  /** The group that belongs to one bucket of an answered set of slots. */
  lemma AnswerOf(groups: map<nat, Group>, slots: set<Slot>, seconds: nat, b: nat)
    requires 0 < seconds && Answers(groups, slots, seconds)
    ensures AnswersAt(groups, b, InBucket(slots, b, seconds))
  {
  }

  lemma SlotTimesDistinct(p: Payload)
    ensures TimesDistinct(Slots(p))
  {
  }

  /** The original full or partial minute policy for one row. */
  method AccumulateMinute(
    h: HistoryGroups, at: nat, data: Payload, start: nat, end: nat, seconds: nat, ghost seen: set<Slot>)
    requires 0 < seconds && seconds % 60 == 0 && at % MINUTE == 0
    requires TrueStats(data) && Answers(h.groups, seen, seconds)
    requires seen !! Windowed(data, start, end) && TimesDistinct(seen + Windowed(data, start, end))
    modifies h
    ensures Answers(h.groups, seen + Windowed(data, start, end), seconds)
  {
    hide AnswersAt, Answers, TrueStats, TimesDistinct;
    var whole := start <= at && at + MINUTE <= end;
    if whole && Placed(at, data) {
      var b := at / SECOND / seconds;
      WholeIsWindowed(at, data, start, end, seconds);
      AnswerOf(h.groups, seen, seconds, b);
      DistinctSubset(seen + Windowed(data, start, end), InBucket(seen, b, seconds) + Slots(data));
      ghost var before := h.groups;
      h.WholeMinute(b, data, InBucket(seen, b, seconds));
      AnswersUpdate(before, h.groups, seen, Slots(data), b, seconds);
      return;
    }
    AccumulateSlots(h, data, start, end, seconds, seen);
  }

  method AccumulateSlots(h: HistoryGroups, data: Payload, start: nat, end: nat, seconds: nat, ghost seen: set<Slot>)
    requires 0 < seconds && Answers(h.groups, seen, seconds)
    requires seen !! Windowed(data, start, end) && TimesDistinct(seen + Windowed(data, start, end))
    modifies h
    ensures Answers(h.groups, seen + Windowed(data, start, end), seconds)
  {
    hide AnswersAt, Answers, TimesDistinct, SlotOf, Taken, Windowed, BucketOf;
    TakenNone(data, start, end);
    var rest := data.values.Keys;
    ghost var done: set<Slot> := {};
    assert seen + {} == seen;
    while rest != {}
      invariant rest <= data.values.Keys
      invariant done == Taken(data, data.values.Keys - rest, start, end)
      invariant Answers(h.groups, seen + done, seconds)
    {
      var k :| k in rest;
      var s := SlotOf(data, k);
      TakenMore(data, data.values.Keys - rest, k, start, end);
      assert data.values.Keys - rest + {k} == data.values.Keys - (rest - {k});
      if start <= s.time < end {
        var b := BucketOf(s.time, seconds);
        AnswerOf(h.groups, seen + done, seconds, b);
        DistinctSubset(seen + Windowed(data, start, end), InBucket(seen + done, b, seconds) + {s});
        ghost var before := h.groups;
        h.AddSlot(b, s, InBucket(seen + done, b, seconds));
        AnswersUpdate(before, h.groups, seen + done, {s}, b, seconds);
        assert seen + done + {s} == seen + (done + {s});
        done := done + {s};
      }
      rest := rest - {k};
    }
    assert data.values.Keys - {} == data.values.Keys;
    TakenAll(data, start, end);
  }

  lemma TakenNone(data: Payload, start: nat, end: nat)
    ensures Taken(data, data.values.Keys - data.values.Keys, start, end) == {}
  {
  }

  lemma TakenAll(data: Payload, start: nat, end: nat)
    ensures Taken(data, data.values.Keys, start, end) == Windowed(data, start, end)
  {
  }

  /** The slots of some keys that fall in the window. */
  ghost function Taken(data: Payload, keys: set<nat>, start: nat, end: nat): set<Slot>
    requires keys <= data.values.Keys
  {
    set k | k in keys && start <= SlotOf(data, k).time < end :: SlotOf(data, k)
  }

  lemma TakenMore(data: Payload, keys: set<nat>, k: nat, start: nat, end: nat)
    requires keys <= data.values.Keys && k in data.values && k !in keys
    ensures var s := SlotOf(data, k);
            && s !in Taken(data, keys, start, end)
            && Taken(data, keys, start, end) <= Windowed(data, start, end)
            && (start <= s.time < end ==> s in Windowed(data, start, end))
            && Taken(data, keys + {k}, start, end) == Taken(data, keys, start, end) + if start <= s.time < end then {s} else {}
  {
  }

  lemma DistinctSubset(all: set<Slot>, part: set<Slot>)
    requires TimesDistinct(all) && part <= all
    ensures TimesDistinct(part)
  {
  }

  lemma WholeIsWindowed(at: nat, data: Payload, start: nat, end: nat, seconds: nat)
    requires 0 < seconds && seconds % 60 == 0 && at % MINUTE == 0
    requires start <= at && at + MINUTE <= end && Placed(at, data)
    ensures Windowed(data, start, end) == Slots(data)
    ensures forall s | s in Slots(data) :: BucketOf(s.time, seconds) == at / SECOND / seconds
  {
    forall s | s in Slots(data)
      ensures start <= s.time < end && BucketOf(s.time, seconds) == at / SECOND / seconds
    {
      hide Slots, BucketOf;
      assert s.stamp in data.values by { StampIsStored(data, s); }
      TimeInMinute(at, s.stamp, s.time, start, end);
      BucketInMinute(at, s.stamp, s.time, seconds);
    }
  }

  lemma StampIsStored(data: Payload, s: Slot)
    requires s in Slots(data)
    ensures s.stamp in data.values && s.time / SECOND == s.stamp
  {
  }

  lemma TimeInMinute(at: nat, stamp: nat, time: nat, start: nat, end: nat)
    requires at % MINUTE == 0 && at / SECOND <= stamp < at / SECOND + 60 && time / SECOND == stamp
    requires start <= at && at + MINUTE <= end
    ensures start <= time < end
  {
  }

  lemma BucketInMinute(at: nat, stamp: nat, time: nat, seconds: nat)
    requires 0 < seconds && seconds % 60 == 0 && at % MINUTE == 0
    requires at / SECOND <= stamp < at / SECOND + 60 && time / SECOND == stamp
    ensures BucketOf(time, seconds) == at / SECOND / seconds
  {
    AlignedSecond(at);
    MinuteInOneBucket(at / SECOND, stamp, seconds);
  }

  lemma AlignedSecond(at: nat)
    requires at % MINUTE == 0
    ensures at / SECOND % 60 == 0
  {
  }

  // ---- Summaries ----

  /** What a stored summary is trusted for, when a reader would trust it. */
  ghost predicate TrueSummary(at: nat, row: Row) {
    var restored := Restored(row.summary, at, row.generatedAt);
    restored.Some? ==> Represents(restored.value, Slots(row.payload)) && Slots(row.payload) != {}
  }

  /** A summary of another format, minute, generation or of impossible content is not used. */
  function Restored(summary: Option<Summary>, at: nat, generatedAt: nat): Option<Group> {
    if summary.None? || summary.value.version != 1 || !summary.value.usable
       || summary.value.bucketStartAt != at || summary.value.generatedAt != generatedAt then None
    else if summary.value.group.None? || summary.value.group.value.last.None? then None
    else
      var g := summary.value.group.value;
      if g.count > 60 || g.invalid > 60 || !(0 < g.count + g.invalid <= 60) then None
      else if !(at <= g.last.value.time < at + MINUTE) then None
      else if |g.sources| > 2 || |g.methods| > 2 then None
      else if g.count > 0 && (g.minimum.None? || g.maximum.None?) then None
      else Some(g)
  }

  /** Only complete, normally placed minutes get a usable summary. */
  method BuildMinuteSummary(at: nat, generatedAt: nat, data: Payload) returns (s: Summary)
    requires TrueStats(data)
    ensures s.version == 1 && s.bucketStartAt == at && s.generatedAt == generatedAt
    ensures s.usable <==> 0 < |data.values| <= 60 && Placed(at, data)
    ensures s.usable ==> s.group.Some? && Represents(s.group.value, Slots(data))
  {
    s := Summary(1, at, generatedAt, false, None);
    if |data.values| == 0 || |data.values| > 60 {
      return;
    }
    if !Placed(at, data) {
      return;
    }
    var h := new HistoryGroups();
    SlotTimesDistinct(data);
    SlotsSize(data);
    assert {} + Slots(data) == Slots(data);
    h.WholeMinute(0, data, {});
    s := s.(usable := true, group := Some(h.groups[0]));
  }

  lemma {:induction false} KeysInRange(keys: set<nat>, low: nat, n: nat)
    requires forall k | k in keys :: low <= k < low + n
    ensures |keys| <= n
  {
    if n == 0 {
      assert keys == {};
    } else {
      KeysInRange(keys - {low + n - 1}, low, n - 1);
    }
  }

  /** Round trip: a summary built for a placed minute is restored and still means its slots. */
  lemma BuiltIsRestored(at: nat, data: Payload, s: Summary)
    requires Placed(at, data) && data.values != map[]
    requires s.version == 1 && s.bucketStartAt == at && s.usable
    requires s.group.Some? && Represents(s.group.value, Slots(data))
    requires at % SECOND == 0
    ensures Restored(Some(s), at, s.generatedAt) == s.group
  {
    hide Represents, Slots, Placed;
    SlotsSize(data);
    Particulars(s.group.value, Slots(data));
    PlacedBounds(at, data);
  }

  /** What the numbers of a group that represents slots can be. */
  lemma Particulars(g: Group, slots: set<Slot>)
    requires Represents(g, slots) && slots != {}
    ensures g.count + g.invalid == |slots| && |g.sources| <= 2 && |g.methods| <= 2
    ensures g.count > 0 ==> g.minimum.Some? && g.maximum.Some?
    ensures g.last.Some? && exists l :: l in slots && g.last == Some(LastOf(l))
  {
    hide Total, SomeSimulated, Sources, Methods;
    SubsetSize(Valid(slots), slots);
    assert g.count > 0 ==> Valid(slots) != {};
  }

  lemma PlacedBounds(at: nat, data: Payload)
    requires Placed(at, data) && at % SECOND == 0
    ensures |data.values| <= 60
    ensures forall l | l in Slots(data) :: at <= l.time < at + MINUTE
  {
    KeysInRange(data.values.Keys, at / SECOND, 60);
    forall l | l in Slots(data)
      ensures at <= l.time < at + MINUTE
    {
      assert l.stamp in data.values;
    }
  }
}
