/** The imperative readers of minute history: whole minutes, single slots, cached summaries and pages. */
module MinuteReader {
  import opened Basics
  import opened MinuteModel

  /** Stored statistics are trusted when their counts match the slots; then they must be true. */
  ghost predicate TrueStats(p: Payload) {
    p.stats.Some? && CountsMatch(p) ==>
      && p.stats.value.sum == Total(Slots(p))
      && (p.stats.value.minimum.Some? && p.stats.value.maximum.Some? ==>
            Least(p.stats.value.minimum, Slots(p)) && Greatest(p.stats.value.maximum, Slots(p)))
  }

  ghost predicate CountsMatch(p: Payload)
    requires p.stats.Some?
  {
    p.stats.value.valid == |Valid(Slots(p))| && p.stats.value.invalid == |p.values| - |Valid(Slots(p))|
  }

  function SumOf(values: seq<real>): real {
    if values == [] then 0.0 else SumOf(values[..|values| - 1]) + values[|values| - 1]
  }

  function MinOf(values: seq<real>): Option<real> {
    if values == [] then None else LowerOf(MinOf(values[..|values| - 1]), Some(values[|values| - 1]))
  }

  function MaxOf(values: seq<real>): Option<real> {
    if values == [] then None else UpperOf(MaxOf(values[..|values| - 1]), Some(values[|values| - 1]))
  }

  /** `valid` lists the values of the slots seen so far, in any order. */
  ghost predicate Lists(valid: seq<real>, slots: set<Slot>) {
    && |valid| == |Valid(slots)|
    && SumOf(valid) == Total(slots)
    && Least(MinOf(valid), slots)
    && Greatest(MaxOf(valid), slots)
  }

  lemma ListsNothing()
    ensures Lists([], {})
  {
    assert Valid({}) == {};
  }

  lemma ListsMore(valid: seq<real>, done: set<Slot>, s: Slot)
    requires Lists(valid, done) && s !in done
    ensures Lists(if s.value.Some? then valid + [s.value.value] else valid, done + {s})
  {
    hide Least, Greatest, Latest, Total, Valid, SumOf, MinOf, MaxOf;
    OneSlot(s);
    MergeCounts(done, {s});
    TotalUnion(done, {s});
    MergeLeast(MinOf(valid), done, s.value, {s});
    MergeGreatest(MaxOf(valid), done, s.value, {s});
    if s.value.Some? {
      ListGrows(valid, s.value.value);
    }
  }

  lemma ListGrows(valid: seq<real>, x: real)
    ensures SumOf(valid + [x]) == SumOf(valid) + x
    ensures MinOf(valid + [x]) == LowerOf(MinOf(valid), Some(x)) && MaxOf(valid + [x]) == UpperOf(MaxOf(valid), Some(x))
  {
    hide LowerOf, UpperOf;
    assert (valid + [x])[..|valid|] == valid;
  }

  /** The names and the simulation mark of `g` cover the slots of `a` and those of `done`. */
  ghost predicate Named(g: Group, a: set<Slot>, simulated: bool, done: set<Slot>) {
    && Capped(g.sources, Sources(a) + Sources(done))
    && Capped(g.methods, Methods(a) + Methods(done))
    && (g.simulated <==> (simulated || SomeSimulated(done)))
  }

  lemma NamedMore(g: Group, a: set<Slot>, simulated: bool, done: set<Slot>, s: Slot)
    requires Named(g, a, simulated, done) && s !in done
    ensures Named(WithProvenance(g, s), a, simulated, done + {s})
  {
    hide Capped, Cap, SomeSimulated, Sources, Methods, Least, Greatest, Latest, Total;
    OneSlot(s);
    MergeNames(done, {s});
    MergeSimulated(done, {s});
    CapAfter(g.sources, Sources(a), Sources(done), s.source);
    if s.technique.Some? {
      CapAfter(g.methods, Methods(a), Methods(done), s.technique.value);
    }
    NothingAfter(Sources(done));
    NothingAfter(Methods(done));
  }

  lemma CapAfter(kept: set<string>, a: set<string>, done: set<string>, name: string)
    requires Capped(kept, a + done)
    ensures Capped(Cap(kept, name), a + (done + {name}))
  {
    CapRepresents(kept, a + done, name);
    assert a + (done + {name}) == a + done + {name};
  }

  lemma NothingAfter(done: set<string>)
    ensures done + {} == done
  {
  }

  function WithProvenance(g: Group, s: Slot): Group {
    var named :=
      if s.value.None? then g
      else g.(sources := Cap(g.sources, s.source),
              methods := if s.technique.Some? then Cap(g.methods, s.technique.value) else g.methods);
    if Simulates(s.technique) then named.(simulated := true) else named
  }

  /** Counts add up; the bounds of an empty part say nothing. */
  function WithStats(g: Group, count: nat, invalid: nat, total: real, low: Option<real>, high: Option<real>): Group {
    var added := g.(total := g.total + total, count := g.count + count, invalid := g.invalid + invalid);
    if count == 0 then added
    else added.(minimum := LowerOf(g.minimum, low), maximum := UpperOf(g.maximum, high))
  }

  function WithLast(g: Group, s: Slot): Group {
    g.(last := LaterOf(g.last, Some(LastOf(s))))
  }

  lemma NamedNothing(g: Group, a: set<Slot>)
    requires Represents(g, a)
    ensures Named(g, a, g.simulated, {})
  {
    hide Least, Greatest, Latest;
    assert Valid({}) == {};
    assert Sources(a) + Sources({}) == Sources(a) && Methods(a) + Methods({}) == Methods(a);
  }

  method MaxKey(keys: set<nat>) returns (m: nat)
    requires keys != {}
    ensures m in keys && forall k | k in keys :: k <= m
  {
    m :| m in keys;
    var rest := keys - {m};
    while rest != {}
      invariant rest <= keys && m in keys
      invariant forall k | k in keys && k !in rest :: k <= m
    {
      var k :| k in rest;
      if k > m { m := k; }
      rest := rest - {k};
    }
  }

  lemma MaxStampIsLatest(p: Payload, m: nat)
    requires m in p.values && forall k | k in p.values :: k <= m
    ensures Latest(Some(LastOf(SlotOf(p, m))), Slots(p))
  {
    var s := SlotOf(p, m);
    assert s in Slots(p);
    forall t | t in Slots(p) && t != s
      ensures t.time < s.time
    {
      assert t.time / SECOND < s.time / SECOND;
    }
  }

  /** The statistics of a whole minute: the stored ones when their counts match, otherwise recomputed. */
  method WholeStats(g: Group, data: Payload, valid: seq<real>) returns (r: Group)
    requires TrueStats(data) && Lists(valid, Slots(data)) && data.values != map[]
    ensures exists low, high :: StatsAdded(g, Slots(data), low, high, r)
  {
    hide Least, Greatest;
    SlotsSize(data);
    SubsetSize(Valid(Slots(data)), Slots(data));
    var invalid := |data.values| - |valid|;
    var cached :=
      && data.stats.Some? && data.stats.value.valid == |valid| && data.stats.value.invalid == invalid
      && (valid == [] || (data.stats.value.minimum.Some? && data.stats.value.maximum.Some?));
    if cached {
      var s := data.stats.value;
      r := WithStats(g, |valid|, invalid, s.sum, s.minimum, s.maximum);
      if valid == [] {
        assert StatsAdded(g, Slots(data), MinOf(valid), MaxOf(valid), r);
      } else {
        assert StatsAdded(g, Slots(data), s.minimum, s.maximum, r);
      }
    } else {
      r := WithStats(g, |valid|, invalid, SumOf(valid), MinOf(valid), MaxOf(valid));
      assert StatsAdded(g, Slots(data), MinOf(valid), MaxOf(valid), r);
    }
  }

  /** `r` is `g` with the figures of `slots` added, whose bounds are `low` and `high`. */
  ghost predicate StatsAdded(g: Group, slots: set<Slot>, low: Option<real>, high: Option<real>, r: Group) {
    && Least(low, slots) && Greatest(high, slots)
    && r.count == g.count + |Valid(slots)| && r.invalid == g.invalid + |slots| - |Valid(slots)|
    && r.total == g.total + Total(slots)
    && r.minimum == LowerOf(g.minimum, low) && r.maximum == UpperOf(g.maximum, high)
    && r.sources == g.sources && r.methods == g.methods
    && r.mixed == g.mixed && r.simulated == g.simulated && r.last == g.last
  }

  /** The names of every slot and the list of valid values, in whatever order the slots come. */
  method Provenances(g0: Group, data: Payload, ghost before: set<Slot>) returns (g: Group, valid: seq<real>)
    requires Represents(g0, before)
    ensures g == g0.(sources := g.sources, methods := g.methods, simulated := g.simulated)
    ensures Named(g, before, g0.simulated, Slots(data)) && Lists(valid, Slots(data))
  {
    hide Named, Lists, Represents, WithProvenance;
    g, valid := g0, [];
    NamedNothing(g, before);
    ListsNothing();
    var rest := data.values.Keys;
    ghost var done: set<Slot> := {};
    while rest != {}
      invariant rest <= data.values.Keys
      invariant done == set k | k in data.values.Keys - rest :: SlotOf(data, k)
      invariant g == g0.(sources := g.sources, methods := g.methods, simulated := g.simulated)
      invariant Named(g, before, g0.simulated, done) && Lists(valid, done)
    {
      var k :| k in rest;
      var s := SlotOf(data, k);
      NamedMore(g, before, g0.simulated, done, s);
      ListsMore(valid, done, s);
      ProvenanceFrame(g, s);
      g := WithProvenance(g, s);
      if s.value.Some? {
        valid := valid + [s.value.value];
      }
      rest := rest - {k};
      done := done + {s};
    }
    assert done == Slots(data);
  }

  lemma ProvenanceFrame(g: Group, s: Slot)
    ensures var r := WithProvenance(g, s); r == g.(sources := r.sources, methods := r.methods, simulated := r.simulated)
  {
  }

  /** The group of a non-empty minute added to a group. */
  method AddMinute(g0: Group, data: Payload, ghost before: set<Slot>) returns (g: Group)
    requires TrueStats(data) && data.values != map[] && Represents(g0, before)
    requires before !! Slots(data) && TimesDistinct(before + Slots(data))
    ensures Represents(g, before + Slots(data))
  {
    hide Least, Greatest, Latest, TrueStats, Capped, SomeSimulated;
    var lastStamp := MaxKey(data.values.Keys);
    var valid;
    g, valid := Provenances(g0, data, before);
    ghost var named := g;
    g := WholeStats(g, data, valid);
    ghost var low, high :| StatsAdded(named, Slots(data), low, high, g);
    MaxStampIsLatest(data, lastStamp);
    g := WithLast(g, SlotOf(data, lastStamp));
    AddingRepresents(g0, before, Slots(data), low, high, Some(LastOf(SlotOf(data, lastStamp))), g);
  }

  lemma AddedSlotRepresents(g: Group, before: set<Slot>, s: Slot)
    requires Represents(g, before) && s !in before && TimesDistinct(before + {s})
    ensures var named := WithProvenance(g, s);
            var counted := WithStats(named, if s.value.Some? then 1 else 0, if s.value.None? then 1 else 0, Amount(s), s.value, s.value);
            Represents(WithLast(counted, s), before + {s})
  {
    hide Least, Greatest, Latest, Capped, SomeSimulated, Simulates, Total, Sources, Methods, TimesDistinct, Cap;
    OneSlot(s);
    NamedNothing(g, before);
    NamedMore(g, before, g.simulated, {}, s);
    assert {} + {s} == {s};
    ProvenanceFrame(g, s);
    var named := WithProvenance(g, s);
    var counted := WithStats(named, if s.value.Some? then 1 else 0, if s.value.None? then 1 else 0, Amount(s), s.value, s.value);
    AddingRepresents(g, before, {s}, s.value, s.value, Some(LastOf(s)), WithLast(counted, s));
  }

  /** Every name is offered to the capped set, in any order. */
  method CapAll(kept: set<string>, offered: set<string>) returns (r: set<string>)
    requires |kept| <= 2
    ensures kept <= r && Capped(r, kept + offered)
  {
    hide Capped;
    r := kept;
    var names := offered;
    ghost var taken: set<string> := {};
    NothingAfter(kept);
    CappedSelf(kept);
    while names != {}
      invariant names + taken == offered && names !! taken && kept <= r
      invariant Capped(r, kept + taken)
    {
      var name :| name in names;
      CapAfter(r, kept, taken, name);
      r := Cap(r, name);
      names, taken := names - {name}, taken + {name};
    }
    assert taken == offered;
  }

  lemma CappedSelf(kept: set<string>)
    requires |kept| <= 2
    ensures Capped(kept, kept)
  {
  }

  /** A part without valid slots has no bounds, so skipping them is merging them. */
  lemma PartStats(g: Group, part: Group, a: set<Slot>, slots: set<Slot>)
    requires Represents(g, a) && Represents(part, slots)
    ensures var r := WithStats(g, part.count, part.invalid, part.total, part.minimum, part.maximum);
            && r.minimum == LowerOf(g.minimum, part.minimum) && r.maximum == UpperOf(g.maximum, part.maximum)
            && r.total == g.total + part.total && r.count == g.count + part.count && r.invalid == g.invalid + part.invalid
    ensures |g.sources| <= 2 && |g.methods| <= 2
  {
    if part.count == 0 {
      assert Valid(slots) == {};
    }
  }

  /** Bucket `b` holds exactly the group of `slots`; an empty bucket does not exist. */
  ghost predicate AnswersAt(groups: map<nat, Group>, b: nat, slots: set<Slot>) {
    if slots == {} then b !in groups else b in groups && Represents(groups[b], slots)
  }

  /** The groups of one reader: output bucket to accumulator. */
  class HistoryGroups {
    var groups: map<nat, Group>

    constructor ()
      ensures groups == map[]
    {
      groups := map[];
    }

    /** Bucket `bucket` accumulates exactly `slots`; an empty bucket does not exist. */
    ghost predicate Holds(bucket: nat, slots: set<Slot>)
      reads this
    {
      AnswersAt(groups, bucket, slots)
    }

    /** A complete minute: its stored statistics when they match, otherwise its slots. */
    method WholeMinute(bucket: nat, data: Payload, ghost before: set<Slot>)
      requires TrueStats(data) && Holds(bucket, before)
      requires before !! Slots(data) && TimesDistinct(before + Slots(data))
      modifies this
      ensures Holds(bucket, before + Slots(data))
      ensures groups == old(groups) || (bucket in groups && groups == old(groups)[bucket := groups[bucket]])
    {
      hide Represents, TrueStats, TimesDistinct, SlotOf;
      if |data.values| == 0 {
        assert Slots(data) == {} && before + Slots(data) == before;
        return;
      }
      if bucket !in groups {
        groups := groups[bucket := NewGroup()];
        EmptyRepresents();
      }
      var g := AddMinute(groups[bucket], data, before);
      groups := groups[bucket := g];
      SlotsSize(data);
      assert before + Slots(data) != {};
    }

    /** The slot-by-slot path: names, then statistics, then the last sample. */
    method AddSlot(bucket: nat, s: Slot, ghost before: set<Slot>)
      requires Holds(bucket, before) && s !in before && TimesDistinct(before + {s})
      modifies this
      ensures Holds(bucket, before + {s})
      ensures bucket in groups && groups == (old(groups)[bucket := groups[bucket]])
    {
      hide Represents, TimesDistinct;
      if bucket !in groups {
        groups := groups[bucket := NewGroup()];
        EmptyRepresents();
      }
      var g := WithProvenance(groups[bucket], s);
      g := WithStats(g, if s.value.Some? then 1 else 0, if s.value.None? then 1 else 0, Amount(s), s.value, s.value);
      AddedSlotRepresents(groups[bucket], before, s);
      groups := groups[bucket := WithLast(g, s)];
      assert s in before + {s};
    }

    /** A cached minute: its summary group merged as one part. */
    method MergeSummary(bucket: nat, part: Group, ghost before: set<Slot>, ghost slots: set<Slot>)
      requires Holds(bucket, before) && Represents(part, slots) && slots != {}
      requires before !! slots && TimesDistinct(before + slots)
      modifies this
      ensures Holds(bucket, before + slots)
      ensures bucket in groups && groups == (old(groups)[bucket := groups[bucket]])
    {
      hide Represents, TimesDistinct;
      if bucket !in groups {
        groups := groups[bucket := NewGroup()];
        EmptyRepresents();
      }
      var target := groups[bucket];
      var g := WithStats(target, part.count, part.invalid, part.total, part.minimum, part.maximum);
      PartStats(target, part, before, slots);
      var sources := CapAll(target.sources, part.sources);
      var methods := CapAll(target.methods, part.methods);
      g := g.(sources := sources, methods := methods,
              simulated := target.simulated || part.simulated, mixed := target.mixed || part.mixed,
              last := LaterOf(target.last, part.last));
      groups := groups[bucket := g];
      MergeRepresents(target, before, part, slots, g);
    }
  }
}
