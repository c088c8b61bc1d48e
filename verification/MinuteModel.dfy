/** Compact minute history: stored minutes, their slots, and what an accumulated group must say about slots. */
module MinuteModel {
  import opened Basics

  const MINUTE: int := 60 * SECOND
  const DEFAULT_SOURCE: string := "EDGE_STATE"

  /** What a slot keeps about the observation behind it. Times are microseconds since the epoch. */
  datatype Evidence = Evidence(
    generatedAt: nat, observedAt: Option<int>, assessmentId: Option<string>, observationId: Option<string>,
    dataState: string, reasonCodes: seq<string>)

  /** Statistics stored with a minute; older minutes may have none. */
  datatype Stats = Stats(valid: nat, invalid: nat, sum: real, minimum: Option<real>, maximum: Option<real>)

  /** One stored minute: dictionaries keyed by whole second, and the sample written last. */
  datatype Payload = Payload(
    values: map<nat, Option<real>>,
    metadata: map<nat, Evidence>,
    sources: map<nat, string>,
    methods: map<nat, Option<string>>,
    stats: Option<Stats>,
    last: Evidence)

  /** One second of history, with the time and evidence a reader may use for it. */
  datatype Slot = Slot(
    stamp: nat, time: nat, value: Option<real>, source: string, technique: Option<string>, evidence: Evidence)

  /** The exact time of a slot is known only when its retained evidence falls in its second. */
  predicate Precise(p: Payload, k: nat) {
    k in p.metadata && p.metadata[k].generatedAt / SECOND == k
  }

  function SlotOf(p: Payload, k: nat): (s: Slot)
    requires k in p.values
    ensures s.time / SECOND == s.stamp == k
  {
    Slot(k,
         if Precise(p, k) then p.metadata[k].generatedAt else k * SECOND,
         p.values[k],
         if k in p.sources then p.sources[k] else DEFAULT_SOURCE,
         if k in p.methods then p.methods[k] else None,
         if Precise(p, k) then p.metadata[k] else p.last)
  }

  function Slots(p: Payload): set<Slot> {
    set k | k in p.values :: SlotOf(p, k)
  }

  predicate Simulates(technique: Option<string>) {
    technique.Some? && ("SIMULATION_HEIGHT_SECTION_V1:" <= technique.value || "SIMULATION_SENSOR_ANGLE_V1:" <= technique.value)
  }

  datatype Last = Last(time: nat, value: Option<real>, evidence: Evidence, source: string, technique: Option<string>)

  function LastOf(s: Slot): Last { Last(s.time, s.value, s.evidence, s.source, s.technique) }

  /** The accumulator of one output bucket. */
  datatype Group = Group(
    total: real, count: nat, invalid: nat, minimum: Option<real>, maximum: Option<real>,
    sources: set<string>, methods: set<string>, mixed: bool, simulated: bool, last: Option<Last>)

  function NewGroup(): Group {
    Group(0.0, 0, 0, None, None, {}, {}, false, false, None)
  }

  // ---- The meaning of a group: independent of any order ----

  function Valid(slots: set<Slot>): set<Slot> { set s | s in slots && s.value.Some? }

  function Sources(slots: set<Slot>): set<string> { set s | s in Valid(slots) :: s.source }

  function Methods(slots: set<Slot>): set<string> { set s | s in Valid(slots) && s.technique.Some? :: s.technique.value }

  function Amount(s: Slot): real { if s.value.Some? then s.value.value else 0.0 }

  ghost function Total(slots: set<Slot>): real {
    if slots == {} then 0.0 else var s :| s in slots; Amount(s) + Total(slots - {s})
  }

  ghost predicate Least(m: Option<real>, slots: set<Slot>) {
    match m
    case None => Valid(slots) == {}
    case Some(x) => (exists s :: s in Valid(slots) && s.value == Some(x)) && forall s | s in Valid(slots) :: x <= s.value.value
  }

  ghost predicate Greatest(m: Option<real>, slots: set<Slot>) {
    match m
    case None => Valid(slots) == {}
    case Some(x) => (exists s :: s in Valid(slots) && s.value == Some(x)) && forall s | s in Valid(slots) :: s.value.value <= x
  }

  /** `kept` holds up to two of the true values: enough to tell one from several. */
  predicate Capped(kept: set<string>, all: set<string>) {
    kept <= all && |kept| == if |all| < 2 then |all| else 2
  }

  /** The slot after all others in time. */
  ghost predicate Latest(last: Option<Last>, slots: set<Slot>) {
    match last
    case None => slots == {}
    case Some(l) => exists s :: s in slots && l == LastOf(s) && forall t | t in slots && t != s :: t.time < s.time
  }

  ghost predicate SomeSimulated(slots: set<Slot>) {
    exists s :: s in slots && Simulates(s.technique)
  }

  ghost predicate Represents(g: Group, slots: set<Slot>) {
    && g.count == |Valid(slots)|
    && g.invalid == |slots| - |Valid(slots)|
    && g.total == Total(slots)
    && Least(g.minimum, slots)
    && Greatest(g.maximum, slots)
    && Capped(g.sources, Sources(slots))
    && Capped(g.methods, Methods(slots))
    && !g.mixed
    && (g.simulated <==> SomeSimulated(slots))
    && Latest(g.last, slots)
  }

  ghost predicate TimesDistinct(slots: set<Slot>) {
    forall s, t | s in slots && t in slots && s.time == t.time :: s == t
  }

  // ---- Merging ----

  function LowerOf(a: Option<real>, b: Option<real>): Option<real> {
    if a.None? then b else if b.None? then a else Some(Min(a.value, b.value))
  }

  function UpperOf(a: Option<real>, b: Option<real>): Option<real> {
    if a.None? then b else if b.None? then a else Some(Max(a.value, b.value))
  }

  /** A later or equal time replaces the last sample. */
  function LaterOf(a: Option<Last>, b: Option<Last>): Option<Last> {
    if b.None? then a else if a.None? || b.value.time >= a.value.time then b else a
  }

  /** `r` is `g` with everything `p` accumulated; which of several names a capped set keeps is left open. */
  predicate Merged(g: Group, p: Group, r: Group) {
    && r.total == g.total + p.total && r.count == g.count + p.count && r.invalid == g.invalid + p.invalid
    && r.minimum == LowerOf(g.minimum, p.minimum) && r.maximum == UpperOf(g.maximum, p.maximum)
    && g.sources <= r.sources && Capped(r.sources, g.sources + p.sources)
    && g.methods <= r.methods && Capped(r.methods, g.methods + p.methods)
    && r.mixed == (g.mixed || p.mixed) && r.simulated == (g.simulated || p.simulated)
    && r.last == LaterOf(g.last, p.last)
  }

  lemma {:induction false} TotalRemove(slots: set<Slot>, s: Slot)
    requires s in slots
    ensures Total(slots) == Amount(s) + Total(slots - {s})
  {
    var t :| t in slots && Total(slots) == Amount(t) + Total(slots - {t});
    if t != s {
      TotalRemove(slots - {t}, s);
      TotalRemove(slots - {s}, t);
      assert slots - {t} - {s} == slots - {s} - {t};
    }
  }

  lemma {:induction false} TotalUnion(a: set<Slot>, b: set<Slot>)
    requires a !! b
    ensures Total(a + b) == Total(a) + Total(b)
  {
    if b == {} {
      assert a + b == a;
    } else {
      var s :| s in b;
      TotalUnion(a, b - {s});
      TotalRemove(b, s);
      TotalRemove(a + b, s);
      assert a + b - {s} == a + (b - {s});
    }
  }

  lemma SubsetOfSize<T>(a: set<T>, b: set<T>)
    requires a <= b && |a| == |b|
    ensures a == b
  {
    if x :| x in b && x !in a {
      SubsetSize(a, b - {x});
    }
  }

  /** Capping before or after a union keeps the same information. */
  lemma CappedUnion(g: set<string>, a: set<string>, p: set<string>, b: set<string>, r: set<string>)
    requires Capped(g, a) && Capped(p, b) && Capped(r, g + p)
    ensures Capped(r, a + b)
  {
    SubsetSize(g, g + p);
    SubsetSize(p, g + p);
    SubsetSize(g + p, a + b);
    if |a| < 2 { SubsetOfSize(g, a); }
    if |b| < 2 { SubsetOfSize(p, b); }
  }

  /** The group of `a` with the figures of `b` added is the group of their union. */
  lemma AddingRepresents(g: Group, a: set<Slot>, b: set<Slot>, low: Option<real>, high: Option<real>, last: Option<Last>, r: Group)
    requires Represents(g, a) && a !! b && TimesDistinct(a + b)
    requires Least(low, b) && Greatest(high, b) && Latest(last, b)
    requires r.count == g.count + |Valid(b)| && r.invalid == g.invalid + |b| - |Valid(b)|
    requires r.total == g.total + Total(b)
    requires r.minimum == LowerOf(g.minimum, low) && r.maximum == UpperOf(g.maximum, high)
    requires Capped(r.sources, Sources(a) + Sources(b)) && Capped(r.methods, Methods(a) + Methods(b))
    requires !r.mixed && (r.simulated <==> (g.simulated || SomeSimulated(b)))
    requires r.last == LaterOf(g.last, last)
    ensures Represents(r, a + b)
  {
    hide Least, Greatest, Latest, Total, Capped, SomeSimulated, Sources, Methods, Valid;
    MergeCounts(a, b);
    MergeNames(a, b);
    MergeSimulated(a, b);
    TotalUnion(a, b);
    MergeLeast(g.minimum, a, low, b);
    MergeGreatest(g.maximum, a, high, b);
    MergeLatest(g.last, a, last, b);
  }

  /** Merging is a homomorphism: groups of disjoint slot sets merge into the group of their union. */
  lemma MergeRepresents(g: Group, a: set<Slot>, p: Group, b: set<Slot>, r: Group)
    requires Represents(g, a) && Represents(p, b) && Merged(g, p, r)
    requires a !! b && TimesDistinct(a + b)
    ensures Represents(r, a + b)
  {
    hide Least, Greatest, Latest, Total, Capped, SomeSimulated;
    CappedUnion(g.sources, Sources(a), p.sources, Sources(b), r.sources);
    CappedUnion(g.methods, Methods(a), p.methods, Methods(b), r.methods);
    AddingRepresents(g, a, b, p.minimum, p.maximum, p.last, r);
  }

  lemma MergeCounts(a: set<Slot>, b: set<Slot>)
    requires a !! b
    ensures |a + b| == |a| + |b| && |Valid(a + b)| == |Valid(a)| + |Valid(b)|
  {
    assert Valid(a + b) == Valid(a) + Valid(b);
  }

  lemma MergeNames(a: set<Slot>, b: set<Slot>)
    ensures Sources(a + b) == Sources(a) + Sources(b) && Methods(a + b) == Methods(a) + Methods(b)
  {
    assert Valid(a + b) == Valid(a) + Valid(b);
  }

  lemma MergeSimulated(a: set<Slot>, b: set<Slot>)
    ensures SomeSimulated(a + b) <==> SomeSimulated(a) || SomeSimulated(b)
  {
    assert forall s | s in a || s in b :: s in a + b;
  }

  lemma MergeLeast(x: Option<real>, a: set<Slot>, y: Option<real>, b: set<Slot>)
    requires Least(x, a) && Least(y, b)
    ensures Least(LowerOf(x, y), a + b)
  {
    assert Valid(a + b) == Valid(a) + Valid(b);
  }

  lemma MergeGreatest(x: Option<real>, a: set<Slot>, y: Option<real>, b: set<Slot>)
    requires Greatest(x, a) && Greatest(y, b)
    ensures Greatest(UpperOf(x, y), a + b)
  {
    assert Valid(a + b) == Valid(a) + Valid(b);
  }

  lemma MergeLatest(x: Option<Last>, a: set<Slot>, y: Option<Last>, b: set<Slot>)
    requires Latest(x, a) && Latest(y, b) && a !! b && TimesDistinct(a + b)
    ensures Latest(LaterOf(x, y), a + b)
  {
    if x.None? {
      assert a + b == b;
    } else if y.None? {
      assert a + b == a;
    } else {
      var s :| s in a && x.value == LastOf(s) && forall t | t in a && t != s :: t.time < s.time;
      var u :| u in b && y.value == LastOf(u) && forall t | t in b && t != u :: t.time < u.time;
      var w := if u.time >= s.time then u else s;
      assert w in a + b && LaterOf(x, y).value == LastOf(w);
      assert forall t | t in a + b && t != w :: t.time < w.time;
    }
  }

  lemma EmptyRepresents()
    ensures Represents(NewGroup(), {})
  {
    assert Valid({}) == {} && Sources({}) == {} && Methods({}) == {};
  }

  /** A capped set takes a name only while it holds fewer than two. */
  function Cap(kept: set<string>, name: string): set<string> {
    if |kept| < 2 then kept + {name} else kept
  }

  lemma CapRepresents(kept: set<string>, all: set<string>, name: string)
    requires Capped(kept, all)
    ensures Capped(Cap(kept, name), all + {name})
  {
    if |all| < 2 {
      SubsetOfSize(kept, all);
    } else {
      SubsetSize(all, all + {name});
    }
  }

  lemma OneSlot(s: Slot)
    ensures Total({s}) == Amount(s)
    ensures Valid({s}) == if s.value.Some? then {s} else {}
    ensures Sources({s}) == if s.value.Some? then {s.source} else {}
    ensures Methods({s}) == if s.value.Some? && s.technique.Some? then {s.technique.value} else {}
    ensures Least(s.value, {s}) && Greatest(s.value, {s}) && Latest(Some(LastOf(s)), {s})
    ensures SomeSimulated({s}) <==> Simulates(s.technique)
  {
    TotalRemove({s}, s);
    assert {s} - {s} == {};
    assert s in {s};
    assert Valid({s}) == if s.value.Some? then {s} else {};
  }

  lemma SlotsSize(p: Payload)
    ensures |Slots(p)| == |p.values|
  {
    SlotsOfKeys(p, p.values.Keys);
    assert Slots(p) == (set k | k in p.values.Keys :: SlotOf(p, k));
  }

  lemma {:induction false} SlotsOfKeys(p: Payload, keys: set<nat>)
    requires keys <= p.values.Keys
    ensures |set k | k in keys :: SlotOf(p, k)| == |keys|
  {
    if keys != {} {
      var k :| k in keys;
      SlotsOfKeys(p, keys - {k});
      assert (set j | j in keys :: SlotOf(p, j)) == (set j | j in keys - {k} :: SlotOf(p, j)) + {SlotOf(p, k)};
    }
  }
}
