/** Bounded frozen event lists: byte counter, limits, eviction order and who may read what. */
module EventPageStore {
  import opened Basics

  datatype Frozen = Frozen(owner: nat, context: nat, items: seq<seq<bv8>>, token: nat, expiresAt: int, deadline: int, size: nat)

  datatype Bounds = Bounds(ttl: nat, entries: nat, bytes: nat, perOwner: nat)

  datatype PutResult = Kept(value: Frozen) | TooLarge

  // ---- What the limits are about ----

  function Bytes(entries: seq<Frozen>): nat {
    if entries == [] then 0 else entries[0].size + Bytes(entries[1..])
  }

  function OwnedBy(entries: seq<Frozen>, owner: nat): nat {
    if entries == [] then 0 else (if entries[0].owner == owner then 1 else 0) + OwnedBy(entries[1..], owner)
  }

  predicate DistinctTokens(entries: seq<Frozen>) {
    forall i, j | 0 <= i < j < |entries| :: entries[i].token != entries[j].token
  }

  predicate InUse(entries: seq<Frozen>, token: nat) { exists e <- entries :: e.token == token }

  // ---- What eviction leaves ----

  function Live(entries: seq<Frozen>, now: int): seq<Frozen> {
    if entries == [] then []
    else (if entries[0].deadline > now then [entries[0]] else []) + Live(entries[1..], now)
  }

  /** Without the oldest entries of an owner, as many as given. */
  function WithoutOldest(entries: seq<Frozen>, owner: nat, count: nat): seq<Frozen> {
    if entries == [] || count == 0 then entries
    else if entries[0].owner == owner then WithoutOldest(entries[1..], owner, count - 1)
    else [entries[0]] + WithoutOldest(entries[1..], owner, count)
  }

  predicate HasRoom(entries: seq<Frozen>, size: nat, bounds: Bounds) {
    |entries| < bounds.entries && Bytes(entries) + size <= bounds.bytes
  }

  /** The longest run of newest entries beside which the new one fits. */
  function Newest(entries: seq<Frozen>, size: nat, bounds: Bounds): seq<Frozen> {
    if entries == [] || HasRoom(entries, size, bounds) then entries else Newest(entries[1..], size, bounds)
  }

  /** How many entries an owner has too many for one more. */
  function Excess(live: nat, bounds: Bounds): nat { if live >= bounds.perOwner then live - bounds.perOwner + 1 else 0 }

  function Admitting(entries: seq<Frozen>, owner: nat, size: nat, bounds: Bounds): seq<Frozen> {
    Newest(WithoutOldest(entries, owner, Excess(OwnedBy(entries, owner), bounds)), size, bounds)
  }

  function SizeOf(items: seq<seq<bv8>>): nat {
    if items == [] then 1024 else SizeOf(items[..|items| - 1]) + |items[|items| - 1]| + 64
  }

  function WithNew(entries: seq<Frozen>, value: Frozen, now: int, bounds: Bounds): seq<Frozen> {
    Admitting(Live(entries, now), value.owner, value.size, bounds) + [value]
  }

  function Find(entries: seq<Frozen>, token: nat): Option<Frozen> {
    if entries == [] then None else if entries[0].token == token then Some(entries[0]) else Find(entries[1..], token)
  }

  function Found(entries: seq<Frozen>, token: nat, owner: nat, now: int): Option<Frozen> {
    var found := Find(Live(entries, now), token);
    if found.Some? && found.value.owner == owner then found else None
  }

  function Remove(entries: seq<Frozen>, token: nat): seq<Frozen> {
    if entries == [] then []
    else if entries[0].token == token then entries[1..]
    else [entries[0]] + Remove(entries[1..], token)
  }

  // ---- What losing entries keeps ----

  /** Nothing new, in bytes and in every owner's share, and tokens stay distinct. */
  ghost predicate Lighter(part: seq<Frozen>, whole: seq<Frozen>) {
    && |part| <= |whole| && Bytes(part) <= Bytes(whole)
    && (forall owner: nat :: OwnedBy(part, owner) <= OwnedBy(whole, owner))
    && (forall e <- part :: e in whole)
    && (DistinctTokens(whole) ==> DistinctTokens(part))
  }

  lemma TailDistinct(entries: seq<Frozen>)
    requires entries != [] && DistinctTokens(entries)
    ensures DistinctTokens(entries[1..])
    ensures forall e <- entries[1..] :: e.token != entries[0].token
  {
  }

  /** Putting the same entry in front of both. */
  lemma LighterWithHead(e: Frozen, part: seq<Frozen>, whole: seq<Frozen>)
    requires Lighter(part, whole)
    ensures Lighter([e] + part, [e] + whole) && Lighter(part, [e] + whole)
  {
    assert ([e] + part)[1..] == part && ([e] + whole)[1..] == whole;
    if DistinctTokens([e] + whole) {
      TailDistinct([e] + whole);
      assert forall i | 0 <= i < |part| :: part[i] in whole;
    }
  }

  lemma {:induction false} LiveIsLighter(entries: seq<Frozen>, now: int)
    ensures Lighter(Live(entries, now), entries)
    ensures forall e <- Live(entries, now) :: e.deadline > now
  {
    hide Lighter;
    if entries == [] {
      LighterSelf([]);
    } else {
      LiveIsLighter(entries[1..], now);
      LighterWithHead(entries[0], Live(entries[1..], now), entries[1..]);
      assert [] + Live(entries[1..], now) == Live(entries[1..], now);
      assert entries == [entries[0]] + entries[1..];
    }
  }

  lemma LighterSelf(entries: seq<Frozen>)
    ensures Lighter(entries, entries)
  {
  }

  lemma {:induction false} WithoutOldestIsLighter(entries: seq<Frozen>, owner: nat, count: nat)
    ensures Lighter(WithoutOldest(entries, owner, count), entries)
    ensures OwnedBy(WithoutOldest(entries, owner, count), owner) == MaxInt(0, OwnedBy(entries, owner) - count)
    ensures forall other: nat | other != owner :: OwnedBy(WithoutOldest(entries, owner, count), other) == OwnedBy(entries, other)
  {
    hide Lighter;
    if entries == [] || count == 0 {
      LighterSelf(entries);
    } else {
      var rest := entries[1..];
      assert entries == [entries[0]] + rest;
      if entries[0].owner == owner {
        WithoutOldestIsLighter(rest, owner, count - 1);
        LighterWithHead(entries[0], WithoutOldest(rest, owner, count - 1), rest);
      } else {
        WithoutOldestIsLighter(rest, owner, count);
        LighterWithHead(entries[0], WithoutOldest(rest, owner, count), rest);
        assert WithoutOldest(entries, owner, count)[1..] == WithoutOldest(rest, owner, count);
      }
    }
  }

  /** What stays is a suffix with room for the new entry, and no longer suffix has room. */
  lemma {:induction false} NewestIsLongest(entries: seq<Frozen>, size: nat, bounds: Bounds) returns (m: nat)
    requires bounds.entries > 0 && size <= bounds.bytes
    ensures m <= |entries| && Newest(entries, size, bounds) == entries[m..]
    ensures HasRoom(entries[m..], size, bounds)
    ensures forall k | 0 <= k < m :: !HasRoom(entries[k..], size, bounds)
    ensures Lighter(entries[m..], entries)
  {
    hide Lighter;
    if entries == [] || HasRoom(entries, size, bounds) {
      m := 0;
      LighterSelf(entries);
    } else {
      var n := NewestIsLongest(entries[1..], size, bounds);
      m := n + 1;
      assert forall k | 0 < k <= |entries| :: entries[k..] == entries[1..][k - 1..];
      LighterWithHead(entries[0], entries[m..], entries[1..]);
      assert entries == [entries[0]] + entries[1..];
    }
  }

  lemma {:induction false} AppendCounts(entries: seq<Frozen>, value: Frozen, owner: nat)
    ensures Bytes(entries + [value]) == Bytes(entries) + value.size
    ensures OwnedBy(entries + [value], owner) == OwnedBy(entries, owner) + if value.owner == owner then 1 else 0
  {
    if entries == [] {
      assert [value][1..] == [];
    } else {
      AppendCounts(entries[1..], value, owner);
      assert (entries + [value])[1..] == entries[1..] + [value];
    }
  }

  /** Every owner is within its share. */
  ghost predicate Shares(entries: seq<Frozen>, bounds: Bounds) {
    forall owner: nat :: OwnedBy(entries, owner) <= bounds.perOwner
  }

  ghost predicate Bounded(entries: seq<Frozen>, bounds: Bounds) {
    && |entries| <= bounds.entries && Bytes(entries) <= bounds.bytes && Shares(entries, bounds) && DistinctTokens(entries)
  }

  predicate Positive(bounds: Bounds) { bounds.ttl > 0 && bounds.entries > 0 && bounds.bytes > 0 && bounds.perOwner > 0 }

  lemma LighterIsBounded(part: seq<Frozen>, whole: seq<Frozen>, bounds: Bounds)
    requires Lighter(part, whole) && Bounded(whole, bounds)
    ensures Bounded(part, bounds) && (forall e <- part :: e in whole)
    ensures forall owner: nat :: OwnedBy(part, owner) <= OwnedBy(whole, owner)
  {
    hide Bytes, OwnedBy, DistinctTokens;
  }

  /** What stays of the live entries when a new one of an owner comes in. */
  lemma AdmittingHasRoom(entries: seq<Frozen>, owner: nat, size: nat, bounds: Bounds)
    requires Positive(bounds) && size <= bounds.bytes && Bounded(entries, bounds)
    ensures var kept := Admitting(entries, owner, size, bounds);
            Bounded(kept, bounds) && HasRoom(kept, size, bounds) && OwnedBy(kept, owner) < bounds.perOwner
            && forall e <- kept :: e in entries
  {
    hide Bytes, OwnedBy, DistinctTokens, WithoutOldest, Newest, Lighter, Bounded, HasRoom;
    var count := Excess(OwnedBy(entries, owner), bounds);
    WithoutOldestIsLighter(entries, owner, count);
    var fewer := WithoutOldest(entries, owner, count);
    LighterIsBounded(fewer, entries, bounds);
    var m := NewestIsLongest(fewer, size, bounds);
    LighterIsBounded(fewer[m..], fewer, bounds);
    forall e <- fewer[m..] ensures e in entries {
      assert e in fewer;
    }
  }

  /** What stays when a new entry comes in was stored and alive before. */
  lemma KeptWereStored(entries: seq<Frozen>, owner: nat, size: nat, now: int, bounds: Bounds)
    requires Positive(bounds) && size <= bounds.bytes && Bounded(entries, bounds)
    ensures var kept := Admitting(Live(entries, now), owner, size, bounds);
            && Bounded(kept, bounds) && HasRoom(kept, size, bounds) && OwnedBy(kept, owner) < bounds.perOwner
            && forall e <- kept :: e in entries && e.deadline > now
  {
    LiveIsLighter(entries, now);
    hide Admitting, HasRoom;
    AdmittingHasRoom(Live(entries, now), owner, size, bounds);
  }

  /** One put keeps every limit: entries, bytes, the owner's share and the tokens. */
  lemma PutKeepsBounds(entries: seq<Frozen>, value: Frozen, now: int, bounds: Bounds)
    requires Positive(bounds) && value.size <= bounds.bytes && Bounded(entries, bounds)
    requires !InUse(Admitting(Live(entries, now), value.owner, value.size, bounds), value.token)
    ensures Bounded(WithNew(entries, value, now, bounds), bounds)
    ensures forall e <- WithNew(entries, value, now, bounds) :: e == value || e in entries
  {
    KeptWereStored(entries, value.owner, value.size, now, bounds);
    hide Live, Admitting, Bytes, OwnedBy, DistinctTokens;
    var kept := Admitting(Live(entries, now), value.owner, value.size, bounds);
    forall owner: nat
      ensures OwnedBy(kept + [value], owner) <= bounds.perOwner
    {
      AppendCounts(kept, value, owner);
    }
    AppendCounts(kept, value, value.owner);
    AppendDistinct(kept, value);
  }

  lemma AppendDistinct(entries: seq<Frozen>, value: Frozen)
    requires DistinctTokens(entries) && !InUse(entries, value.token)
    ensures DistinctTokens(entries + [value])
  {
    assert forall i | 0 <= i < |entries| :: entries[i] in entries;
  }

  // ---- Looking a token up ----

  lemma {:induction false} FindIs(entries: seq<Frozen>, token: nat)
    ensures Find(entries, token).Some? ==> Find(entries, token).value in entries && Find(entries, token).value.token == token
    ensures Find(entries, token).None? ==> forall e <- entries :: e.token != token
  {
    if entries != [] {
      FindIs(entries[1..], token);
    }
  }

  /** With distinct tokens a reader gets a list exactly when it is stored under that token, alive and its own. */
  lemma GetIsExact(entries: seq<Frozen>, token: nat, owner: nat, now: int, e: Frozen)
    requires DistinctTokens(entries)
    ensures Found(entries, token, owner, now) == Some(e)
       <==> e in entries && e.token == token && e.owner == owner && e.deadline > now
  {
    LiveIsLighter(entries, now);
    FindIs(Live(entries, now), token);
    if e in entries && e.deadline > now {
      StaysLive(entries, now, e);
    }
  }

  lemma {:induction false} StaysLive(entries: seq<Frozen>, now: int, e: Frozen)
    requires e in entries && e.deadline > now
    ensures e in Live(entries, now)
  {
    if e != entries[0] {
      StaysLive(entries[1..], now, e);
    }
  }

  // ---- The loops that drop entries ----

  lemma {:induction false} RemoveAt(entries: seq<Frozen>, k: nat)
    requires k < |entries| && DistinctTokens(entries)
    ensures Remove(entries, entries[k].token) == entries[..k] + entries[k + 1..]
    ensures Find(entries, entries[k].token) == Some(entries[k])
    ensures Bytes(Remove(entries, entries[k].token)) == Bytes(entries) - entries[k].size
  {
    TailDistinct(entries);
    if k > 0 {
      RemoveAt(entries[1..], k - 1);
      assert Remove(entries, entries[k].token)[1..] == Remove(entries[1..], entries[k].token);
    }
  }

  lemma RemoveKeepsTokens(entries: seq<Frozen>, k: nat)
    requires k < |entries| && DistinctTokens(entries)
    ensures DistinctTokens(Remove(entries, entries[k].token))
  {
    hide Remove, Find, Bytes;
    RemoveAt(entries, k);
    var cut := entries[..k] + entries[k + 1..];
    forall i, j | 0 <= i < j < |cut|
      ensures cut[i].token != cut[j].token
    {
      var (p, q) := (if i < k then i else i + 1, if j < k then j else j + 1);
      assert cut[i] == entries[p] && cut[j] == entries[q];
    }
  }

  lemma {:induction false} LiveAppends(entries: seq<Frozen>, e: Frozen, now: int)
    ensures Live(entries + [e], now) == Live(entries, now) + if e.deadline > now then [e] else []
  {
    if entries == [] {
      assert [e][1..] == [];
    } else {
      LiveAppends(entries[1..], e, now);
      assert (entries + [e])[1..] == entries[1..] + [e] && (entries + [e])[0] == entries[0];
      var (head, last) := (if entries[0].deadline > now then [entries[0]] else [], if e.deadline > now then [e] else []);
      assert head + (Live(entries[1..], now) + last) == (head + Live(entries[1..], now)) + last;
    }
  }

  /** The store while it is pruned: the first entries looked at, the others as they were. */
  function Pending(listed: seq<Frozen>, i: nat, now: int): seq<Frozen>
    requires i <= |listed|
  {
    Live(listed[..i], now) + listed[i..]
  }

  lemma PendingStep(listed: seq<Frozen>, i: nat, now: int) returns (k: nat)
    requires i < |listed| && DistinctTokens(Pending(listed, i, now))
    ensures k < |Pending(listed, i, now)| && Pending(listed, i, now)[k] == listed[i]
    ensures Pending(listed, i + 1, now)
         == if listed[i].deadline <= now then Remove(Pending(listed, i, now), listed[i].token) else Pending(listed, i, now)
  {
    hide Live, DistinctTokens, Remove;
    k := |Live(listed[..i], now)|;
    assert listed[..i + 1] == listed[..i] + [listed[i]];
    LiveAppends(listed[..i], listed[i], now);
    assert listed[i..] == [listed[i]] + listed[i + 1..];
    RemoveAt(Pending(listed, i, now), k);
  }

  lemma PendingEnds(listed: seq<Frozen>, now: int)
    ensures Pending(listed, 0, now) == listed
    ensures Pending(listed, |listed|, now) == Live(listed, now)
  {
    assert listed[..0] == [] && listed[..|listed|] == listed;
  }

  /** The entries of an owner, oldest first. */
  function Tokens(entries: seq<Frozen>, owner: nat): seq<nat> {
    if entries == [] then []
    else (if entries[0].owner == owner then [entries[0].token] else []) + Tokens(entries[1..], owner)
  }

  lemma {:induction false} TokensCount(entries: seq<Frozen>, owner: nat)
    ensures |Tokens(entries, owner)| == OwnedBy(entries, owner)
  {
    if entries != [] {
      TokensCount(entries[1..], owner);
    }
  }

  /** Removing an owner's first token removes its oldest entry. */
  lemma {:induction false} FirstTokenIsOldest(entries: seq<Frozen>, owner: nat) returns (k: nat)
    requires DistinctTokens(entries) && Tokens(entries, owner) != []
    ensures k < |entries| && entries[k].token == Tokens(entries, owner)[0]
    ensures Remove(entries, entries[k].token) == WithoutOldest(entries, owner, 1)
    ensures Tokens(WithoutOldest(entries, owner, 1), owner) == Tokens(entries, owner)[1..]
  {
    TailDistinct(entries);
    if entries[0].owner == owner {
      k := 0;
    } else {
      var n := FirstTokenIsOldest(entries[1..], owner);
      k := n + 1;
      assert WithoutOldest(entries, owner, 1)[1..] == WithoutOldest(entries[1..], owner, 1);
    }
  }

  lemma {:induction false} OneByOne(entries: seq<Frozen>, owner: nat, count: nat)
    ensures WithoutOldest(WithoutOldest(entries, owner, 1), owner, count) == WithoutOldest(entries, owner, count + 1)
  {
    if entries != [] && entries[0].owner != owner {
      OneByOne(entries[1..], owner, count);
      assert WithoutOldest(entries, owner, 1)[1..] == WithoutOldest(entries[1..], owner, 1);
    }
  }

  /** Each item costs its bytes and 64 more, and a list 1024 of its own. */
  lemma {:induction false} SizeAdds(a: seq<seq<bv8>>, b: seq<seq<bv8>>)
    ensures SizeOf(a + b) == SizeOf(a) + SizeOf(b) - 1024 && SizeOf([]) == 1024
    ensures |b| == 1 ==> SizeOf(b) == 1024 + 64 + |b[0]|
  {
    if b == [] {
      assert a + b == a;
    } else {
      var n := |b| - 1;
      SizeAdds(a, b[..n]);
      assert (a + b)[..|a + b| - 1] == a + b[..n];
    }
  }

  /** Taking an owner's oldest entries leaves its newest, in order, and every other owner's as they were. */
  lemma {:induction false} OwnerKeepsNewest(entries: seq<Frozen>, owner: nat, count: nat, other: nat)
    ensures var (before, after) := (Tokens(entries, owner), Tokens(WithoutOldest(entries, owner, count), owner));
            after == before[MinInt(count, |before|)..]
    ensures other != owner ==> Tokens(WithoutOldest(entries, owner, count), other) == Tokens(entries, other)
  {
    if entries != [] && count != 0 {
      OwnerKeepsNewest(entries[1..], owner, if entries[0].owner == owner then count - 1 else count, other);
    }
  }

  /** The owner of a new list has at most its share with it, and loses no more of its entries than that takes. */
  lemma OwnerKeepsItsShare(live: seq<Frozen>, owner: nat, bounds: Bounds)
    requires bounds.perOwner > 0
    ensures var (before, after) := (Tokens(live, owner), Tokens(WithoutOldest(live, owner, Excess(OwnedBy(live, owner), bounds)), owner));
            after == if |before| < bounds.perOwner then before else before[|before| - (bounds.perOwner - 1)..]
  {
    TokensCount(live, owner);
    OwnerKeepsNewest(live, owner, Excess(OwnedBy(live, owner), bounds), owner);
  }

  // ---- Whole runs ----

  /** A list is frozen, or a reader looks one up; both begin with pruning. */
  datatype Op = Freeze(value: Frozen, now: int) | Look(now: int)

  function After(ops: seq<Op>, bounds: Bounds): seq<Frozen> {
    if ops == [] then []
    else
      var before := After(ops[..|ops| - 1], bounds);
      match ops[|ops| - 1]
      case Freeze(value, now) => WithNew(before, value, now, bounds)
      case Look(now) => Live(before, now)
  }

  /** A frozen list is not larger than the store, and its token is not in use when it is given out. */
  predicate ProperAt(ops: seq<Op>, i: nat, bounds: Bounds)
    requires i < |ops|
  {
    match ops[i]
    case Freeze(value, now) =>
      value.size <= bounds.bytes && !InUse(Admitting(Live(After(ops[..i], bounds), now), value.owner, value.size, bounds), value.token)
    case Look(_) => true
  }

  predicate Proper(ops: seq<Op>, bounds: Bounds) { forall i | 0 <= i < |ops| :: ProperAt(ops, i, bounds) }

  /** The list was frozen by the last of the first `n` operations that gave out its token. */
  predicate FrozenLast(ops: seq<Op>, n: nat, e: Frozen) { exists i | 0 <= i < n && i < |ops| :: FrozenAt(ops, n, i, e) }

  predicate FrozenAt(ops: seq<Op>, n: nat, i: nat, e: Frozen) {
    && i < n <= |ops| && ops[i].Freeze? && ops[i].value == e
    && forall j | i < j < n && ops[j].Freeze? :: ops[j].value.token != e.token
  }

  /** In every run the limits hold, and everything stored is a list that was frozen, unchanged, and last under its token. */
  lemma {:induction false} RunIsBounded(ops: seq<Op>, n: nat, bounds: Bounds)
    requires Positive(bounds) && Proper(ops, bounds) && n <= |ops|
    ensures Bounded(After(ops[..n], bounds), bounds)
    ensures forall e <- After(ops[..n], bounds) :: FrozenLast(ops, n, e)
  {
    hide Bounded, Admitting, Live, FrozenLast;
    if n == 0 {
      NothingIsBounded(bounds);
    } else {
      RunIsBounded(ops, n - 1, bounds);
      assert ops[..n][..n - 1] == ops[..n - 1];
      OpIsBounded(After(ops[..n - 1], bounds), ops, n - 1, bounds);
    }
  }

  lemma NothingIsBounded(bounds: Bounds)
    ensures Bounded([], bounds)
  {
  }

  lemma OpIsBounded(before: seq<Frozen>, ops: seq<Op>, n: nat, bounds: Bounds)
    requires Positive(bounds) && n < |ops| && Bounded(before, bounds) && forall e <- before :: FrozenLast(ops, n, e)
    requires before == After(ops[..n], bounds) && ProperAt(ops, n, bounds)
    ensures var after := match ops[n] case Freeze(value, now) => WithNew(before, value, now, bounds) case Look(now) => Live(before, now);
            Bounded(after, bounds) && forall e <- after :: FrozenLast(ops, n + 1, e)
  {
    hide Live, Admitting, After, FrozenLast, Bounded;
    match ops[n]
    case Freeze(value, now) =>
      KeptWereStored(before, value.owner, value.size, now, bounds);
      PutKeepsBounds(before, value, now, bounds);
      FrozenNow(ops, n);
      forall e <- Admitting(Live(before, now), value.owner, value.size, bounds) ensures FrozenLast(ops, n + 1, e) {
        assert e in before;
        FrozenStays(ops, n, e);
      }
    case Look(now) =>
      LiveIsBounded(before, now, bounds);
      forall e <- Live(before, now) ensures FrozenLast(ops, n + 1, e) {
        FrozenStays(ops, n, e);
      }
  }

  lemma LiveIsBounded(entries: seq<Frozen>, now: int, bounds: Bounds)
    requires Bounded(entries, bounds)
    ensures Bounded(Live(entries, now), bounds) && forall e <- Live(entries, now) :: e in entries
  {
    LiveIsLighter(entries, now);
    LighterIsBounded(Live(entries, now), entries, bounds);
  }

  lemma FrozenNow(ops: seq<Op>, n: nat)
    requires n < |ops| && ops[n].Freeze?
    ensures FrozenLast(ops, n + 1, ops[n].value)
  {
    assert FrozenAt(ops, n + 1, n, ops[n].value);
  }

  lemma FrozenStays(ops: seq<Op>, n: nat, e: Frozen)
    requires n < |ops| && FrozenLast(ops, n, e) && (ops[n].Freeze? ==> ops[n].value.token != e.token)
    ensures FrozenLast(ops, n + 1, e)
  {
    var i :| 0 <= i < n && i < |ops| && FrozenAt(ops, n, i, e);
    assert FrozenAt(ops, n + 1, i, e);
  }

  /** A token gives its owner the very list last frozen under it, before its deadline, and nobody else anything. */
  lemma {:induction false} ReadersGetWhatWasFrozen(ops: seq<Op>, i: nat, token: nat, owner: nat, now: int, bounds: Bounds)
    requires Positive(bounds) && Proper(ops, bounds) && i < |ops| && ops[i].Freeze? && ops[i].value.token == token
    requires forall j | i < j < |ops| && ops[j].Freeze? :: ops[j].value.token != token
    requires Found(After(ops, bounds), token, owner, now).Some?
    ensures Found(After(ops, bounds), token, owner, now) == Some(ops[i].value)
    ensures ops[i].value.owner == owner && now < ops[i].value.deadline
  {
    hide After, Proper, Bounded, Found;
    RunIsBounded(ops, |ops|, bounds);
    assert ops[..|ops|] == ops;
    var e := Found(After(ops, bounds), token, owner, now).value;
    assert DistinctTokens(After(ops, bounds)) by { BoundedIsDistinct(After(ops, bounds), bounds); }
    GetIsExact(After(ops, bounds), token, owner, now, e);
    var k :| 0 <= k < |ops| && FrozenAt(ops, |ops|, k, e);
    assert k == i;
  }

  lemma BoundedIsDistinct(entries: seq<Frozen>, bounds: Bounds)
    requires Bounded(entries, bounds)
    ensures DistinctTokens(entries)
  {
  }

  /** A put evicts nobody exactly when the owner has a place left and the list fits beside all live ones. */
  lemma EvictsOnlyIfNeeded(entries: seq<Frozen>, value: Frozen, now: int, bounds: Bounds)
    requires Positive(bounds) && value.size <= bounds.bytes
    ensures WithNew(entries, value, now, bounds) == Live(entries, now) + [value]
       <==> OwnedBy(Live(entries, now), value.owner) < bounds.perOwner && HasRoom(Live(entries, now), value.size, bounds)
  {
    hide Live, Bytes, OwnedBy, Admitting;
    var live := Live(entries, now);
    AdmitsAllIf(live, value.owner, value.size, bounds);
    SameWithoutLast(Admitting(live, value.owner, value.size, bounds), live, value);
  }

  lemma AdmitsAllIf(live: seq<Frozen>, owner: nat, size: nat, bounds: Bounds)
    requires Positive(bounds) && size <= bounds.bytes
    ensures Admitting(live, owner, size, bounds) == live <==> OwnedBy(live, owner) < bounds.perOwner && HasRoom(live, size, bounds)
  {
    var count := Excess(OwnedBy(live, owner), bounds);
    WithoutOldestIsLighter(live, owner, count);
    assert count == 0 ==> WithoutOldest(live, owner, count) == live;
    var fewer := WithoutOldest(live, owner, count);
    var m := NewestIsLongest(fewer, size, bounds);
    hide Bytes, OwnedBy, WithoutOldest, Newest, HasRoom;
    assert fewer[m..] == live ==> |fewer| == |live| && m == 0;
    assert m == 0 ==> fewer[m..] == fewer;
    assert fewer[0..] == fewer;
  }

  lemma SameWithoutLast(a: seq<Frozen>, b: seq<Frozen>, value: Frozen)
    ensures a + [value] == b + [value] <==> a == b
  {
    assert (a + [value])[..|a|] == a && (b + [value])[..|b|] == b;
  }

  /** The first of the drawn tokens that no entry has. */
  predicate FirstUnused(entries: seq<Frozen>, draws: seq<nat>, token: nat) {
    !InUse(entries, token) && exists i | 0 <= i < |draws| :: draws[i] == token && forall j | 0 <= j < i :: InUse(entries, draws[j])
  }

  lemma StillUnused(entries: seq<Frozen>, part: seq<Frozen>, draws: seq<nat>)
    requires (exists i | 0 <= i < |draws| :: !InUse(entries, draws[i])) && forall e <- part :: e in entries
    ensures exists i | 0 <= i < |draws| :: !InUse(part, draws[i])
  {
    var i :| 0 <= i < |draws| && !InUse(entries, draws[i]);
    assert !InUse(part, draws[i]);
  }

  lemma AdmittingIs(entries: seq<Frozen>, owner: nat, size: nat, bounds: Bounds)
    ensures Admitting(entries, owner, size, bounds)
         == Newest(WithoutOldest(entries, owner, Excess(OwnedBy(entries, owner), bounds)), size, bounds)
  {
  }

  // ---- The store ----

  class Store {
    const bounds: Bounds
    var entries: seq<Frozen>
    var size: int
    var builds: int

    ghost predicate Valid()
      reads this
    {
      Positive(bounds) && size == Bytes(entries) && Bounded(entries, bounds) && 0 <= builds <= 2
    }

    constructor (bounds: Bounds)
      requires Positive(bounds)
      ensures Valid() && entries == [] && this.bounds == bounds && builds == 0
    {
      this.bounds := bounds;
      entries, size, builds := [], 0, 0;
    }

    method Begin() returns (busy: bool)
      requires Valid()
      modifies this`builds
      ensures Valid() && busy == (old(builds) == 2) && builds == if busy then old(builds) else old(builds) + 1
    {
      if builds >= 2 {
        return true;
      }
      builds := builds + 1;
      return false;
    }

    method End()
      requires Valid() && builds > 0
      modifies this`builds
      ensures Valid() && builds == old(builds) - 1
    {
      builds := builds - 1;
    }

    method Drop(token: nat, ghost k: nat)
      requires k < |entries| && entries[k].token == token && DistinctTokens(entries) && size == Bytes(entries)
      modifies this`entries, this`size
      ensures entries == Remove(old(entries), token)
      ensures size == Bytes(entries) && DistinctTokens(entries)
    {
      RemoveAt(entries, k);
      RemoveKeepsTokens(entries, k);
      size := size - Find(entries, token).value.size;
      entries := Remove(entries, token);
    }

    method Prune(now: int)
      requires Valid()
      modifies this`entries, this`size
      ensures Valid() && entries == Live(old(entries), now)
    {
      hide Live, Bytes, OwnedBy, DistinctTokens, Pending, Remove;
      var listed := entries;
      LiveIsLighter(listed, now);
      PendingEnds(listed, now);
      for i := 0 to |listed|
        invariant entries == Pending(listed, i, now)
        invariant size == Bytes(entries) && DistinctTokens(entries)
      {
        ghost var k := PendingStep(listed, i, now);
        if listed[i].deadline <= now {
          Drop(listed[i].token, k);
        }
      }
    }

    /** The frozen list under a token, for its owner; to anybody else it is gone. */
    method Get(token: nat, owner: nat, now: int) returns (value: Option<Frozen>)
      requires Valid()
      modifies this`entries, this`size
      ensures Valid() && entries == Live(old(entries), now)
      ensures forall e :: value == Some(e) <==> e in old(entries) && e.token == token && e.owner == owner && e.deadline > now
    {
      Prune(now);
      forall e ensures Found(old(entries), token, owner, now) == Some(e)
                  <==> e in old(entries) && e.token == token && e.owner == owner && e.deadline > now {
        GetIsExact(old(entries), token, owner, now, e);
      }
      value := Find(entries, token);
      if value.None? || value.value.owner != owner {
        return None;
      }
    }

    /** Freeze a list under the first drawn token that is not in use; the draws come up with one in the end. */
    method Put(owner: nat, context: nat, items: seq<seq<bv8>>, wall: int, now: int, later: int, draws: seq<nat>) returns (result: PutResult)
      requires Valid() && exists i | 0 <= i < |draws| :: !InUse(entries, draws[i])
      modifies this`entries, this`size
      ensures Valid()
      ensures result.TooLarge? <==> SizeOf(items) > bounds.bytes
      ensures result.TooLarge? ==> entries == Live(old(entries), now)
      ensures result.Kept? ==>
                && result.value == Frozen(owner, context, items, result.value.token, wall + bounds.ttl * SECOND, later + bounds.ttl * SECOND, SizeOf(items))
                && FirstUnused(Admitting(Live(old(entries), now), owner, SizeOf(items), bounds), draws, result.value.token)
                && entries == WithNew(old(entries), result.value, now, bounds)
    {
      hide Live, Admitting, Newest, WithoutOldest, Bounded, SizeOf;
      Prune(now);
      var added := Measure(items);
      if added > bounds.bytes {
        return TooLarge;
      }
      DropOwned(owner);
      DropOldest(added);
      assert entries == Admitting(Live(old(entries), now), owner, added, bounds) by { AdmittingIs(Live(old(entries), now), owner, added, bounds); }
      KeptWereStored(old(entries), owner, added, now, bounds);
      StillUnused(old(entries), entries, draws);
      var token := DrawToken(draws);
      var value := Frozen(owner, context, items, token, wall + bounds.ttl * SECOND, later + bounds.ttl * SECOND, added);
      PutKeepsBounds(old(entries), value, now, bounds);
      AppendCounts(entries, value, owner);
      entries := entries + [value];
      size := size + added;
      return Kept(value);
    }

    method DrawToken(draws: seq<nat>) returns (token: nat)
      requires exists i | 0 <= i < |draws| :: !InUse(entries, draws[i])
      ensures FirstUnused(entries, draws, token)
    {
      var i := 0;
      token := draws[0];
      while InUse(entries, token)
        invariant i < |draws| && token == draws[i]
        invariant forall j | 0 <= j < i :: InUse(entries, draws[j])
        decreases |draws| - i
      {
        i := i + 1;
        token := draws[i];
      }
    }

    method Measure(items: seq<seq<bv8>>) returns (added: nat)
      ensures added == SizeOf(items)
    {
      added := 1024;
      for i := 0 to |items|
        invariant added == SizeOf(items[..i])
      {
        assert items[..i + 1][..i] == items[..i];
        added := added + |items[i]| + 64;
      }
      assert items[..|items|] == items;
    }

    method DropOwned(owner: nat)
      requires Valid()
      modifies this`entries, this`size
      ensures entries == WithoutOldest(old(entries), owner, Excess(OwnedBy(old(entries), owner), bounds))
      ensures size == Bytes(entries) && DistinctTokens(entries)
    {
      var owned := Tokens(entries, owner);
      TokensCount(entries, owner);
      ghost var start := entries;
      while |owned| >= bounds.perOwner
        invariant owned == Tokens(entries, owner) && size == Bytes(entries) && DistinctTokens(entries)
        invariant WithoutOldest(entries, owner, Excess(|owned|, bounds)) == WithoutOldest(start, owner, Excess(OwnedBy(start, owner), bounds))
      {
        ghost var k := FirstTokenIsOldest(entries, owner);
        OneByOne(entries, owner, Excess(|owned|, bounds) - 1);
        Drop(owned[0], k);
        owned := owned[1..];
      }
    }

    method DropOldest(added: nat)
      requires Positive(bounds) && size == Bytes(entries) && DistinctTokens(entries) && added <= bounds.bytes
      modifies this`entries, this`size
      ensures entries == Newest(old(entries), added, bounds)
      ensures size == Bytes(entries) && DistinctTokens(entries)
    {
      while |entries| >= bounds.entries || size + added > bounds.bytes
        invariant size == Bytes(entries) && DistinctTokens(entries)
        invariant Newest(entries, added, bounds) == Newest(old(entries), added, bounds)
        decreases |entries|
      {
        RemoveAt(entries, 0);
        Drop(entries[0].token, 0);
      }
    }
  }
}
