/** Bounded one-second observation slots, and what a stored window holds over any run of observations. */
module ObservationWindow {
  import opened Basics

  const HALF: int := SECOND / 2

  /** One observation of a list, by its position. */
  datatype Item = Item(index: nat, at: int)

  datatype Entry = Entry(slot: int, item: Item)

  predicate Young(at: int, now: int, size: nat) { 0 <= now - at < size * SECOND }

  function SlotOf(at: int, anchor: int): int { (at - anchor + HALF) / SECOND }

  /** A dictionary write: an existing key keeps its place and takes the new value. */
  function Put(entries: seq<Entry>, slot: int, item: Item): seq<Entry> {
    if entries == [] then [Entry(slot, item)]
    else if entries[0].slot == slot then [Entry(slot, item)] + entries[1..]
    else [entries[0]] + Put(entries[1..], slot, item)
  }

  /** The young observations, in order. */
  function Current(times: seq<int>, now: int, size: nat): seq<Item> {
    if times == [] then []
    else
      var n := |times| - 1;
      Current(times[..n], now, size) + if Young(times[n], now, size) then [Item(n, times[n])] else []
  }

  function Filled(current: seq<Item>, anchor: int): seq<Entry> {
    if current == [] then []
    else
      var n := |current| - 1;
      Put(Filled(current[..n], anchor), SlotOf(current[n].at, anchor), current[n])
  }

  function Items(entries: seq<Entry>): seq<Item> {
    seq(|entries|, i requires 0 <= i < |entries| => entries[i].item)
  }

  function LastOnes<T>(s: seq<T>, size: nat): seq<T> {
    if |s| <= size then s else s[|s| - size..]
  }

  /** The anchor in use: the given one while it is young, otherwise the oldest young observation. */
  function Renewed(current: seq<Item>, now: int, size: nat, anchor: Option<int>): int {
    if current == [] then now
    else if anchor.Some? && Young(anchor.value, now, size) then anchor.value
    else current[0].at
  }

  function Selected(times: seq<int>, now: int, size: nat, anchor: Option<int>): seq<Item> {
    var current := Current(times, now, size);
    LastOnes(Items(Filled(current, Renewed(current, now, size, anchor))), size)
  }

  lemma FilledNone(current: seq<Item>, anchor: int)
    ensures Filled(current[..0], anchor) == []
  {
  }

  lemma FilledNext(current: seq<Item>, i: nat, anchor: int)
    requires i < |current|
    ensures Filled(current[..i + 1], anchor) == Put(Filled(current[..i], anchor), SlotOf(current[i].at, anchor), current[i])
  {
    hide Put, SlotOf;
    assert current[..i + 1][..i] == current[..i];
  }

  method ObservationSlots(times: seq<int>, now: int, size: nat, anchor: Option<int>)
    returns (selected: seq<Item>, renewed: int)
    ensures selected == Selected(times, now, size, anchor)
    ensures renewed == Renewed(Current(times, now, size), now, size, anchor)
  {
    hide Filled, Put, SlotOf;
    var current: seq<Item> := [];
    for i := 0 to |times|
      invariant current == Current(times[..i], now, size)
    {
      assert times[..i + 1][..i] == times[..i];
      if 0 <= now - times[i] < size * SECOND {
        current := current + [Item(i, times[i])];
      }
    }
    assert times[..|times|] == times;
    if current == [] {
      assert current[..0] == current;
      FilledNone(current, now);
      return [], now;
    }
    renewed := current[0].at;
    if anchor.Some? && Young(anchor.value, now, size) {
      renewed := anchor.value;
    }
    var slots: seq<Entry> := [];
    assert Filled(current[..0], renewed) == [] by { FilledNone(current, renewed); }
    for i := 0 to |current|
      invariant slots == Filled(current[..i], renewed)
    {
      FilledNext(current, i, renewed);
      slots := Put(slots, SlotOf(current[i].at, renewed), current[i]);
    }
    assert current[..|current|] == current;
    selected := LastOnes(Items(slots), size);
  }

  // ---- Every chosen item is an observation of the list ----

  predicate Points(items: seq<Item>, times: seq<int>) {
    forall i | 0 <= i < |items| :: items[i].index < |times| && times[items[i].index] == items[i].at
  }

  predicate Among(entries: seq<Entry>, current: seq<Item>) {
    forall i | 0 <= i < |entries| :: entries[i].item in current
  }

  lemma {:induction false} PutAmong(entries: seq<Entry>, slot: int, item: Item, current: seq<Item>)
    requires Among(entries, current) && item in current
    ensures Among(Put(entries, slot, item), current)
    ensures |Put(entries, slot, item)| <= |entries| + 1
  {
    if entries != [] && entries[0].slot != slot {
      PutAmong(entries[1..], slot, item, current);
    }
  }

  lemma {:induction false} FilledAmong(current: seq<Item>, n: nat, anchor: int)
    requires n <= |current|
    ensures Among(Filled(current[..n], anchor), current)
    ensures |Filled(current[..n], anchor)| <= n
  {
    hide SlotOf, Put;
    if n > 0 {
      FilledAmong(current, n - 1, anchor);
      assert current[..n][..n - 1] == current[..n - 1];
      PutAmong(Filled(current[..n - 1], anchor), SlotOf(current[n - 1].at, anchor), current[n - 1], current);
    }
  }

  lemma PointsAppend(items: seq<Item>, times: seq<int>, more: seq<Item>)
    requires times != [] && Points(items, times[..|times| - 1])
    requires more == [] || more == [Item(|times| - 1, times[|times| - 1])]
    ensures Points(items + more, times)
  {
  }

  lemma {:induction false} CurrentPoints(times: seq<int>, now: int, size: nat)
    ensures Points(Current(times, now, size), times)
    ensures |Current(times, now, size)| <= |times|
  {
    hide Young, Points;
    if times == [] {
      assert Points([], []) by { PointsNone(); }
    } else {
      var n := |times| - 1;
      CurrentPoints(times[..n], now, size);
      PointsAppend(Current(times[..n], now, size), times, if Young(times[n], now, size) then [Item(n, times[n])] else []);
    }
  }

  lemma PointsNone()
    ensures Points([], [])
  {
  }

  lemma SelectedPoints(times: seq<int>, now: int, size: nat, anchor: Option<int>)
    ensures Points(Selected(times, now, size, anchor), times)
    ensures |Selected(times, now, size, anchor)| <= |times| && |Selected(times, now, size, anchor)| <= size
  {
    hide Current, Filled;
    var current := Current(times, now, size);
    CurrentPoints(times, now, size);
    assert current[..|current|] == current;
    FilledAmong(current, |current|, Renewed(current, now, size, anchor));
    var entries := Filled(current, Renewed(current, now, size, anchor));
    LastPoints(entries, current, times, size);
  }

  lemma LastPoints(entries: seq<Entry>, current: seq<Item>, times: seq<int>, size: nat)
    requires Among(entries, current) && Points(current, times)
    ensures Points(LastOnes(Items(entries), size), times)
  {
    forall i | 0 <= i < |entries|
      ensures entries[i].item.index < |times| && times[entries[i].item.index] == entries[i].item.at
    {
      assert entries[i].item in current;
    }
  }

  // ---- Slots of increasing times ----

  predicate Increasing(times: seq<int>) { forall i, j | 0 <= i < j < |times| :: times[i] < times[j] }

  predicate Rising(items: seq<Item>) { forall i, j | 0 <= i < j < |items| :: items[i].at < items[j].at }

  predicate Ascending(entries: seq<Entry>) { forall i, j | 0 <= i < j < |entries| :: entries[i].slot < entries[j].slot }

  predicate Labelled(entries: seq<Entry>, anchor: int) {
    forall i | 0 <= i < |entries| :: entries[i].slot == SlotOf(entries[i].item.at, anchor)
  }

  /** With ascending keys, a write at or after the last key replaces the last entry or is appended. */
  lemma {:induction false} PutLast(entries: seq<Entry>, slot: int, item: Item)
    requires Ascending(entries)
    requires entries != [] ==> entries[|entries| - 1].slot <= slot
    ensures Put(entries, slot, item)
         == (if entries != [] && entries[|entries| - 1].slot == slot then entries[..|entries| - 1] else entries) + [Entry(slot, item)]
  {
    if |entries| > 1 {
      PutLast(entries[1..], slot, item);
    }
  }

  lemma SlotMonotone(a: int, b: int, anchor: int)
    requires a <= b
    ensures SlotOf(a, anchor) <= SlotOf(b, anchor)
    ensures b - a >= SECOND ==> SlotOf(a, anchor) < SlotOf(b, anchor)
  {
  }

  /** One entry a slot, in slot order, labelled by its own slot; the newest observation ends the list. */
  lemma {:induction false} FilledIsSlotted(current: seq<Item>, anchor: int)
    requires Rising(current)
    ensures Ascending(Filled(current, anchor)) && Labelled(Filled(current, anchor), anchor)
    ensures Among(Filled(current, anchor), current)
    ensures current != [] ==>
              Filled(current, anchor) != [] && Filled(current, anchor)[|Filled(current, anchor)| - 1].item == current[|current| - 1]
  {
    hide Put, SlotOf;
    if current != [] {
      var n := |current| - 1;
      var before := Filled(current[..n], anchor);
      FilledIsSlotted(current[..n], anchor);
      if n > 0 {
        SlotMonotone(current[n - 1].at, current[n].at, anchor);
      }
      PutLast(before, SlotOf(current[n].at, anchor), current[n]);
    }
  }

  /** An entry for the slot of an observation, not older than it. */
  predicate Holds(entries: seq<Entry>, slot: int, at: int) {
    exists i | 0 <= i < |entries| :: entries[i].slot == slot && entries[i].item.at >= at
  }

  lemma HoldsOn(before: seq<Entry>, entry: Entry, slot: int, at: int)
    requires before != [] ==> before[|before| - 1].slot == entry.slot ==> before[|before| - 1].item.at <= entry.item.at
    requires Holds(before, slot, at)
    ensures Holds((if before != [] && before[|before| - 1].slot == entry.slot then before[..|before| - 1] else before) + [entry], slot, at)
  {
    var i :| 0 <= i < |before| && before[i].slot == slot && before[i].item.at >= at;
    var after := (if before[|before| - 1].slot == entry.slot then before[..|before| - 1] else before) + [entry];
    assert after[i].slot == slot && after[i].item.at >= at;
  }

  /** Of the observations of one slot the newest is kept: every slot is filled, with nothing older than any of them. */
  lemma {:induction false} FilledIsNewest(current: seq<Item>, anchor: int, k: nat)
    requires Rising(current) && k < |current|
    ensures Holds(Filled(current, anchor), SlotOf(current[k].at, anchor), current[k].at)
  {
    hide Put, SlotOf, Holds;
    var n := |current| - 1;
    var before := Filled(current[..n], anchor);
    FilledIsSlotted(current[..n], anchor);
    if n > 0 {
      SlotMonotone(current[n - 1].at, current[n].at, anchor);
    }
    PutLast(before, SlotOf(current[n].at, anchor), current[n]);
    if k < n {
      FilledIsNewest(current[..n], anchor, k);
      HoldsOn(before, Entry(SlotOf(current[n].at, anchor), current[n]), SlotOf(current[k].at, anchor), current[k].at);
    } else {
      LastHolds(Filled(current, anchor), SlotOf(current[n].at, anchor), current[n]);
    }
  }

  lemma LastHolds(entries: seq<Entry>, slot: int, item: Item)
    requires entries != [] && entries[|entries| - 1] == Entry(slot, item)
    ensures Holds(entries, slot, item.at)
  {
  }

  predicate Separate(current: seq<Item>, anchor: int) {
    forall i, j | 0 <= i < j < |current| :: SlotOf(current[i].at, anchor) < SlotOf(current[j].at, anchor)
  }

  /** When the times fall in different slots nothing is replaced. */
  lemma {:induction false} FilledKeepsAll(current: seq<Item>, anchor: int)
    requires Separate(current, anchor)
    ensures Filled(current, anchor)
         == seq(|current|, i requires 0 <= i < |current| => Entry(SlotOf(current[i].at, anchor), current[i]))
  {
    hide Put, SlotOf;
    if current != [] {
      var n := |current| - 1;
      FilledKeepsAll(current[..n], anchor);
      var before := Filled(current[..n], anchor);
      assert Ascending(before);
      PutLast(before, SlotOf(current[n].at, anchor), current[n]);
    }
  }

  predicate YoungItems(items: seq<Item>, now: int, size: nat) { forall i | 0 <= i < |items| :: Young(items[i].at, now, size) }

  lemma {:induction false} CurrentRises(times: seq<int>, now: int, size: nat)
    requires Increasing(times)
    ensures Rising(Current(times, now, size)) && YoungItems(Current(times, now, size), now, size)
  {
    hide Young, Rising, YoungItems, Points;
    if times == [] {
      NothingRises(now, size);
    } else {
      var n := |times| - 1;
      CurrentPoints(times[..n], now, size);
      CurrentRises(times[..n], now, size);
      RisesAppend(Current(times[..n], now, size), times, now, size);
    }
  }

  lemma NothingRises(now: int, size: nat)
    ensures Rising([]) && YoungItems([], now, size)
  {
  }

  lemma RisesAppend(items: seq<Item>, times: seq<int>, now: int, size: nat)
    requires times != [] && Increasing(times) && Points(items, times[..|times| - 1])
    requires Rising(items) && YoungItems(items, now, size)
    ensures var next := Item(|times| - 1, times[|times| - 1]);
            Rising(items + [next]) && (Young(next.at, now, size) ==> YoungItems(items + [next], now, size))
    ensures items + [] == items
  {
    hide Young;
    var n := |times| - 1;
    assert forall i | 0 <= i < |items| :: items[i].at == times[items[i].index] < times[n];
  }

  lemma CurrentHasNow(times: seq<int>, now: int, size: nat)
    requires size > 0 && times != [] && times[|times| - 1] == now
    ensures Current(times, now, size) != []
    ensures Current(times, now, size)[|Current(times, now, size)| - 1] == Item(|times| - 1, now)
  {
  }

  // ---- The window a receiver keeps ----

  const BREAK: int := SECOND + HALF

  /** Stored observation times, oldest first, and the anchor of their slots. */
  datatype Window = Window(times: seq<int>, anchor: Option<int>)

  const Empty: Window := Window([], None)

  function Times(items: seq<Item>): seq<int> {
    seq(|items|, i requires 0 <= i < |items| => items[i].at)
  }

  /** A newer observation: a pause over a second and a half empties the window first. */
  function Kept(w: Window, at: int): Window {
    if w.times != [] && at - w.times[|w.times| - 1] > BREAK then Empty else w
  }

  function Observed(w: Window, at: int, size: nat): Window {
    var kept := Kept(w, at);
    var times := kept.times + [at];
    Window(Times(Selected(times, at, size, kept.anchor)), Some(Renewed(Current(times, at, size), at, size, kept.anchor)))
  }

  /** The window after a run of observations. */
  function After(history: seq<int>, size: nat): Window {
    if history == [] then Empty else Observed(After(history[..|history| - 1], size), history[|history| - 1], size)
  }

  /** Times in different slots of the anchor, oldest first. */
  predicate Spread(times: seq<int>, anchor: int) {
    forall i, j | 0 <= i < j < |times| :: SlotOf(times[i], anchor) < SlotOf(times[j], anchor)
  }

  predicate AllYoung(times: seq<int>, now: int, size: nat) { forall i | 0 <= i < |times| :: Young(times[i], now, size) }

  predicate Drawn(times: seq<int>, from: seq<int>) { forall i | 0 <= i < |times| :: times[i] in from }

  /** What a nonempty window holds when `now` is its newest observation. */
  predicate Sound(w: Window, now: int, size: nat) {
    && w.anchor.Some? && Young(w.anchor.value, now, size)
    && 0 < |w.times| <= size
    && w.times[|w.times| - 1] == now
    && Spread(w.times, w.anchor.value)
    && AllYoung(w.times, now, size)
  }

  /** One entry a slot: what the chosen observations are, whichever anchor is in use. */
  lemma ChosenAreSound(times: seq<int>, now: int, size: nat, anchor: Option<int>)
    requires size > 0 && times != [] && times[|times| - 1] == now && Increasing(times)
    ensures var chosen := Times(Selected(times, now, size, anchor));
            var renewed := Renewed(Current(times, now, size), now, size, anchor);
            Sound(Window(chosen, Some(renewed)), now, size) && Drawn(chosen, times)
  {
    hide SlotOf, Filled, Current;
    var current := Current(times, now, size);
    var renewed := Renewed(current, now, size, anchor);
    CurrentRises(times, now, size);
    CurrentPoints(times, now, size);
    CurrentHasNow(times, now, size);
    FilledIsSlotted(current, renewed);
    var filled := Filled(current, renewed);
    LastAreSound(filled, current, times, now, size, renewed);
  }

  lemma LastAreSound(filled: seq<Entry>, current: seq<Item>, times: seq<int>, now: int, size: nat, anchor: int)
    requires size > 0 && filled != [] && filled[|filled| - 1].item.at == now
    requires Ascending(filled) && Labelled(filled, anchor) && Among(filled, current)
    requires Points(current, times) && YoungItems(current, now, size) && Young(anchor, now, size)
    ensures var chosen := Times(LastOnes(Items(filled), size));
            Sound(Window(chosen, Some(anchor)), now, size) && Drawn(chosen, times)
  {
    hide SlotOf;
    var chosen := Times(LastOnes(Items(filled), size));
    var first := |filled| - |chosen|;
    assert forall i | 0 <= i < |chosen| :: chosen[i] == filled[first + i].item.at;
    forall i | 0 <= i < |chosen|
      ensures Young(chosen[i], now, size) && chosen[i] in times
    {
      var item := filled[first + i].item;
      assert item in current;
      var k :| 0 <= k < |current| && current[k] == item;
    }
    forall i, j | 0 <= i < j < |chosen|
      ensures SlotOf(chosen[i], anchor) < SlotOf(chosen[j], anchor)
    {
      assert filled[first + i].slot < filled[first + j].slot;
    }
  }

  /** Where the unbroken stretch that ends the run begins: after its last pause over a second and a half. */
  function StretchStart(history: seq<int>): (start: nat)
    ensures history != [] ==> start < |history|
  {
    if |history| <= 1 then 0
    else
      var n := |history| - 1;
      if history[n] - history[n - 1] > BREAK then n else StretchStart(history[..n])
  }

  lemma {:induction false} StretchIsUnbroken(history: seq<int>)
    ensures forall i | StretchStart(history) < i < |history| :: history[i] - history[i - 1] <= BREAK
    ensures StretchStart(history) > 0 ==> history[StretchStart(history)] - history[StretchStart(history) - 1] > BREAK
  {
    if |history| > 1 {
      StretchIsUnbroken(history[..|history| - 1]);
    }
  }

  predicate SinceStretch(times: seq<int>, history: seq<int>) {
    history != [] && forall i | 0 <= i < |times| :: times[i] >= history[StretchStart(history)]
  }

  lemma SpreadIncreases(times: seq<int>, anchor: int)
    requires Spread(times, anchor)
    ensures Increasing(times)
  {
    forall i, j | 0 <= i < j < |times|
      ensures times[i] < times[j]
    {
      assert SlotOf(times[i], anchor) < SlotOf(times[j], anchor);
    }
  }

  /**
   * After any run of newer and newer observations the window is at most `size` samples in
   * different slots, all younger than `size` seconds, the newest observation last, all taken
   * from the run and none of them before its last pause of over a second and a half.
   */
  lemma {:induction false} WindowIsSound(history: seq<int>, size: nat)
    requires size > 0 && history != [] && Increasing(history)
    ensures Sound(After(history, size), history[|history| - 1], size)
    ensures Drawn(After(history, size).times, history)
    ensures SinceStretch(After(history, size).times, history)
  {
    hide Observed, StretchStart, Sound, SinceStretch, Drawn;
    var n := |history| - 1;
    if n > 0 {
      WindowIsSound(history[..n], size);
    }
    ObservedIsSound(After(history[..n], size), history, size);
  }

  /** The samples kept from before an observation all belong to its stretch. */
  lemma KeptIsSince(before: Window, history: seq<int>)
    requires |history| > 1 && Increasing(history)
    requires before.times != [] && before.times[|before.times| - 1] == history[|history| - 2]
    requires Drawn(before.times, history[..|history| - 1])
    requires SinceStretch(before.times, history[..|history| - 1])
    ensures Drawn(Kept(before, history[|history| - 1]).times, history)
    ensures SinceStretch(Kept(before, history[|history| - 1]).times, history)
  {
    var n := |history| - 1;
    assert history[..n][n - 1] == history[n - 1];
    forall i | 0 <= i < |before.times|
      ensures before.times[i] in history
    {
      assert before.times[i] in history[..n];
    }
  }

  lemma ObservedIsSound(before: Window, history: seq<int>, size: nat)
    requires size > 0 && history != [] && Increasing(history)
    requires |history| == 1 ==> before == Empty
    requires |history| > 1 ==>
               Sound(before, history[|history| - 2], size)
               && Drawn(before.times, history[..|history| - 1])
               && SinceStretch(before.times, history[..|history| - 1])
    ensures Sound(Observed(before, history[|history| - 1], size), history[|history| - 1], size)
    ensures Drawn(Observed(before, history[|history| - 1], size).times, history)
    ensures SinceStretch(Observed(before, history[|history| - 1], size).times, history)
  {
    hide Selected, Renewed, Current, SlotOf, StretchStart;
    var n := |history| - 1;
    var at := history[n];
    var kept := Kept(before, at);
    var times := kept.times + [at];
    if n > 0 {
      SpreadIncreases(before.times, before.anchor.value);
      KeptIsSince(before, history);
    }
    assert Increasing(times);
    assert history[StretchStart(history)] <= at;
    ChosenAreSound(times, at, size, kept.anchor);
    var chosen := Observed(before, at, size).times;
    forall i | 0 <= i < |chosen|
      ensures chosen[i] in history && chosen[i] >= history[StretchStart(history)]
    {
      assert chosen[i] in times;
      var k :| 0 <= k < |times| && times[k] == chosen[i];
      assert k < |kept.times| ==> kept.times[k] in history;
    }
  }

  /** Samples i and j of a window are more than j - i - 1 seconds apart. */
  lemma {:induction false} SamplesAreApart(w: Window, now: int, size: nat, i: nat, j: nat)
    requires Sound(w, now, size) && i < j < |w.times|
    ensures SlotOf(w.times[j], w.anchor.value) - SlotOf(w.times[i], w.anchor.value) >= j - i
    ensures w.times[j] - w.times[i] > (j - i - 1) * SECOND
  {
    if j > i + 1 {
      SamplesAreApart(w, now, size, i, j - 1);
    }
  }

  /** No burst fills the window: `size` samples always span more than size - 2 seconds. */
  lemma BurstCannotFill(history: seq<int>, size: nat)
    requires size > 1 && history != [] && Increasing(history)
    requires |After(history, size).times| == size
    ensures history[|history| - 1] - After(history, size).times[0] > (size - 2) * SECOND
  {
    WindowIsSound(history, size);
    SamplesAreApart(After(history, size), history[|history| - 1], size, 0, size - 1);
  }

  // ---- When the window fills and stays full ----

  /** Observations up to `size` apart are separated as if one came every second, to within half a second. */
  predicate Jittered(history: seq<int>, size: nat) {
    forall i, j | 0 <= i < j < |history| && j - i <= size ::
      (j - i) * SECOND - HALF < history[j] - history[i] < (j - i) * SECOND + HALF
  }

  /** Gaps between one and one and a half seconds, and any `size` consecutive observations inside `size` seconds. */
  predicate Drifting(history: seq<int>, size: nat) {
    && (forall i | 0 <= i < |history| - 1 :: SECOND <= history[i + 1] - history[i] <= BREAK)
    && forall i, j | 0 <= i < j < |history| && j - i < size :: history[j] - history[i] < size * SECOND
  }

  predicate Paced(history: seq<int>, size: nat) {
    size >= 2 && Increasing(history) && (Jittered(history, size) || Drifting(history, size))
  }

  lemma GapsAdd(history: seq<int>, i: nat, j: nat)
    requires i < j < |history|
    requires forall i | 0 <= i < |history| - 1 :: SECOND <= history[i + 1] - history[i]
    ensures history[j] - history[i] >= (j - i) * SECOND
  {
    if i + 1 < j {
      GapsAdd(history, i, j - 1);
    }
  }

  /** In a jittered run an observation more than `size` back is at least `size` seconds old. */
  lemma FarIsOld(history: seq<int>, size: nat, k: nat)
    requires size >= 2 && Increasing(history) && Jittered(history, size)
    requires k + size + 1 < |history|
    ensures history[|history| - 1] - history[k] >= size * SECOND
  {
    var n := |history| - 1;
    assert history[n] - history[n - 1] > SECOND - HALF;
    assert history[n - 1] - history[n - 1 - size] > size * SECOND - HALF;
    assert k < n - 1 - size ==> history[k] < history[n - 1 - size];
  }

  lemma SlotIsDistance(history: seq<int>, size: nat, i: nat, k: nat)
    requires Jittered(history, size)
    requires i < |history| && k < |history| && i - k <= size && k - i <= size
    ensures SlotOf(history[i], history[k]) == i - k
  {
    if i < k {
      assert (k - i) * SECOND - HALF < history[k] - history[i];
    } else if k < i {
      assert (i - k) * SECOND - HALF < history[i] - history[k];
    }
    var offset := history[i] - history[k] + HALF;
    assert (i - k) * SECOND <= offset < (i - k + 1) * SECOND;
    QuotientIs(offset, i - k);
  }

  lemma QuotientIs(offset: int, q: int)
    requires q * SECOND <= offset < (q + 1) * SECOND
    ensures offset / SECOND == q
  {
  }

  /** With a steady pace the recent observations all lie in different slots of any anchor in use. */
  lemma PacedAreSeparate(history: seq<int>, size: nat, from: nat, anchor: int)
    requires Paced(history, size) && from < |history| && |history| - 1 - from <= size
    requires anchor in history && Young(anchor, history[|history| - 1], size)
    ensures forall i, j | from <= i < j < |history| :: SlotOf(history[i], anchor) < SlotOf(history[j], anchor)
  {
    hide SlotOf, Jittered, Drifting;
    var k :| 0 <= k < |history| && history[k] == anchor;
    if Jittered(history, size) {
      if k + size + 1 < |history| {
        FarIsOld(history, size, k);
      }
      forall i, j | from <= i < j < |history|
        ensures SlotOf(history[i], anchor) < SlotOf(history[j], anchor)
      {
        SlotIsDistance(history, size, i, k);
        SlotIsDistance(history, size, j, k);
      }
    } else {
      DriftingAreApart(history, size);
      forall i, j | from <= i < j < |history|
        ensures SlotOf(history[i], anchor) < SlotOf(history[j], anchor)
      {
        SlotMonotone(history[i], history[j], anchor);
      }
    }
  }

  lemma DriftingAreApart(history: seq<int>, size: nat)
    requires Drifting(history, size)
    ensures forall i, j | 0 <= i < j < |history| :: history[j] - history[i] >= SECOND
  {
    forall i, j | 0 <= i < j < |history|
      ensures history[j] - history[i] >= SECOND
    {
      GapsAdd(history, i, j);
      assert (j - i) * SECOND >= SECOND;
    }
  }

  lemma PacedAreYoung(history: seq<int>, size: nat, i: nat)
    requires Paced(history, size) && i < |history| && |history| - 1 - i < size
    ensures Young(history[i], history[|history| - 1], size)
  {
    var n := |history| - 1;
    if i < n {
      assert Jittered(history, size) ==> history[n] - history[i] < (n - i) * SECOND + HALF;
      assert history[i] < history[n];
      assert (n - i) * SECOND <= (size - 1) * SECOND;
    }
  }

  lemma PacedHasNoBreak(history: seq<int>, size: nat)
    requires Paced(history, size) && |history| > 1
    ensures history[|history| - 1] - history[|history| - 2] <= BREAK
  {
  }

  /** The list an observation is selected from: the whole window before it, and itself. */
  function Recent(history: seq<int>, size: nat): seq<int>
    requires history != []
  {
    LastOnes(history[..|history| - 1], size) + [history[|history| - 1]]
  }

  /** The items are the history from a position on. */
  predicate Tail(items: seq<Item>, history: seq<int>, from: nat) {
    && from <= |history| && |items| == |history| - from
    && forall i | 0 <= i < |items| :: items[i].at == history[from + i]
  }

  lemma TailOfTail(items: seq<Item>, times: seq<int>, history: seq<int>, from: nat)
    requires |times| <= |history| && |history| - |times| <= from <= |history|
    requires forall i | 0 <= i < |times| :: times[i] == history[|history| - |times| + i]
    requires Tail(items, times, from - (|history| - |times|))
    ensures Tail(items, history, from)
  {
    var m := from - (|history| - |times|);
    forall i | 0 <= i < |items|
      ensures items[i].at == history[from + i]
    {
      assert items[i].at == times[m + i];
    }
  }

  /** The first young position among the recent ones: everything after it is young too. */
  lemma PacedFirst(history: seq<int>, size: nat) returns (from: nat)
    requires Paced(history, size) && history != []
    ensures from < |history| && |history| - 1 - from <= size
    ensures from <= MaxInt(0, |history| - size)
    ensures |Recent(history, size)| <= |history| && |history| - |Recent(history, size)| <= from
    ensures forall i | |history| - |Recent(history, size)| <= i < |history| ::
              Young(history[i], history[|history| - 1], size) <==> from <= i
  {
    assert size >= 2;
    RecentLength(history, size);
    hide Paced, Young, Recent, LastOnes;
    var n := |history| - 1;
    var first := |history| - |Recent(history, size)|;
    from := first;
    PacedAreYoung(history, size, n);
    forall i | first <= i <= n && n - i < size ensures Young(history[i], history[n], size) {
      PacedAreYoung(history, size, i);
    }
    if !Young(history[first], history[n], size) {
      from := first + 1;
    }
  }

  lemma RecentLength(history: seq<int>, size: nat)
    requires history != []
    ensures |Recent(history, size)| == MinInt(|history|, size + 1)
  {
  }

  lemma RecentIsTail(history: seq<int>, size: nat)
    requires history != []
    ensures forall i | 0 <= i < |Recent(history, size)| ::
              Recent(history, size)[i] == history[|history| - |Recent(history, size)| + i]
  {
  }

  lemma RecentYoung(history: seq<int>, size: nat, times: seq<int>, from: nat)
    requires history != [] && |times| <= |history| && |history| - |times| <= from <= |history|
    requires forall i | 0 <= i < |times| :: times[i] == history[|history| - |times| + i]
    requires forall i | |history| - |times| <= i < |history| :: Young(history[i], history[|history| - 1], size) <==> from <= i
    ensures forall i | 0 <= i < |times| ::
              Young(times[i], history[|history| - 1], size) <==> from - (|history| - |times|) <= i
  {
    hide Young;
    forall i | 0 <= i < |times|
      ensures Young(times[i], history[|history| - 1], size) <==> from - (|history| - |times|) <= i
    {
      var k := |history| - |times| + i;
      assert times[i] == history[k];
    }
  }

  lemma PacedCurrent(history: seq<int>, size: nat) returns (from: nat)
    requires Paced(history, size) && history != []
    ensures from < |history| && |history| - 1 - from <= size
    ensures from <= MaxInt(0, |history| - size)
    ensures Young(history[from], history[|history| - 1], size)
    ensures Tail(Current(Recent(history, size), history[|history| - 1], size), history, from)
  {
    hide Paced, Current, Young, Recent, Tail;
    from := PacedFirst(history, size);
    RecentIsTail(history, size);
    YoungTail(history, size, Recent(history, size), from);
  }

  lemma YoungTail(history: seq<int>, size: nat, times: seq<int>, from: nat)
    requires history != [] && |times| <= |history| && |history| - |times| <= from <= |history|
    requires forall i | 0 <= i < |times| :: times[i] == history[|history| - |times| + i]
    requires forall i | |history| - |times| <= i < |history| :: Young(history[i], history[|history| - 1], size) <==> from <= i
    ensures Tail(Current(times, history[|history| - 1], size), history, from)
    ensures from < |history| ==> Young(history[from], history[|history| - 1], size)
  {
    hide Current, Young, Tail;
    var now := history[|history| - 1];
    RecentYoung(history, size, times, from);
    CurrentIsSuffix(times, now, size, from - (|history| - |times|));
    TailOfTail(Current(times, now, size), times, history, from);
  }

  lemma TailAppends(items: seq<Item>, times: seq<int>, m: nat)
    requires times != [] && m < |times| && Tail(items, times[..|times| - 1], m)
    ensures Tail(items + [Item(|times| - 1, times[|times| - 1])], times, m)
  {
  }

  /** When the young times are exactly a suffix, the young observations are that suffix. */
  lemma {:induction false} CurrentIsSuffix(times: seq<int>, now: int, size: nat, m: nat)
    requires m <= |times|
    requires forall i | 0 <= i < |times| :: Young(times[i], now, size) <==> m <= i
    ensures Tail(Current(times, now, size), times, m)
  {
    hide Young;
    if times != [] {
      var n := |times| - 1;
      CurrentIsSuffix(times[..n], now, size, MinInt(m, n));
      if m <= n {
        hide Tail;
        TailAppends(Current(times[..n], now, size), times, m);
      }
    }
  }

  lemma TailIsSeparate(current: seq<Item>, history: seq<int>, from: nat, anchor: int)
    requires Tail(current, history, from)
    requires forall i, j | from <= i < j < |history| :: SlotOf(history[i], anchor) < SlotOf(history[j], anchor)
    ensures Separate(current, anchor)
  {
    hide SlotOf;
    forall i, j | 0 <= i < j < |current|
      ensures SlotOf(current[i].at, anchor) < SlotOf(current[j].at, anchor)
    {
      assert current[i].at == history[from + i] && current[j].at == history[from + j];
    }
  }

  lemma TailLast(current: seq<Item>, history: seq<int>, from: nat, size: nat)
    requires Tail(current, history, from) && from <= MaxInt(0, |history| - size)
    ensures Times(LastOnes(current, size)) == LastOnes(history, size)
  {
  }

  lemma KeptOfLast(before: Window, history: seq<int>, size: nat)
    requires size > 0 && history != []
    requires before.times == LastOnes(history[..|history| - 1], size)
    requires |history| > 1 ==> history[|history| - 1] - history[|history| - 2] <= BREAK
    ensures Kept(before, history[|history| - 1]) == before
  {
  }

  lemma KeepsAllItems(current: seq<Item>, anchor: int)
    requires Separate(current, anchor)
    ensures Items(Filled(current, anchor)) == current
  {
    FilledKeepsAll(current, anchor);
  }

  lemma PacedStep(history: seq<int>, size: nat, before: Window)
    requires Paced(history, size) && history != []
    requires before.times == LastOnes(history[..|history| - 1], size)
    requires before.anchor.Some? ==> before.anchor.value in history
    ensures Observed(before, history[|history| - 1], size).times == LastOnes(history, size)
    ensures Observed(before, history[|history| - 1], size).anchor.Some?
    ensures Observed(before, history[|history| - 1], size).anchor.value in history
  {
    assert size >= 2;
    hide Paced, Current, Filled, SlotOf, Young, Separate, Items, Times, LastOnes;
    var n := |history| - 1;
    var at := history[n];
    if n > 0 {
      PacedHasNoBreak(history, size);
    }
    KeptOfLast(before, history, size);
    var times := Recent(history, size);
    var from := PacedCurrent(history, size);
    var current := Current(times, at, size);
    var anchor := Renewed(current, at, size, before.anchor);
    assert current[0].at == history[from];
    PacedAreSeparate(history, size, from, anchor);
    TailIsSeparate(current, history, from, anchor);
    KeepsAllItems(current, anchor);
    TailLast(current, history, from, size);
  }

  /**
   * With observations a second apart to within half a second, or drifting slowly enough to stay
   * inside the window, the window is exactly the newest `size` observations: it fills with the
   * `size`-th observation and stays full for ever, however often the anchor is renewed.
   */
  lemma {:induction false} WindowFillsAndStaysFull(history: seq<int>, size: nat)
    requires Paced(history, size)
    ensures After(history, size).times == LastOnes(history, size)
    ensures history != [] ==> After(history, size).anchor.Some? && After(history, size).anchor.value in history
  {
    hide Observed;
    if history != [] {
      var n := |history| - 1;
      PacedPrefix(history, size);
      WindowFillsAndStaysFull(history[..n], size);
      PacedStep(history, size, After(history[..n], size));
    }
  }

  lemma PacedPrefix(history: seq<int>, size: nat)
    requires Paced(history, size) && history != []
    ensures Paced(history[..|history| - 1], size)
  {
    var before := history[..|history| - 1];
    assert forall i | 0 <= i < |before| :: before[i] == history[i];
  }

  /** Gaps from one second up to any `gap` shorter than size / (size - 1) seconds are such a pace. */
  lemma DriftAllowsUpTo(history: seq<int>, size: nat, gap: nat)
    requires size >= 2 && (size - 1) * gap < size * SECOND && gap <= BREAK
    requires forall i | 0 <= i < |history| - 1 :: SECOND <= history[i + 1] - history[i] <= gap
    ensures Paced(history, size)
  {
    hide Jittered;
    forall i, j | 0 <= i < j < |history|
      ensures SECOND <= history[j] - history[i] <= (j - i) * gap
    {
      GapsBound(history, gap, i, j);
    }
    forall i, j | 0 <= i < j < |history| && j - i < size
      ensures history[j] - history[i] < size * SECOND
    {
      TimesGap(j - i, size - 1, gap);
    }
  }

  lemma TimesGap(a: int, b: int, gap: nat)
    requires a <= b
    ensures a * gap <= b * gap
  {
  }

  lemma GapsBound(history: seq<int>, gap: nat, i: nat, j: nat)
    requires i < j < |history|
    requires forall i | 0 <= i < |history| - 1 :: SECOND <= history[i + 1] - history[i] <= gap
    ensures SECOND <= history[j] - history[i] <= (j - i) * gap
  {
    if i + 1 < j {
      GapsBound(history, gap, i, j - 1);
      assert (j - i) * gap == (j - 1 - i) * gap + gap;
    }
  }

  // ---- The anchor of the slots ----

  /** The oldest of the times that is not yet `size` seconds old. */
  predicate OldestYoung(times: seq<int>, at: int, now: int, size: nat) {
    exists i | 0 <= i < |times| ::
      times[i] == at && now - at < size * SECOND && forall j | 0 <= j < i :: now - times[j] >= size * SECOND
  }

  predicate OldUpTo(times: seq<int>, k: nat, now: int, size: nat) {
    k < |times| && now - times[k] < size * SECOND && forall j | 0 <= j < k :: now - times[j] >= size * SECOND
  }

  lemma {:induction false} FirstIsOldestYoung(times: seq<int>, now: int, size: nat)
    requires forall i | 0 <= i < |times| :: times[i] <= now
    ensures Current(times, now, size) == [] ==> forall i | 0 <= i < |times| :: now - times[i] >= size * SECOND
    ensures Current(times, now, size) != [] ==> OldUpTo(times, Current(times, now, size)[0].index, now, size)
                                                && times[Current(times, now, size)[0].index] == Current(times, now, size)[0].at
  {
    if times != [] {
      FirstIsOldestYoung(times[..|times| - 1], now, size);
    }
  }

  /** The anchor after an observation that joins these times. */
  lemma RenewedIs(times: seq<int>, now: int, size: nat, anchor: Option<int>)
    requires size > 0 && times != [] && times[|times| - 1] == now && forall i | 0 <= i < |times| :: times[i] <= now
    requires anchor.Some? ==> anchor.value <= now
    ensures var renewed := Renewed(Current(times, now, size), now, size, anchor);
            if anchor.Some? && now - anchor.value < size * SECOND then renewed == anchor.value else OldestYoung(times, renewed, now, size)
  {
    FirstIsOldestYoung(times, now, size);
    CurrentHasNow(times, now, size);
    hide Current;
  }

  /** What an observation makes of the anchor of a window. */
  predicate AnchorFollows(before: Window, now: int, after: Window, size: nat)
    requires before.times != [] && before.anchor.Some?
  {
    && after.anchor.Some?
    && (now - before.times[|before.times| - 1] > BREAK ==> after.anchor.value == now)
    && (now - before.times[|before.times| - 1] <= BREAK ==>
          if now - before.anchor.value < size * SECOND then after.anchor == before.anchor
          else OldestYoung(before.times + [now], after.anchor.value, now, size))
  }

  /**
   * The anchor stays for as long as observations follow within a second and a half and it is younger than `size`
   * seconds; then the oldest observation still that young takes its place, and after a pause the newest.
   */
  lemma AnchorStays(before: Window, was: int, now: int, size: nat)
    requires size > 0 && Sound(before, was, size) && was < now
    ensures AnchorFollows(before, now, Observed(before, now, size), size)
  {
    SpreadIncreases(before.times, before.anchor.value);
    hide Current, Selected, Spread, OldestYoung, Renewed;
    var kept := Kept(before, now);
    RenewedIs(kept.times + [now], now, size, kept.anchor);
    if kept == Empty {
      assert [] + [now] == [now];
      OnlyIsOldest(now, Observed(before, now, size).anchor.value, size);
    }
  }

  lemma OnlyIsOldest(now: int, at: int, size: nat)
    requires OldestYoung([now], at, now, size)
    ensures at == now
  {
  }
}
