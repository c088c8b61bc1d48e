/** The minute table: its writers keep it true, and both stream readers answer with the same window slots. */
module MinuteTables {
  import opened Basics
  import opened MinuteModel
  import opened MinuteReader
  import opened MinuteStreams

  // ---- What every stored row satisfies ----

  ghost predicate TrueRow(at: nat, row: Row) {
    && at % MINUTE == 0
    && row.payload.values != map[] && Placed(at, row.payload)
    && TrueStats(row.payload)
    && TrueSummary(at, row)
  }

  ghost predicate TrueTable(table: Table) {
    forall at | at in table :: TrueRow(at, table[at])
  }

  // ---- Reading ----

  /** All slots of some rows that fall in the window. */
  ghost function WindowSlots(table: Table, keys: set<nat>, start: nat, end: nat): set<Slot> {
    set at, s | at in keys && at in table && s in Windowed(table[at].payload, start, end) :: s
  }

  function FloorMinute(t: nat): nat { t - t % MINUTE }

  /** The rows a window query selects. */
  function Selected(table: Table, start: nat, end: nat): set<nat> {
    set at | at in table && FloorMinute(start) <= at < end
  }

  /** A cursor delivers the selected rows once each, in any order, in pages of at most the page size. */
  predicate Delivers(pages: seq<seq<nat>>, keys: set<nat>) {
    if pages == [] then keys == {}
    else |pages[0]| <= PAGE_SIZE && DeliversPage(pages[0], keys) && Delivers(pages[1..], keys - Elements(pages[0]))
  }

  predicate DeliversPage(page: seq<nat>, keys: set<nat>) {
    Elements(page) <= keys && forall i, j | 0 <= i < j < |page| :: page[i] != page[j]
  }

  function Elements(page: seq<nat>): set<nat> { set i | 0 <= i < |page| :: page[i] }

  lemma RowsAreDistinct(table: Table, keys: set<nat>, start: nat, end: nat)
    requires TrueTable(table)
    ensures TimesDistinct(WindowSlots(table, keys, start, end))
  {
    var all := WindowSlots(table, keys, start, end);
    forall s, t | s in all && t in all && s.time == t.time
      ensures s == t
    {
      var a :| a in keys && a in table && s in Windowed(table[a].payload, start, end);
      var b :| b in keys && b in table && t in Windowed(table[b].payload, start, end);
      assert s.stamp == t.stamp && s.stamp in table[a].payload.values && t.stamp in table[b].payload.values;
      assert TrueRow(a, table[a]) && TrueRow(b, table[b]);
      AlignedMinutes(a, b, s.stamp);
    }
  }

  lemma AlignedMinutes(a: nat, b: nat, stamp: nat)
    requires a % MINUTE == 0 && b % MINUTE == 0
    requires a / SECOND <= stamp < a / SECOND + 60 && b / SECOND <= stamp < b / SECOND + 60
    ensures a == b
  {
  }

  lemma RowIsNew(table: Table, keys: set<nat>, at: nat, start: nat, end: nat)
    requires TrueTable(table) && at in table && at !in keys
    ensures WindowSlots(table, keys, start, end) !! Windowed(table[at].payload, start, end)
    ensures WindowSlots(table, keys + {at}, start, end) == WindowSlots(table, keys, start, end) + Windowed(table[at].payload, start, end)
  {
    forall s | s in WindowSlots(table, keys, start, end) && s in Windowed(table[at].payload, start, end)
      ensures false
    {
      var b :| b in keys && b in table && s in Windowed(table[b].payload, start, end);
      assert s.stamp in table[at].payload.values && s.stamp in table[b].payload.values;
      assert TrueRow(at, table[at]) && TrueRow(b, table[b]);
      AlignedMinutes(at, b, s.stamp);
    }
  }

  /** The selected rows hold every slot of the window. */
  lemma SelectionIsComplete(table: Table, start: nat, end: nat)
    requires TrueTable(table)
    ensures WindowSlots(table, Selected(table, start, end), start, end) == WindowSlots(table, table.Keys, start, end)
  {
    forall s | s in WindowSlots(table, table.Keys, start, end)
      ensures s in WindowSlots(table, Selected(table, start, end), start, end)
    {
      var at :| at in table && s in Windowed(table[at].payload, start, end);
      assert TrueRow(at, table[at]) && s.stamp in table[at].payload.values;
      InsideMinute(at, s.time, start);
    }
  }

  lemma InsideMinute(at: nat, time: nat, start: nat)
    requires at % MINUTE == 0 && at / SECOND <= time / SECOND < at / SECOND + 60 && start <= time
    ensures FloorMinute(start) <= at <= time
  {
    assert time < at + MINUTE;
    AlignedGap(at, FloorMinute(start));
  }

  lemma AlignedGap(a: nat, b: nat)
    requires a % MINUTE == 0 && b % MINUTE == 0
    ensures a < b ==> a + MINUTE <= b
  {
  }

  /** One row of the stream: everything the reader has accumulated plus this row's slots in the window. */
  method ReadOriginal(h: HistoryGroups, table: Table, at: nat, start: nat, end: nat, seconds: nat, ghost read: set<nat>)
    requires 0 < seconds && seconds % 60 == 0
    requires TrueTable(table) && at in table && at !in read
    requires Answers(h.groups, WindowSlots(table, read, start, end), seconds)
    modifies h
    ensures Answers(h.groups, WindowSlots(table, read + {at}, start, end), seconds)
  {
    hide Answers, WindowSlots, TimesDistinct, Windowed;
    assert TrueRow(at, table[at]);
    RowIsNew(table, read, at, start, end);
    RowsAreDistinct(table, read + {at}, start, end);
    AccumulateMinute(h, at, table[at].payload, start, end, seconds, WindowSlots(table, read, start, end));
  }

  /** The original reader: every payload is decoded. */
  method LegacyStreamGroups(table: Table, pages: seq<seq<nat>>, start: nat, end: nat, seconds: nat)
    returns (groups: map<nat, Group>)
    requires 0 < seconds && seconds % 60 == 0
    requires TrueTable(table) && Delivers(pages, Selected(table, start, end))
    ensures Answers(groups, WindowSlots(table, table.Keys, start, end), seconds)
  {
    hide Answers, WindowSlots, TrueTable, Selected;
    var h := new HistoryGroups();
    NothingRead(table, start, end, seconds);
    ghost var read: set<nat> := {};
    ghost var all := Selected(table, start, end);
    assert all - {} == all;
    var left := pages;
    while left != []
      invariant fresh(h)
      invariant read <= all && Delivers(left, all - read)
      invariant Answers(h.groups, WindowSlots(table, read, start, end), seconds)
      decreases |left|
    {
      var page := left[0];
      ghost var before := read;
      for i := 0 to |page|
        invariant read == before + Elements(page[..i])
        invariant Answers(h.groups, WindowSlots(table, read, start, end), seconds)
      {
        PageStep(page, i, all - before);
        SelectedIsStored(table, start, end, page[i]);
        ReadOriginal(h, table, page[i], start, end, seconds, read);
        assert read + {page[i]} == before + Elements(page[..i + 1]);
        read := read + {page[i]};
      }
      assert page[..|page|] == page;
      assert all - before - Elements(page) == all - read;
      left := left[1..];
    }
    assert read == read + (all - read) == all;
    SelectionIsComplete(table, start, end);
    groups := h.groups;
  }

  lemma NothingRead(table: Table, start: nat, end: nat, seconds: nat)
    requires 0 < seconds
    ensures Answers(map[], WindowSlots(table, {}, start, end), seconds)
  {
    assert WindowSlots(table, {}, start, end) == {};
    assert forall b: nat :: InBucket({}, b, seconds) == {};
  }

  lemma PageStep(page: seq<nat>, i: nat, keys: set<nat>)
    requires i < |page| && DeliversPage(page, keys)
    ensures page[i] in keys && page[i] !in Elements(page[..i])
    ensures Elements(page[..i + 1]) == Elements(page[..i]) + {page[i]}
  {
    assert page[i] in Elements(page);
    assert page[..i + 1] == page[..i] + [page[i]];
    forall k | k in Elements(page[..i + 1])
      ensures k in Elements(page[..i]) + {page[i]}
    {
      var j :| 0 <= j < |page[..i + 1]| && page[..i + 1][j] == k;
      assert j < i ==> page[..i][j] == k;
    }
    forall k | k in Elements(page[..i])
      ensures k in Elements(page[..i + 1])
    {
      var j :| 0 <= j < |page[..i]| && page[..i][j] == k;
      assert page[..i + 1][j] == k;
    }
    assert page[..i + 1][i] == page[i];
  }

  lemma SelectedIsStored(table: Table, start: nat, end: nat, at: nat)
    requires at in Selected(table, start, end)
    ensures at in table
  {
  }

  /** A whole minute read from its summary counts the same slots as its payload. */
  method ReadCached(
    h: HistoryGroups, table: Table, at: nat, part: Group, start: nat, end: nat, seconds: nat, ghost read: set<nat>)
    requires 0 < seconds && seconds % 60 == 0
    requires TrueTable(table) && at in table && at !in read
    requires start <= at && at + MINUTE <= end
    requires Restored(table[at].summary, at, table[at].generatedAt) == Some(part)
    requires Answers(h.groups, WindowSlots(table, read, start, end), seconds)
    modifies h
    ensures Answers(h.groups, WindowSlots(table, read + {at}, start, end), seconds)
  {
    hide Answers, AnswersAt, WindowSlots, TimesDistinct, Windowed, Restored, Represents;
    assert TrueRow(at, table[at]);
    RowIsNew(table, read, at, start, end);
    RowsAreDistinct(table, read + {at}, start, end);
    ghost var slots := Slots(table[at].payload);
    ghost var seen := WindowSlots(table, read, start, end);
    WholeIsWindowed(at, table[at].payload, start, end, seconds);
    var b := at / SECOND / seconds;
    AnswerOf(h.groups, seen, seconds, b);
    DistinctSubset(seen + slots, InBucket(seen, b, seconds) + slots);
    ghost var before := h.groups;
    h.MergeSummary(b, part, InBucket(seen, b, seconds), slots);
    AnswersUpdate(before, h.groups, seen, slots, b, seconds);
  }

  /** What the first pass over a page decides for one row: its restored summary, or None for the original. */
  function PartOf(table: Table, at: nat, start: nat, end: nat): Option<Group> {
    if at in table && start <= at && at + MINUTE <= end
    then Restored(table[at].summary, at, table[at].generatedAt) else None
  }

  /** The summary reader: small rows first, originals only where no summary can be used. */
  method SummaryStreamGroups(table: Table, pages: seq<seq<nat>>, start: nat, end: nat, seconds: nat)
    returns (groups: map<nat, Group>)
    requires 0 < seconds && seconds % 60 == 0
    requires TrueTable(table) && Delivers(pages, Selected(table, start, end))
    ensures Answers(groups, WindowSlots(table, table.Keys, start, end), seconds)
  {
    hide Answers, WindowSlots, TrueTable, Selected;
    var h := new HistoryGroups();
    NothingRead(table, start, end, seconds);
    ghost var read: set<nat> := {};
    ghost var all := Selected(table, start, end);
    assert all - {} == all;
    var left := pages;
    while left != []
      invariant fresh(h)
      invariant read <= all && Delivers(left, all - read)
      invariant Answers(h.groups, WindowSlots(table, read, start, end), seconds)
      decreases |left|
    {
      var page := left[0];
      SummaryPage(h, table, page, start, end, seconds, read);
      assert all - read - Elements(page) == all - (read + Elements(page));
      read := read + Elements(page);
      left := left[1..];
    }
    assert read == read + (all - read) == all;
    SelectionIsComplete(table, start, end);
    groups := h.groups;
  }

  method SummaryPage(
    h: HistoryGroups, table: Table, page: seq<nat>, start: nat, end: nat, seconds: nat, ghost read: set<nat>)
    requires 0 < seconds && seconds % 60 == 0
    requires TrueTable(table) && DeliversPage(page, Selected(table, start, end) - read)
    requires Answers(h.groups, WindowSlots(table, read, start, end), seconds)
    modifies h
    ensures Answers(h.groups, WindowSlots(table, read + Elements(page), start, end), seconds)
  {
    hide Answers, WindowSlots, TrueTable, Selected, Restored;
    ghost var all := Selected(table, start, end);
    var originals: set<nat> := {};
    var parts: seq<Option<Group>> := [];
    for i := 0 to |page|
      invariant |parts| == i && forall j | 0 <= j < i :: parts[j] == PartOf(table, page[j], start, end)
      invariant originals <= all && h.groups == old(h.groups)
      invariant forall j | 0 <= j < i && parts[j].None? :: page[j] in originals
    {
      PageStep(page, i, all - read);
      SelectedIsStored(table, start, end, page[i]);
      var part := PartOf(table, page[i], start, end);
      if part.None? {
        originals := originals + {page[i]};
      }
      parts := parts + [part];
    }
    var originalData := map at | at in originals && at in table :: table[at].payload;
    ghost var now := read;
    assert read + Elements(page[..0]) == read;
    for i := 0 to |page|
      invariant now == read + Elements(page[..i])
      invariant Answers(h.groups, WindowSlots(table, now, start, end), seconds)
    {
      var at := page[i];
      PageStep(page, i, all - read);
      SelectedIsStored(table, start, end, at);
      if parts[i].Some? {
        ReadCached(h, table, at, parts[i].value, start, end, seconds, now);
      } else if at in originalData {
        ReadOriginal(h, table, at, start, end, seconds, now);
      }
      assert now + {at} == read + Elements(page[..i + 1]);
      now := now + {at};
    }
    assert page[..|page|] == page;
  }
}
