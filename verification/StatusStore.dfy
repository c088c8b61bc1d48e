/** Device status under compact storage: one retained report against all of them. */
module StatusStore {
  import opened Basics

  /** The part of a status report that its instance and sequence number fix. */
  datatype Content = Content(instance: nat, sequence: nat, generated: int, body: nat)

  datatype Report = Report(message: nat, content: Content)

  /** The retained report; its generation time may have moved on past the report's own. */
  datatype Retained = Retained(report: Report, generated: int)

  datatype Key = Key(instance: nat, sequence: nat)

  function KeyOf(c: Content): Key { Key(c.instance, c.sequence) }

  /** Receipts in the order of their row numbers, the artifact of each sequence number, and the retained row. */
  datatype Store = Store(receipts: seq<Report>, artifacts: map<Key, Content>, retained: Option<Retained>)

  datatype Ack = Stored | Duplicate | IdempotencyConflict | ArtifactConflict

  const Empty: Store := Store([], map[], None)

  // ---- Receiving ----

  function Receipt(receipts: seq<Report>, message: nat): (found: Option<Report>)
    ensures found.Some? ==> found.value in receipts && found.value.message == message
    ensures found.None? ==> forall r <- receipts :: r.message != message
  {
    if receipts == [] then None
    else if receipts[|receipts| - 1].message == message then Some(receipts[|receipts| - 1])
    else Receipt(receipts[..|receipts| - 1], message)
  }

  predicate Replaces(retained: Option<Retained>, c: Content) {
    || retained.None?
    || (if retained.value.report.content.instance == c.instance then c.sequence > retained.value.report.content.sequence
        else c.generated > retained.value.generated)
  }

  function Projected(retained: Option<Retained>, r: Report): Retained {
    if Replaces(retained, r.content) then
      Retained(r, if retained.Some? then MaxInt(retained.value.generated, r.content.generated) else r.content.generated)
    else if retained.value.report.content.instance == r.content.instance then
      Retained(retained.value.report, MaxInt(retained.value.generated, r.content.generated))
    else retained.value
  }

  function Answer(s: Store, r: Report): Ack {
    var existing := Receipt(s.receipts, r.message);
    if existing.Some? then (if existing.value == r then Duplicate else IdempotencyConflict)
    else if KeyOf(r.content) in s.artifacts && s.artifacts[KeyOf(r.content)] != r.content then ArtifactConflict
    else Stored
  }

  function Accepted(s: Store, r: Report): Store {
    if Answer(s, r) != Stored then s
    else Store(s.receipts + [r], s.artifacts[KeyOf(r.content) := r.content], Some(Projected(s.retained, r)))
  }

  class StatusTables {
    var receipts: seq<Report>
    var artifacts: map<Key, Content>
    var retained: Option<Retained>

    function View(): Store
      reads this
    {
      Store(receipts, artifacts, retained)
    }

    constructor ()
      ensures View() == Empty
    {
      receipts, artifacts, retained := [], map[], None;
    }

    /** The retained row follows a report that was stored. */
    method Project(r: Report)
      modifies this`retained
      ensures retained == Some(Projected(old(retained), r))
    {
      var replace := retained.None? || r.content.generated > retained.value.generated;
      if retained.Some? && retained.value.report.content.instance == r.content.instance {
        replace := r.content.sequence > retained.value.report.content.sequence;
        if r.content.generated > retained.value.generated {
          retained := Some(retained.value.(generated := r.content.generated));
        }
      }
      if !replace {
        return;
      }
      if retained.None? {
        retained := Some(Retained(r, r.content.generated));
      } else {
        retained := Some(Retained(r, MaxInt(retained.value.generated, r.content.generated)));
      }
    }

    /** All or nothing: a conflict leaves every table as it was. */
    method Accept(r: Report) returns (ack: Ack)
      modifies this
      ensures View() == Accepted(old(View()), r)
      ensures ack == Answer(old(View()), r)
    {
      var existing := Receipt(receipts, r.message);
      if existing.Some? {
        if existing.value != r {
          return IdempotencyConflict;
        }
        return Duplicate;
      }
      var key := KeyOf(r.content);
      if key in artifacts && artifacts[key] != r.content {
        return ArtifactConflict;
      }
      receipts := receipts + [r];
      artifacts := artifacts[key := r.content];
      Project(r);
      return Stored;
    }
  }

  function Run(reports: seq<Report>): Store {
    if reports == [] then Empty else Accepted(Run(reports[..|reports| - 1]), reports[|reports| - 1])
  }

  // ---- Selecting ----

  /** The row with the newest generation time; of equal ones the last stored. */
  function NewestRow(receipts: seq<Report>): (n: nat)
    requires receipts != []
    ensures n < |receipts|
    ensures forall i | 0 <= i < |receipts| :: receipts[i].content.generated <= receipts[n].content.generated
    ensures forall i | n < i < |receipts| :: receipts[i].content.generated < receipts[n].content.generated
  {
    var m := |receipts| - 1;
    if m == 0 then 0
    else
      var before := NewestRow(receipts[..m]);
      if receipts[m].content.generated >= receipts[before].content.generated then m else before
  }

  /** The row with an instance's highest sequence number; of equal ones the last stored. */
  function HighestRow(receipts: seq<Report>, instance: nat): (n: Option<nat>)
    ensures n.None? ==> forall i | 0 <= i < |receipts| :: receipts[i].content.instance != instance
    ensures n.Some? ==> n.value < |receipts| && receipts[n.value].content.instance == instance
                        && forall i | 0 <= i < |receipts| && receipts[i].content.instance == instance ::
                             receipts[i].content.sequence <= receipts[n.value].content.sequence
  {
    if receipts == [] then None
    else
      var m := |receipts| - 1;
      var before := HighestRow(receipts[..m], instance);
      if receipts[m].content.instance == instance
         && (before.None? || receipts[m].content.sequence >= receipts[before.value].content.sequence)
      then Some(m) else before
  }

  /** The row full storage reads the snapshot from. */
  function SelectedRow(receipts: seq<Report>): (n: nat)
    requires receipts != []
    ensures n < |receipts| && receipts[n].content.instance == receipts[NewestRow(receipts)].content.instance
  {
    HighestRow(receipts, receipts[NewestRow(receipts)].content.instance).value
  }

  function FullSnapshot(s: Store): Option<Content> {
    if s.receipts == [] then None else Some(s.receipts[SelectedRow(s.receipts)].content)
  }

  /** Compact storage has the retained body only, and shows it when it is the one selected. */
  function CompactSnapshot(s: Store): Option<Content> {
    if s.receipts == [] || s.retained.None? then None
    else if KeyOf(s.retained.value.report.content) == KeyOf(s.receipts[SelectedRow(s.receipts)].content)
    then Some(s.retained.value.report.content) else None
  }

  // ---- What every run keeps ----

  predicate Immutable(s: Store) {
    && (forall i | 0 <= i < |s.receipts| :: KeyOf(s.receipts[i].content) in s.artifacts
                                            && s.artifacts[KeyOf(s.receipts[i].content)] == s.receipts[i].content)
    && (forall i, j | 0 <= i < j < |s.receipts| :: s.receipts[i].message != s.receipts[j].message)
    && (s.retained.Some? <==> s.receipts != [])
    && (s.retained.Some? ==> s.retained.value.report in s.receipts)
  }

  lemma AcceptKeeps(s: Store, r: Report)
    requires Immutable(s)
    ensures Immutable(Accepted(s, r))
  {
    var after := Accepted(s, r);
    if Answer(s, r) == Stored {
      forall i | 0 <= i < |after.receipts|
        ensures KeyOf(after.receipts[i].content) in after.artifacts
                && after.artifacts[KeyOf(after.receipts[i].content)] == after.receipts[i].content
      {
        assert i < |s.receipts| ==> after.receipts[i] == s.receipts[i];
      }
      assert after.receipts[|s.receipts|] == r;
    }
  }

  /** One sequence number of an instance never has two contents, whatever arrives and in whatever order. */
  lemma {:induction false} RunIsImmutable(reports: seq<Report>)
    ensures Immutable(Run(reports))
  {
    if reports != [] {
      RunIsImmutable(reports[..|reports| - 1]);
      AcceptKeeps(Run(reports[..|reports| - 1]), reports[|reports| - 1]);
    }
  }

  predicate AllReceived(receipts: seq<Report>, artifacts: map<Key, Content>) {
    forall key <- artifacts :: HasContent(receipts, key, artifacts[key])
  }

  predicate HasContent(receipts: seq<Report>, key: Key, content: Content) {
    exists q <- receipts :: q.content == content && KeyOf(content) == key
  }

  /** Nothing but what was received stands in the artifacts. */
  lemma {:induction false} ArtifactsAreReceived(reports: seq<Report>)
    ensures AllReceived(Run(reports).receipts, Run(reports).artifacts)
  {
    hide Answer, Projected;
    if reports != [] {
      var s := Run(reports[..|reports| - 1]);
      var r := reports[|reports| - 1];
      ArtifactsAreReceived(reports[..|reports| - 1]);
      var after := Accepted(s, r);
      forall key <- after.artifacts
        ensures HasContent(after.receipts, key, after.artifacts[key])
      {
        if key in s.artifacts && after.artifacts[key] == s.artifacts[key] {
          var q :| q in s.receipts && q.content == s.artifacts[key] && KeyOf(s.artifacts[key]) == key;
          assert q in after.receipts;
        } else {
          assert after.receipts[|s.receipts|] == r;
        }
      }
    }
  }

  predicate SameSequence(a: Content, b: Content) { a.instance == b.instance && a.sequence == b.sequence }

  /** A received report has the number but not the content. */
  predicate Contradicts(receipts: seq<Report>, r: Report) {
    exists q <- receipts :: SameSequence(q.content, r.content) && q.content != r.content
  }

  /**
   * After any run a report is a duplicate exactly when it was received, a conflict of messages when another one was
   * received under its message, a conflict of contents when its message is new but its sequence number stands for
   * another content, and otherwise it is stored last; only then does anything change.
   */
  lemma AnswerIsExact(reports: seq<Report>, r: Report)
    ensures var s := Run(reports);
            var known := exists q <- s.receipts :: q.message == r.message;
            && (Answer(s, r) == Duplicate <==> r in s.receipts)
            && (Answer(s, r) == IdempotencyConflict <==> known && r !in s.receipts)
            && (Answer(s, r) == ArtifactConflict <==> !known && Contradicts(s.receipts, r))
            && Run(reports + [r]).receipts == (if known || Contradicts(s.receipts, r) then s.receipts else s.receipts + [r])
            && (Answer(s, r) != Stored ==> Run(reports + [r]) == s)
  {
    var s := Run(reports);
    RunIsImmutable(reports);
    ArtifactsAreReceived(reports);
    assert (reports + [r])[..|reports|] == reports;
    var existing := Receipt(s.receipts, r.message);
    if existing.Some? {
      OneReceipt(s, existing.value, r);
    }
    ContradictionIsSeen(s, r);
    hide Run, Receipt, Projected, Immutable, AllReceived, Contradicts;
  }

  lemma OneReceipt(s: Store, existing: Report, r: Report)
    requires Immutable(s) && existing in s.receipts && existing.message == r.message
    ensures r in s.receipts <==> existing == r
  {
  }

  lemma ContradictionIsSeen(s: Store, r: Report)
    requires Immutable(s) && AllReceived(s.receipts, s.artifacts)
    ensures Contradicts(s.receipts, r) <==> KeyOf(r.content) in s.artifacts && s.artifacts[KeyOf(r.content)] != r.content
  {
    if q :| q in s.receipts && SameSequence(q.content, r.content) && q.content != r.content {
      assert KeyOf(q.content) == KeyOf(r.content);
    }
    if KeyOf(r.content) in s.artifacts {
      assert HasContent(s.receipts, KeyOf(r.content), s.artifacts[KeyOf(r.content)]);
      var q :| q in s.receipts && q.content == s.artifacts[KeyOf(r.content)] && KeyOf(q.content) == KeyOf(r.content);
      assert SameSequence(q.content, r.content);
    }
  }

  /** A report that is sent again gets its receipt back and changes nothing. */
  lemma ResendIsDuplicate(reports: seq<Report>, later: seq<Report>, r: Report)
    requires Answer(Run(reports), r) == Stored
    ensures Answer(Run(reports + [r] + later), r) == Duplicate
  {
    StaysReceived(reports, later, r);
    RunIsImmutable(reports + [r] + later);
    var s := Run(reports + [r] + later);
    var existing := Receipt(s.receipts, r.message);
    assert r in s.receipts;
  }

  lemma {:induction false} StaysReceived(reports: seq<Report>, later: seq<Report>, r: Report)
    requires Answer(Run(reports), r) == Stored
    ensures r in Run(reports + [r] + later).receipts
  {
    hide Answer, Projected;
    var all := reports + [r] + later;
    var before := all[..|all| - 1];
    if later == [] {
      assert before == reports;
    } else {
      assert before == reports + [r] + later[..|later| - 1];
      StaysReceived(reports, later[..|later| - 1], r);
    }
  }

  /** Whatever compact storage shows is exactly what full storage would show. */
  lemma {:induction false} CompactRefinesFull(reports: seq<Report>)
    requires CompactSnapshot(Run(reports)).Some?
    ensures CompactSnapshot(Run(reports)) == FullSnapshot(Run(reports))
  {
    RunIsImmutable(reports);
  }

  // ---- When compact storage shows a snapshot ----

  function RetainedOf(receipts: seq<Report>): Option<Retained> {
    if receipts == [] then None
    else Some(Projected(RetainedOf(receipts[..|receipts| - 1]), receipts[|receipts| - 1]))
  }

  lemma {:induction false} RunRetains(reports: seq<Report>)
    ensures Run(reports).retained == RetainedOf(Run(reports).receipts)
  {
    hide Projected;
    if reports != [] {
      var s := Run(reports[..|reports| - 1]);
      RunRetains(reports[..|reports| - 1]);
      var r := reports[|reports| - 1];
      assert (s.receipts + [r])[..|s.receipts|] == s.receipts;
    }
  }

  /** The row that brought the retained instance in, the last time the instance changed. */
  function InstalledRow(receipts: seq<Report>): (k: nat)
    requires receipts != []
    ensures k < |receipts|
  {
    var m := |receipts| - 1;
    if m == 0 then 0
    else
      var before := RetainedOf(receipts[..m]);
      if before.value.report.content.instance != receipts[m].content.instance && Replaces(before, receipts[m].content)
      then m else InstalledRow(receipts[..m])
  }

  predicate SameInstance(receipts: seq<Report>, i: nat, k: nat) {
    i < |receipts| && k < |receipts| && receipts[i].content.instance == receipts[k].content.instance
  }

  /** Since its instance came in the retained row holds that instance's highest sequence and newest time. */
  predicate Leads(receipts: seq<Report>, k: nat, kept: Retained) {
    && k < |receipts| && kept.report.content.instance == receipts[k].content.instance
    && (exists i | k <= i < |receipts| :: receipts[i] == kept.report)
    && (exists i | k <= i < |receipts| :: SameInstance(receipts, i, k) && receipts[i].content.generated == kept.generated)
    && forall i | k <= i < |receipts| && SameInstance(receipts, i, k) ::
         receipts[i].content.sequence <= kept.report.content.sequence && receipts[i].content.generated <= kept.generated
  }

  lemma {:induction false} RetainedLeads(receipts: seq<Report>)
    requires receipts != []
    ensures Leads(receipts, InstalledRow(receipts), RetainedOf(receipts).value)
  {
    var m := |receipts| - 1;
    if m == 0 {
      assert receipts[0] == RetainedOf(receipts).value.report;
      assert SameInstance(receipts, 0, 0);
    } else {
      RetainedLeads(receipts[..m]);
      LeadExtends(receipts, InstalledRow(receipts[..m]), RetainedOf(receipts[..m]).value);
    }
  }

  lemma LeadExtends(receipts: seq<Report>, k: nat, kept: Retained)
    requires |receipts| > 1 && Leads(receipts[..|receipts| - 1], k, kept)
    ensures var m := |receipts| - 1;
            var changes := kept.report.content.instance != receipts[m].content.instance && Replaces(Some(kept), receipts[m].content);
            Leads(receipts, if changes then m else k, Projected(Some(kept), receipts[m]))
  {
    var m := |receipts| - 1;
    var before := receipts[..m];
    var next := Projected(Some(kept), receipts[m]);
    var changes := kept.report.content.instance != receipts[m].content.instance && Replaces(Some(kept), receipts[m].content);
    assert SameInstance(receipts, m, m);
    if !changes {
      var i :| k <= i < |before| && before[i] == kept.report;
      var j :| k <= j < |before| && SameInstance(before, j, k) && before[j].content.generated == kept.generated;
      assert receipts[i] == kept.report && SameInstance(receipts, j, k) && receipts[j].content.generated == kept.generated;
      assert next.generated == kept.generated || (SameInstance(receipts, m, k) && receipts[m].content.generated == next.generated);
      forall t | k <= t < |receipts| && SameInstance(receipts, t, k)
        ensures receipts[t].content.sequence <= next.report.content.sequence && receipts[t].content.generated <= next.generated
      {
        assert t < m ==> SameInstance(before, t, k);
      }
    }
  }

  /** A row from before the instance last came in that a row since then has caught up with. */
  predicate CaughtUp(receipts: seq<Report>, k: nat, j: nat) {
    exists i | k <= i < |receipts| && j < |receipts| :: SameInstance(receipts, i, k) && receipts[i].content.sequence >= receipts[j].content.sequence
  }

  // ---- The same rows, told from the receipts alone ----

  /** A report generated after every report stored before it. */
  predicate Advances(receipts: seq<Report>, i: nat) {
    i < |receipts| && forall j | 0 <= j < i :: receipts[j].content.generated < receipts[i].content.generated
  }

  /** The first of the advancing reports that all belong to the instance that advanced last. */
  predicate Begins(receipts: seq<Report>, k: nat) {
    && Advances(receipts, k)
    && (forall i | k < i < |receipts| && Advances(receipts, i) :: SameInstance(receipts, i, k))
    && forall j | 0 <= j < k && Advances(receipts, j) && (forall i | j < i < k :: !Advances(receipts, i)) :: !SameInstance(receipts, j, k)
  }

  /** The retained row's time is the newest of all. */
  predicate IsNewest(receipts: seq<Report>, time: int) {
    && (forall i | 0 <= i < |receipts| :: receipts[i].content.generated <= time)
    && exists i | 0 <= i < |receipts| :: receipts[i].content.generated == time
  }

  lemma {:induction false} RetainedIsNewest(receipts: seq<Report>)
    requires receipts != []
    ensures IsNewest(receipts, RetainedOf(receipts).value.generated)
  {
    var m := |receipts| - 1;
    if m == 0 {
      assert receipts[0].content.generated == RetainedOf(receipts).value.generated;
    } else {
      RetainedIsNewest(receipts[..m]);
      var before := RetainedOf(receipts[..m]).value;
      var i :| 0 <= i < m && receipts[..m][i].content.generated == before.generated;
      assert receipts[i].content.generated == before.generated;
      assert receipts[m].content.generated >= before.generated ==> receipts[m].content.generated == RetainedOf(receipts).value.generated;
    }
  }

  lemma AdvancesInPrefix(receipts: seq<Report>, m: nat, i: nat)
    requires i < m <= |receipts|
    ensures Advances(receipts[..m], i) == Advances(receipts, i)
  {
    assert forall j | 0 <= j < i :: receipts[..m][j] == receipts[j];
  }

  lemma BeginsAgain(receipts: seq<Report>, k: nat, time: int)
    requires |receipts| > 1 && Begins(receipts[..|receipts| - 1], k) && IsNewest(receipts[..|receipts| - 1], time)
    ensures var m := |receipts| - 1;
            Begins(receipts, if receipts[k].content.instance != receipts[m].content.instance && receipts[m].content.generated > time then m else k)
  {
    var m := |receipts| - 1;
    var before := receipts[..m];
    forall i | 0 <= i < m ensures Advances(before, i) == Advances(receipts, i) {
      AdvancesInPrefix(receipts, m, i);
    }
    NewestAdvances(receipts, time);
    hide Advances, IsNewest;
    if receipts[k].content.instance != receipts[m].content.instance && receipts[m].content.generated > time {
      forall j | 0 <= j < m && Advances(receipts, j) && (forall i | j < i < m :: !Advances(receipts, i))
        ensures !SameInstance(receipts, j, m)
      {
        assert j > k ==> SameInstance(before, j, k);
        assert j >= k;
      }
    } else {
      forall i | k < i < |receipts| && Advances(receipts, i) ensures SameInstance(receipts, i, k) {
        assert i < m ==> SameInstance(before, i, k);
      }
      forall j | 0 <= j < k && Advances(receipts, j) && (forall i | j < i < k :: !Advances(receipts, i))
        ensures !SameInstance(receipts, j, k)
      {
        assert !SameInstance(before, j, k);
      }
    }
  }

  lemma NewestAdvances(receipts: seq<Report>, time: int)
    requires receipts != [] && IsNewest(receipts[..|receipts| - 1], time)
    ensures Advances(receipts, |receipts| - 1) <==> receipts[|receipts| - 1].content.generated > time
  {
    var m := |receipts| - 1;
    assert forall j | 0 <= j < m :: receipts[..m][j] == receipts[j];
    var i :| 0 <= i < m && receipts[..m][i].content.generated == time;
    assert receipts[i].content.generated == time;
  }

  /** The row that brought the retained instance in is the one the receipts alone tell. */
  lemma {:induction false} InstalledBegins(receipts: seq<Report>)
    requires receipts != []
    ensures Begins(receipts, InstalledRow(receipts))
  {
    var m := |receipts| - 1;
    if m == 0 {
      assert Advances(receipts, 0);
    } else {
      InstalledBegins(receipts[..m]);
      RetainedIsNewest(receipts[..m]);
      RetainedLeads(receipts[..m]);
      var k := InstalledRow(receipts[..m]);
      assert RetainedOf(receipts[..m]).value.report.content.instance == receipts[k].content.instance;
      hide Advances, Begins, IsNewest, Leads;
      BeginsAgain(receipts, k, RetainedOf(receipts[..m]).value.generated);
    }
  }

  lemma {:induction false} BeginsOnce(receipts: seq<Report>, k: nat, n: nat)
    requires Begins(receipts, k) && Begins(receipts, n)
    ensures k == n
  {
    if k < n {
      LaterDoesNotBegin(receipts, k, n);
    } else if n < k {
      LaterDoesNotBegin(receipts, n, k);
    }
  }

  lemma LaterDoesNotBegin(receipts: seq<Report>, k: nat, n: nat)
    requires k < n < |receipts| && Begins(receipts, k) && Advances(receipts, n)
    ensures !Begins(receipts, n)
  {
    hide Advances;
    var j := LastAdvance(receipts, k, n);
    assert SameInstance(receipts, j, k) && SameInstance(receipts, n, k);
  }

  lemma LastAdvance(receipts: seq<Report>, k: nat, n: nat) returns (j: nat)
    requires k < n <= |receipts| && Advances(receipts, k)
    ensures k <= j < n && Advances(receipts, j) && forall i | j < i < n :: !Advances(receipts, i)
  {
    hide Advances;
    if k + 1 == n || Advances(receipts, n - 1) {
      j := n - 1;
    } else {
      j := LastAdvance(receipts, k, n - 1);
    }
  }

  /** A later report of another instance was generated at the very time that is the newest, and none at that time after it. */
  predicate Tied(receipts: seq<Report>, k: nat) {
    exists i | k < i < |receipts| :: TiedAt(receipts, k, i)
  }

  predicate TiedAt(receipts: seq<Report>, k: nat, i: nat) {
    && k < i < |receipts| && !SameInstance(receipts, i, k) && !Advances(receipts, i)
    && (forall j | 0 <= j < |receipts| :: receipts[j].content.generated <= receipts[i].content.generated)
    && forall j | i < j < |receipts| :: receipts[j].content.generated < receipts[i].content.generated
  }

  lemma TiedIff(receipts: seq<Report>, k: nat)
    requires Begins(receipts, k)
    ensures Tied(receipts, k) <==> !SameInstance(receipts, NewestRow(receipts), k)
  {
    var n := NewestRow(receipts);
    if !SameInstance(receipts, n, k) {
      assert n >= k ==> TiedAt(receipts, k, n);
    }
    if Tied(receipts, k) {
      var i :| k < i < |receipts| && TiedAt(receipts, k, i);
      assert i == n;
    }
  }

  /**
   * Compact storage hides the snapshot exactly when a later report of another instance ties the newest
   * time, or a report of the newest instance from before it came in has a higher sequence than all since.
   */
  lemma {:induction false} ShownIff(reports: seq<Report>, k: nat)
    requires Begins(Run(reports).receipts, k)
    ensures CompactSnapshot(Run(reports)).Some?
       <==> && !Tied(Run(reports).receipts, k)
            && forall j | 0 <= j < k && SameInstance(Run(reports).receipts, j, k) :: CaughtUp(Run(reports).receipts, k, j)
  {
    var s := Run(reports);
    RunIsImmutable(reports);
    RunRetains(reports);
    RetainedLeads(s.receipts);
    InstalledBegins(s.receipts);
    BeginsOnce(s.receipts, k, InstalledRow(s.receipts));
    hide Run, Begins, Tied, Leads, SameInstance, CaughtUp, InstalledRow, RetainedOf, Immutable;
    ShownIffLeading(s.receipts, k, s.retained.value);
    TiedIff(s.receipts, k);
  }

  lemma ShownIffLeading(receipts: seq<Report>, k: nat, kept: Retained)
    requires receipts != [] && Leads(receipts, k, kept)
    ensures KeyOf(kept.report.content) == KeyOf(receipts[SelectedRow(receipts)].content)
       <==> && SameInstance(receipts, NewestRow(receipts), k)
            && forall j | 0 <= j < k && SameInstance(receipts, j, k) :: CaughtUp(receipts, k, j)
  {
    var selected := SelectedRow(receipts);
    var newest := NewestRow(receipts);
    var highest := HighestRow(receipts, receipts[newest].content.instance);
    assert highest.Some?;
    var r :| k <= r < |receipts| && receipts[r] == kept.report;
    assert SameInstance(receipts, r, k);
    if SameInstance(receipts, newest, k) {
      assert receipts[r].content.sequence <= receipts[selected].content.sequence;
      assert selected >= k ==> SameInstance(receipts, selected, k);
      forall j | 0 <= j < k && SameInstance(receipts, j, k)
        ensures CaughtUp(receipts, k, j) <==> receipts[j].content.sequence <= kept.report.content.sequence
      {
        assert receipts[r].content.sequence >= receipts[j].content.sequence ==> CaughtUp(receipts, k, j);
      }
      assert selected < k ==> SameInstance(receipts, selected, k);
    }
  }

  // ---- Instances that start one after another ----

  /** Every report of a later instance was generated after all reports of earlier ones; instances are numbered in that order. */
  predicate BootOrder(receipts: seq<Report>) {
    forall i, j | 0 <= i < |receipts| && 0 <= j < |receipts| && receipts[i].content.instance < receipts[j].content.instance ::
      receipts[i].content.generated < receipts[j].content.generated
  }

  predicate NewestInstance(receipts: seq<Report>, k: nat) {
    && k < |receipts|
    && (forall i | 0 <= i < |receipts| :: receipts[i].content.instance <= receipts[k].content.instance)
    && forall j | 0 <= j < k :: receipts[j].content.instance < receipts[k].content.instance
  }

  lemma NewestExtends(receipts: seq<Report>, k: nat, kept: Retained)
    requires |receipts| > 1 && BootOrder(receipts)
    requires Leads(receipts[..|receipts| - 1], k, kept) && NewestInstance(receipts[..|receipts| - 1], k)
    ensures var m := |receipts| - 1;
            var changes := kept.report.content.instance != receipts[m].content.instance && Replaces(Some(kept), receipts[m].content);
            NewestInstance(receipts, if changes then m else k)
  {
    var before := receipts[..|receipts| - 1];
    var i :| k <= i < |before| && SameInstance(before, i, k) && before[i].content.generated == kept.generated;
    assert receipts[i] == before[i] && receipts[k] == before[k];
  }

  lemma {:induction false} NewestIsInstalled(receipts: seq<Report>)
    requires receipts != [] && BootOrder(receipts)
    ensures NewestInstance(receipts, InstalledRow(receipts))
  {
    hide Leads, Projected, Replaces;
    var m := |receipts| - 1;
    if m > 0 {
      NewestIsInstalled(receipts[..m]);
      RetainedLeads(receipts[..m]);
      NewestExtends(receipts, InstalledRow(receipts[..m]), RetainedOf(receipts[..m]).value);
    }
  }

  lemma NewestIsNotTied(receipts: seq<Report>, k: nat)
    requires BootOrder(receipts) && NewestInstance(receipts, k) && Begins(receipts, k)
    ensures !Tied(receipts, k)
  {
    var newest := NewestRow(receipts);
    assert receipts[k].content.generated <= receipts[newest].content.generated;
    TiedIff(receipts, k);
  }

  /** With instances that start one after another, compact storage shows the snapshot for every order of arrival. */
  lemma {:induction false} OrderedInstancesAreShown(reports: seq<Report>)
    requires Run(reports).receipts != [] && BootOrder(Run(reports).receipts)
    ensures CompactSnapshot(Run(reports)) == FullSnapshot(Run(reports))
    ensures CompactSnapshot(Run(reports)).Some?
  {
    hide Run, CompactSnapshot, FullSnapshot, BootOrder, Begins, Tied;
    var receipts := Run(reports).receipts;
    var k := InstalledRow(receipts);
    NewestIsInstalled(receipts);
    InstalledBegins(receipts);
    NewestIsNotTied(receipts, k);
    ShownIff(reports, k);
    CompactRefinesFull(reports);
  }

  /** Two instances whose reports interleave: 1 starts while 0 is newer, and its first report is ignored. */
  const Interleaved: seq<Report> :=
    [Report(0, Content(0, 1, 10, 0)), Report(1, Content(1, 9, 5, 0)), Report(2, Content(1, 3, 20, 0))]

  lemma InterleavedRun()
    ensures Run(Interleaved).receipts == Interleaved
    ensures Run(Interleaved).retained == Some(Retained(Interleaved[2], 20))
  {
    var a, b, c := Interleaved[0], Interleaved[1], Interleaved[2];
    assert Interleaved[..2] == [a, b] && [a, b][..1] == [a] && [a][..0] == [];
    assert Run([]) == Empty;
    assert Run([a]) == Store([a], map[KeyOf(a.content) := a.content], Some(Retained(a, 10)));
    assert Run([a, b]).receipts == [a, b];
  }

  /** Without that order a report ignored before its instance came in can be the one full storage shows. */
  lemma InterleavedInstancesHide()
    ensures FullSnapshot(Run(Interleaved)) == Some(Interleaved[1].content)
    ensures CompactSnapshot(Run(Interleaved)).None?
  {
    InterleavedRun();
    hide Run;
    assert NewestRow(Interleaved) == 2;
    var highest := HighestRow(Interleaved, 1);
    assert Interleaved[1].content.sequence == 9;
  }
}
