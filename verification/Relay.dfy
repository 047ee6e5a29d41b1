/** The relay: pick a batch of unpublished outbox rows, publish each, mark it, all in one
    transaction (src/outbox/relay.ts). */
module Relay {
  import opened Wrappers
  import opened Events
  import opened Checkout

  /** ORDER BY created_at, id. */
  predicate Earlier(a: OutboxRow, b: OutboxRow) {
    a.createdAt < b.createdAt || (a.createdAt == b.createdAt && a.id <= b.id)
  }

  predicate InOrder(rows: seq<OutboxRow>) {
    forall i, j :: 0 <= i < j < |rows| ==> Earlier(rows[i], rows[j])
  }

  predicate DistinctIds(rows: seq<OutboxRow>) {
    forall i, j :: 0 <= i < j < |rows| ==> rows[i].id != rows[j].id
  }

  function Insert(row: OutboxRow, rows: seq<OutboxRow>): seq<OutboxRow> {
    if rows == [] then [row]
    else if Earlier(row, rows[0]) then [row] + rows
    else [rows[0]] + Insert(row, rows[1..])
  }

  /** Insertion sort into publishing order. */
  function Ordered(rows: seq<OutboxRow>): seq<OutboxRow> {
    if rows == [] then [] else Insert(rows[0], Ordered(rows[1..]))
  }

  /** The rows whose id is not in `skip`. */
  function Without(rows: seq<OutboxRow>, skip: set<nat>): seq<OutboxRow> {
    if rows == [] then []
    else if rows[0].id in skip then Without(rows[1..], skip)
    else [rows[0]] + Without(rows[1..], skip)
  }

  /** WHERE published_at IS NULL ORDER BY created_at, id, passing over locked rows. */
  function Pending(rows: seq<OutboxRow>, skip: set<nat>): seq<OutboxRow> {
    Without(Ordered(rows), skip)
  }

  function Min(a: nat, b: nat): nat {
    if a < b then a else b
  }

  /** SELECT … FOR UPDATE SKIP LOCKED LIMIT n. */
  function Pick(rows: seq<OutboxRow>, published: set<nat>, locked: set<nat>, n: nat): seq<OutboxRow> {
    var pending := Pending(rows, published + locked);
    pending[..Min(n, |pending|)]
  }

  function IdsOf(rows: seq<OutboxRow>): set<nat> {
    set row <- rows :: row.id
  }

  function EventsOf(rows: seq<OutboxRow>): (events: seq<Event>)
    ensures |events| == |rows|
    ensures forall i :: 0 <= i < |rows| ==> events[i] == rows[i].event
  {
    seq(|rows|, i requires 0 <= i < |rows| => rows[i].event)
  }

  /** The rows whose publish was confirmed. */
  function Confirmed(rows: seq<OutboxRow>, confirm: OutboxRow -> bool): seq<OutboxRow> {
    if rows == [] then []
    else
      var last := rows[|rows| - 1];
      Confirmed(rows[..|rows| - 1], confirm) + if confirm(last) then [last] else []
  }

  // ---------------------------------------------------------------- the order of a drain

  lemma {:induction false} InsertAdds(row: OutboxRow, rows: seq<OutboxRow>)
    ensures multiset(Insert(row, rows)) == multiset(rows) + multiset{row}
  {
    if rows != [] {
      assert rows == [rows[0]] + rows[1..];
      if !Earlier(row, rows[0]) { InsertAdds(row, rows[1..]); }
    }
  }

  lemma {:induction false} InsertHas(row: OutboxRow, rows: seq<OutboxRow>, x: OutboxRow)
    requires x in Insert(row, rows)
    ensures x == row || x in rows
  {
    if rows != [] && !Earlier(row, rows[0]) && x != rows[0] { InsertHas(row, rows[1..], x); }
  }

  lemma ConsInOrder(x: OutboxRow, rest: seq<OutboxRow>)
    requires InOrder(rest) && forall j :: 0 <= j < |rest| ==> Earlier(x, rest[j])
    ensures InOrder([x] + rest)
  {
  }

  lemma {:induction false} InsertSorts(row: OutboxRow, rows: seq<OutboxRow>)
    requires InOrder(rows)
    ensures InOrder(Insert(row, rows))
  {
    if rows != [] {
      if Earlier(row, rows[0]) {
        ConsInOrder(row, rows);
      } else {
        var rest := Insert(row, rows[1..]);
        InsertSorts(row, rows[1..]);
        forall j | 0 <= j < |rest|
          ensures Earlier(rows[0], rest[j])
        {
          InsertHas(row, rows[1..], rest[j]);
        }
        ConsInOrder(rows[0], rest);
      }
    }
  }

  /** Sorting keeps the rows and puts them in order. */
  lemma {:induction false} OrderedSorts(rows: seq<OutboxRow>)
    ensures InOrder(Ordered(rows))
    ensures multiset(Ordered(rows)) == multiset(rows)
  {
    if rows != [] {
      OrderedSorts(rows[1..]);
      InsertSorts(rows[0], Ordered(rows[1..]));
      InsertAdds(rows[0], Ordered(rows[1..]));
      assert rows == [rows[0]] + rows[1..];
    }
  }

  lemma {:induction false} OrderedHasTheRows(rows: seq<OutboxRow>, row: OutboxRow)
    ensures row in Ordered(rows) <==> row in rows
  {
    OrderedSorts(rows);
    assert row in Ordered(rows) <==> row in multiset(Ordered(rows));
    assert row in rows <==> row in multiset(rows);
  }

  lemma {:induction false} WithoutHasTheRest(rows: seq<OutboxRow>, skip: set<nat>, row: OutboxRow)
    ensures row in Without(rows, skip) <==> row in rows && row.id !in skip
  {
    if rows != [] {
      WithoutHasTheRest(rows[1..], skip, row);
      assert row in rows <==> row == rows[0] || row in rows[1..];
    }
  }

  lemma {:induction false} WithoutKeepsOrder(rows: seq<OutboxRow>, skip: set<nat>)
    requires InOrder(rows)
    ensures InOrder(Without(rows, skip))
  {
    if rows != [] {
      WithoutKeepsOrder(rows[1..], skip);
      var rest := Without(rows[1..], skip);
      forall j | 0 <= j < |rest|
        ensures Earlier(rows[0], rest[j])
      {
        WithoutHasTheRest(rows[1..], skip, rest[j]);
      }
    }
  }

  lemma {:induction false} WithoutKeepsIds(rows: seq<OutboxRow>, skip: set<nat>)
    requires DistinctIds(rows)
    ensures DistinctIds(Without(rows, skip))
  {
    if rows != [] {
      WithoutKeepsIds(rows[1..], skip);
      var rest := Without(rows[1..], skip);
      forall j | 0 <= j < |rest|
        ensures rows[0].id != rest[j].id
      {
        WithoutHasTheRest(rows[1..], skip, rest[j]);
      }
    }
  }

  lemma {:induction false} OrderedKeepsIds(rows: seq<OutboxRow>)
    requires DistinctIds(rows)
    ensures DistinctIds(Ordered(rows))
  {
    var r := Ordered(rows);
    OrderedSorts(rows);
    forall i, j | 0 <= i < j < |r|
      ensures r[i].id != r[j].id
    {
      if r[i].id == r[j].id {
        assert r[i] in multiset(rows) && r[j] in multiset(rows);
        assert r[i] == r[j];
        TwiceIsTwo(r, i, j);
        OnceIsOne(rows, r[i]);
      }
    }
  }

  lemma TwiceIsTwo<T>(s: seq<T>, i: nat, j: nat)
    requires i < j < |s| && s[i] == s[j]
    ensures multiset(s)[s[i]] >= 2
  {
    assert s == s[..j] + [s[j]] + s[j + 1..];
    assert s[i] in s[..j];
    assert multiset(s) == multiset(s[..j]) + multiset{s[j]} + multiset(s[j + 1..]);
  }

  lemma {:induction false} OnceIsOne(rows: seq<OutboxRow>, x: OutboxRow)
    requires DistinctIds(rows)
    ensures multiset(rows)[x] <= 1
  {
    if rows != [] {
      OnceIsOne(rows[1..], x);
      assert rows == [rows[0]] + rows[1..];
      if rows[0] == x { assert x !in rows[1..]; }
    }
  }

  lemma {:induction false} WithoutTwice(rows: seq<OutboxRow>, a: set<nat>, b: set<nat>)
    ensures Without(rows, a + b) == Without(Without(rows, a), b)
  {
    if rows != [] {
      WithoutTwice(rows[1..], a, b);
      if rows[0].id !in a {
        assert Without(rows, a) == [rows[0]] + Without(rows[1..], a);
      }
    }
  }

  lemma {:induction false} SuffixHasOtherIds(rows: seq<OutboxRow>, n: nat, row: OutboxRow)
    requires DistinctIds(rows) && n <= |rows| && row in rows[n..]
    ensures row.id !in IdsOf(rows[..n])
  {
    forall other | other in rows[..n]
      ensures other.id != row.id
    {
    }
  }

  lemma {:induction false} WithoutSplit(gone: seq<OutboxRow>, kept: seq<OutboxRow>)
    requires forall row :: row in kept ==> row.id !in IdsOf(gone)
    ensures Without(gone + kept, IdsOf(gone)) == kept
  {
    WithoutNone(kept, IdsOf(gone));
    WithoutAll(gone, kept, IdsOf(gone));
  }

  lemma {:induction false} WithoutPrefix(rows: seq<OutboxRow>, n: nat)
    requires DistinctIds(rows) && n <= |rows|
    ensures Without(rows, IdsOf(rows[..n])) == rows[n..]
  {
    var gone, kept := rows[..n], rows[n..];
    assert rows == gone + kept;
    forall row | row in kept
      ensures row.id !in IdsOf(gone)
    {
      SuffixHasOtherIds(rows, n, row);
    }
    WithoutSplit(gone, kept);
  }

  lemma IdsOfConcat(a: seq<OutboxRow>, b: seq<OutboxRow>)
    ensures IdsOf(a + b) == IdsOf(a) + IdsOf(b)
  {
    forall id
      ensures id in IdsOf(a + b) <==> id in IdsOf(a) || id in IdsOf(b)
    {
      if id in IdsOf(a) {
        var row :| row in a && row.id == id;
        assert row in a + b;
      }
      if id in IdsOf(b) {
        var row :| row in b && row.id == id;
        assert row in a + b;
      }
    }
  }

  lemma EventsOfConcat(a: seq<OutboxRow>, b: seq<OutboxRow>)
    ensures EventsOf(a + b) == EventsOf(a) + EventsOf(b)
  {
  }

  lemma {:induction false} WithoutNone(rows: seq<OutboxRow>, skip: set<nat>)
    requires forall row :: row in rows ==> row.id !in skip
    ensures Without(rows, skip) == rows
  {
    if rows != [] { WithoutNone(rows[1..], skip); }
  }

  lemma {:induction false} WithoutAll(gone: seq<OutboxRow>, rows: seq<OutboxRow>, skip: set<nat>)
    requires forall row :: row in gone ==> row.id in skip
    ensures Without(gone + rows, skip) == Without(rows, skip)
  {
    if gone == [] {
      assert gone + rows == rows;
    } else {
      WithoutAll(gone[1..], rows, skip);
      assert (gone + rows)[1..] == gone[1..] + rows;
    }
  }

  /** Marking the first n pending rows leaves exactly the others pending, in the same order. */
  lemma MarkedLeaveTheQueue(rows: seq<OutboxRow>, skip: set<nat>, n: nat)
    requires DistinctIds(rows) && n <= |Pending(rows, skip)|
    ensures Pending(rows, skip + IdsOf(Pending(rows, skip)[..n])) == Pending(rows, skip)[n..]
  {
    var pending := Pending(rows, skip);
    OrderedKeepsIds(rows);
    WithoutKeepsIds(Ordered(rows), skip);
    WithoutTwice(Ordered(rows), skip, IdsOf(pending[..n]));
    WithoutPrefix(pending, n);
  }

  /** Every committed, unpublished, unlocked row is a candidate, however small its id and
      however late it committed; the batch is the earliest of them. */
  lemma NoRowIsPassedOver(rows: seq<OutboxRow>, published: set<nat>, locked: set<nat>, n: nat, row: OutboxRow)
    requires row in rows && row.id !in published && row.id !in locked
    ensures var batch := Pick(rows, published, locked, n);
      row in batch || (|batch| == n && forall i :: 0 <= i < |batch| ==> Earlier(batch[i], row))
  {
    var pending := Pending(rows, published + locked);
    OrderedSorts(rows);
    OrderedHasTheRows(rows, row);
    WithoutHasTheRest(Ordered(rows), published + locked, row);
    WithoutKeepsOrder(Ordered(rows), published + locked);
    var at :| 0 <= at < |pending| && pending[at] == row;
    if at < n { assert pending[..Min(n, |pending|)][at] == row; }
  }

  /** A batch, in so many words: rows that are neither published nor locked, by creation time and
      then id, and none of those left behind is older than any of them unless the batch is full. */
  lemma PickIsOldest(rows: seq<OutboxRow>, published: set<nat>, locked: set<nat>, n: nat)
    ensures var batch := Pick(rows, published, locked, n);
      && |batch| <= n
      && (forall i, j :: 0 <= i < j < |batch| ==> CreatedBefore(batch[i], batch[j]))
      && (forall row :: row in batch ==> row in rows && row.id !in published && row.id !in locked)
      && (forall row :: row in rows && row.id !in published && row.id !in locked && row !in batch ==>
            |batch| == n && forall i :: 0 <= i < |batch| ==> CreatedBefore(batch[i], row))
  {
    var batch, pending := Pick(rows, published, locked, n), Pending(rows, published + locked);
    OrderedSorts(rows);
    WithoutKeepsOrder(Ordered(rows), published + locked);
    forall i, j | 0 <= i < j < |batch| ensures CreatedBefore(batch[i], batch[j]) {
      assert Earlier(pending[i], pending[j]);
    }
    forall row | row in batch ensures row in rows && row.id !in published && row.id !in locked {
      OrderedHasTheRows(rows, row);
      WithoutHasTheRest(Ordered(rows), published + locked, row);
    }
    forall row | row in rows && row.id !in published && row.id !in locked && row !in batch
      ensures |batch| == n && forall i :: 0 <= i < |batch| ==> CreatedBefore(batch[i], row)
    {
      NoRowIsPassedOver(rows, published, locked, n, row);
    }
  }

  /** The older row, the smaller id between rows of one age. */
  predicate CreatedBefore(a: OutboxRow, b: OutboxRow) {
    if a.createdAt == b.createdAt then a.id <= b.id else a.createdAt < b.createdAt
  }

  // ---------------------------------------------------------------- one pass

  /** How often publishing row `id` failed. */
  function Failures(rows: seq<OutboxRow>, confirm: OutboxRow -> bool, id: nat): nat {
    if rows == [] then 0
    else
      var last := rows[|rows| - 1];
      Failures(rows[..|rows| - 1], confirm, id) + if last.id == id && !confirm(last) then 1 else 0
  }

  datatype RelayStats = RelayStats(picked: nat, published: nat, marked: nat, failed: nat)

  function Attempts(attempts: map<nat, nat>, id: nat): nat {
    if id in attempts then attempts[id] else 0
  }

  /** What one more row adds to the counts of a pass. */
  lemma NextRow(batch: seq<OutboxRow>, i: nat, confirm: OutboxRow -> bool)
    requires i < |batch|
    ensures var before, after := Confirmed(batch[..i], confirm), Confirmed(batch[..i + 1], confirm);
      && |after| == |before| + (if confirm(batch[i]) then 1 else 0)
      && IdsOf(after) == IdsOf(before) + (if confirm(batch[i]) then {batch[i].id} else {})
      && EventsOf(after) == EventsOf(before) + (if confirm(batch[i]) then [batch[i].event] else [])
    ensures forall id ::
      Failures(batch[..i + 1], confirm, id)
      == Failures(batch[..i], confirm, id) + (if batch[i].id == id && !confirm(batch[i]) then 1 else 0)
  {
    assert batch[..i + 1][..i] == batch[..i];
    IdsOfConcat(Confirmed(batch[..i], confirm), [batch[i]]);
    EventsOfConcat(Confirmed(batch[..i], confirm), [batch[i]]);
  }

  predicate Throws(row: OutboxRow, confirm: OutboxRow -> bool, hookThrows: OutboxRow -> bool) {
    confirm(row) && hookThrows(row)
  }

  predicate NoneThrows(rows: seq<OutboxRow>, confirm: OutboxRow -> bool, hookThrows: OutboxRow -> bool) {
    forall i :: 0 <= i < |rows| ==> !Throws(rows[i], confirm, hookThrows)
  }

  /** The books of a pass over `rows`: every row was either published and marked or failed and
      counted, each in its turn, and nothing else changed. */
  ghost predicate Tally(rows: seq<OutboxRow>, confirm: OutboxRow -> bool,
                        published0: set<nat>, attempts0: map<nat, nat>, sent0: seq<Event>,
                        published: set<nat>, attempts: map<nat, nat>, sent: seq<Event>, stats: RelayStats) {
    && stats.published + stats.failed == |rows|
    && stats.marked == stats.published == |Confirmed(rows, confirm)|
    && published == published0 + IdsOf(Confirmed(rows, confirm))
    && sent == sent0 + EventsOf(Confirmed(rows, confirm))
    && forall id :: Attempts(attempts, id) == Attempts(attempts0, id) + Failures(rows, confirm, id)
  }

  lemma TallyPublished(batch: seq<OutboxRow>, i: nat, confirm: OutboxRow -> bool,
                       published0: set<nat>, attempts0: map<nat, nat>, sent0: seq<Event>,
                       published: set<nat>, attempts: map<nat, nat>, sent: seq<Event>,
                       stats: RelayStats, stats': RelayStats)
    requires i < |batch| && confirm(batch[i])
    requires Tally(batch[..i], confirm, published0, attempts0, sent0, published, attempts, sent, stats)
    requires stats' == stats.(published := stats.published + 1, marked := stats.marked + 1)
    ensures Tally(batch[..i + 1], confirm, published0, attempts0, sent0, published + {batch[i].id}, attempts,
                  sent + [batch[i].event], stats')
  {
    NextRow(batch, i, confirm);
    var rows := batch[..i + 1];
    assert published + {batch[i].id} == published0 + IdsOf(Confirmed(rows, confirm));
    assert sent + [batch[i].event] == sent0 + EventsOf(Confirmed(rows, confirm));
    forall id
      ensures Attempts(attempts, id) == Attempts(attempts0, id) + Failures(rows, confirm, id)
    {
      assert Failures(rows, confirm, id) == Failures(batch[..i], confirm, id);
    }
  }

  lemma TallyFailed(batch: seq<OutboxRow>, i: nat, confirm: OutboxRow -> bool,
                    published0: set<nat>, attempts0: map<nat, nat>, sent0: seq<Event>,
                    published: set<nat>, attempts: map<nat, nat>, sent: seq<Event>, stats: RelayStats)
    requires i < |batch| && !confirm(batch[i])
    requires Tally(batch[..i], confirm, published0, attempts0, sent0, published, attempts, sent, stats)
    ensures Tally(batch[..i + 1], confirm, published0, attempts0, sent0, published,
                  attempts[batch[i].id := Attempts(attempts, batch[i].id) + 1], sent,
                  stats.(failed := stats.failed + 1))
  {
    NextRow(batch, i, confirm);
    var row, attempts' := batch[i], attempts[batch[i].id := Attempts(attempts, batch[i].id) + 1];
    forall id
      ensures Attempts(attempts', id) == Attempts(attempts0, id) + Failures(batch[..i + 1], confirm, id)
    {
      assert Attempts(attempts', id) == Attempts(attempts, id) + if id == row.id then 1 else 0;
    }
  }

  function Always(row: OutboxRow): bool { true }

  function Never(row: OutboxRow): bool { false }

  lemma FullPass(batch: seq<OutboxRow>, published0: set<nat>, attempts0: map<nat, nat>, sent0: seq<Event>,
                 published: set<nat>, attempts: map<nat, nat>, sent: seq<Event>, r: Option<RelayStats>)
    requires PassEnds(batch, Always, Never, published0, attempts0, sent0, published, attempts, sent, r)
    ensures published == published0 + IdsOf(batch) && sent == sent0 + EventsOf(batch)
  {
    AllConfirmed(batch, Always);
  }

  lemma {:induction false} ConfirmedAre(rows: seq<OutboxRow>, confirm: OutboxRow -> bool, row: OutboxRow)
    ensures row in Confirmed(rows, confirm) <==> row in rows && confirm(row)
  {
    if rows != [] {
      var prefix, last := rows[..|rows| - 1], rows[|rows| - 1];
      ConfirmedAre(prefix, confirm, row);
      assert row in rows <==> row in prefix || row == last;
    }
  }

  lemma {:induction false} FailuresElsewhere(rows: seq<OutboxRow>, confirm: OutboxRow -> bool, id: nat)
    requires forall row :: row in rows ==> row.id != id
    ensures Failures(rows, confirm, id) == 0
  {
    if rows != [] { FailuresElsewhere(rows[..|rows| - 1], confirm, id); }
  }

  lemma {:induction false} FailuresOf(rows: seq<OutboxRow>, confirm: OutboxRow -> bool, i: nat)
    requires DistinctIds(rows) && i < |rows|
    ensures Failures(rows, confirm, rows[i].id) == if confirm(rows[i]) then 0 else 1
  {
    var prefix := rows[..|rows| - 1];
    if i < |prefix| {
      FailuresOf(prefix, confirm, i);
    } else {
      FailuresElsewhere(prefix, confirm, rows[i].id);
    }
  }

  /** What a committed pass means for each row: marked if and only if its publish was confirmed, one
      more attempt counted if and only if it was not; and nothing for the rows of no batch. */
  lemma PassMeans(batch: seq<OutboxRow>, confirm: OutboxRow -> bool, hookThrows: OutboxRow -> bool,
                  published0: set<nat>, attempts0: map<nat, nat>, sent0: seq<Event>,
                  published: set<nat>, attempts: map<nat, nat>, sent: seq<Event>, r: Option<RelayStats>, i: nat, other: nat)
    requires PassEnds(batch, confirm, hookThrows, published0, attempts0, sent0, published, attempts, sent, r) && r.Some?
    requires DistinctIds(batch) && i < |batch| && batch[i].id !in published0
    requires forall row :: row in batch ==> row.id != other
    ensures batch[i].id in published <==> confirm(batch[i])
    ensures Attempts(attempts, batch[i].id) == Attempts(attempts0, batch[i].id) + if confirm(batch[i]) then 0 else 1
    ensures confirm(batch[i]) ==> batch[i].event in sent[|sent0|..]
    ensures (other in published <==> other in published0) && Attempts(attempts, other) == Attempts(attempts0, other)
  {
    var confirmed := Confirmed(batch, confirm);
    ConfirmedAre(batch, confirm, batch[i]);
    FailuresOf(batch, confirm, i);
    FailuresElsewhere(batch, confirm, other);
    forall row | row in confirmed ensures row.id != other && (row.id == batch[i].id ==> row == batch[i]) {
      ConfirmedAre(batch, confirm, row);
    }
    if confirm(batch[i]) {
      var k :| 0 <= k < |confirmed| && confirmed[k] == batch[i];
      assert sent[|sent0|..] == EventsOf(confirmed) && EventsOf(confirmed)[k] == batch[i].event;
    }
  }

  /** How a pass over `batch` ends: it throws exactly if the hook throws for a published row, and
      then only what was sent up to that row remains; otherwise the books are complete. */
  ghost predicate PassEnds(batch: seq<OutboxRow>, confirm: OutboxRow -> bool, hookThrows: OutboxRow -> bool,
                           published0: set<nat>, attempts0: map<nat, nat>, sent0: seq<Event>,
                           published: set<nat>, attempts: map<nat, nat>, sent: seq<Event>, r: Option<RelayStats>) {
    && (r.None? <==> exists i :: 0 <= i < |batch| && Throws(batch[i], confirm, hookThrows))
    && (r.Some? ==>
          && r.value.picked == |batch|
          && Tally(batch, confirm, published0, attempts0, sent0, published, attempts, sent, r.value))
    && (r.None? ==>
          && published == published0 && attempts == attempts0
          && exists k :: 0 <= k < |batch| && Throws(batch[k], confirm, hookThrows)
               && NoneThrows(batch[..k], confirm, hookThrows)
               && sent == sent0 + EventsOf(Confirmed(batch[..k + 1], confirm)))
  }

  lemma PassThrown(batch: seq<OutboxRow>, i: nat, confirm: OutboxRow -> bool, hookThrows: OutboxRow -> bool,
                   published0: set<nat>, attempts0: map<nat, nat>, sent0: seq<Event>, sent: seq<Event>)
    requires i < |batch| && Throws(batch[i], confirm, hookThrows) && NoneThrows(batch[..i], confirm, hookThrows)
    requires sent == sent0 + EventsOf(Confirmed(batch[..i + 1], confirm))
    ensures PassEnds(batch, confirm, hookThrows, published0, attempts0, sent0, published0, attempts0, sent, None)
  {
  }

  lemma PassCompleted(batch: seq<OutboxRow>, confirm: OutboxRow -> bool, hookThrows: OutboxRow -> bool,
                      published0: set<nat>, attempts0: map<nat, nat>, sent0: seq<Event>,
                      published: set<nat>, attempts: map<nat, nat>, sent: seq<Event>, stats: RelayStats)
    requires NoneThrows(batch[..|batch|], confirm, hookThrows) && stats.picked == |batch|
    requires Tally(batch, confirm, published0, attempts0, sent0, published, attempts, sent, stats)
    ensures PassEnds(batch, confirm, hookThrows, published0, attempts0, sent0, published, attempts, sent, Some(stats))
  {
    assert batch[..|batch|] == batch;
  }

  lemma NothingTallied(batch: seq<OutboxRow>, confirm: OutboxRow -> bool,
                       published: set<nat>, attempts: map<nat, nat>, sent: seq<Event>)
    ensures Tally(batch[..0], confirm, published, attempts, sent, published, attempts, sent, RelayStats(|batch|, 0, 0, 0))
  {
  }

  class OutboxRelay {
    const rows: seq<OutboxRow>
    var published: set<nat>        // ids with published_at set
    var attempts: map<nat, nat>
    var sent: seq<Event>           // what the publisher confirmed; a rollback cannot unsend it

    constructor (rows: seq<OutboxRow>)
      ensures this.rows == rows && published == {} && sent == []
    {
      this.rows := rows;
      published, attempts, sent := {}, map[], [];
    }

    /** One row of a pass: published, then marked, or counted as failed. `thrown` says that the hook
        between publish and mark threw. */
    method RelayRow(batch: seq<OutboxRow>, i: nat, confirm: OutboxRow -> bool, hookThrows: OutboxRow -> bool,
                    ghost published0: set<nat>, ghost attempts0: map<nat, nat>, ghost sent0: seq<Event>,
                    marks: set<nat>, tries: map<nat, nat>, stats: RelayStats)
      returns (marks': set<nat>, tries': map<nat, nat>, stats': RelayStats, thrown: bool)
      requires i < |batch|
      requires Tally(batch[..i], confirm, published0, attempts0, sent0, marks, tries, sent, stats)
      modifies this`sent
      ensures thrown <==> Throws(batch[i], confirm, hookThrows)
      ensures !thrown ==>
        && Tally(batch[..i + 1], confirm, published0, attempts0, sent0, marks', tries', sent, stats')
        && stats'.picked == stats.picked
      ensures thrown ==> sent == sent0 + EventsOf(Confirmed(batch[..i + 1], confirm))
    {
      var row := batch[i];
      marks', tries', stats', thrown := marks, tries, stats, false;
      if confirm(row) {
        TallyPublished(batch, i, confirm, published0, attempts0, sent0, marks, tries, sent, stats,
                       stats.(published := stats.published + 1, marked := stats.marked + 1));
        sent := sent + [row.event];
        stats' := stats'.(published := stats.published + 1);
        if hookThrows(row) { return marks', tries', stats', true; }
        marks' := marks' + {row.id};
        stats' := stats'.(marked := stats.marked + 1);
      } else {
        TallyFailed(batch, i, confirm, published0, attempts0, sent0, marks, tries, sent, stats);
        stats' := stats'.(failed := stats.failed + 1);
        tries' := tries'[row.id := Attempts(tries, row.id) + 1];
      }
    }

    /** The rows of a batch in turn, up to one for which the hook throws; `done` were gone through. */
    method RelayRows(batch: seq<OutboxRow>, confirm: OutboxRow -> bool, hookThrows: OutboxRow -> bool)
      returns (marks: set<nat>, tries: map<nat, nat>, stats: RelayStats, done: nat)
      modifies this`sent
      ensures done <= |batch| && NoneThrows(batch[..done], confirm, hookThrows)
      ensures done < |batch| ==>
        && Throws(batch[done], confirm, hookThrows)
        && sent == old(sent) + EventsOf(Confirmed(batch[..done + 1], confirm))
      ensures done == |batch| ==>
        && stats.picked == |batch|
        && Tally(batch, confirm, published, attempts, old(sent), marks, tries, sent, stats)
    {
      stats := RelayStats(|batch|, 0, 0, 0);
      marks, tries := published, attempts;  // this transaction's writes
      NothingTallied(batch, confirm, published, attempts, sent);
      done := 0;
      while done < |batch|
        invariant 0 <= done <= |batch| && NoneThrows(batch[..done], confirm, hookThrows)
        invariant stats.picked == |batch|
        invariant Tally(batch[..done], confirm, published, attempts, old(sent), marks, tries, sent, stats)
      {
        var thrown;
        marks, tries, stats, thrown := RelayRow(batch, done, confirm, hookThrows, published, attempts, old(sent),
                                                marks, tries, stats);
        if thrown { return; }
        assert batch[..done + 1] == batch[..done] + [batch[done]];
        done := done + 1;
      }
      assert batch[..done] == batch;
    }

    /** One pass, alone. `confirm` says whether publishing a row succeeds, `hookThrows` whether
        the hook between publish and mark throws for it; then the pass throws, the marks and
        counts of every row in the batch are rolled back, and what was sent stays sent. */
    method RelayOnce(batchSize: nat, confirm: OutboxRow -> bool, hookThrows: OutboxRow -> bool)
      returns (r: Option<RelayStats>)
      modifies this
      ensures PassEnds(Pick(rows, old(published), {}, batchSize), confirm, hookThrows,
                       old(published), old(attempts), old(sent), published, attempts, sent, r)
    {
      var batch := Pick(rows, published, {}, batchSize);
      var marks, tries, stats, done := RelayRows(batch, confirm, hookThrows);
      if done < |batch| {
        PassThrown(batch, done, confirm, hookThrows, published, attempts, old(sent), sent);
        return None;
      }
      PassCompleted(batch, confirm, hookThrows, published, attempts, old(sent), marks, tries, sent, stats);
      published, attempts := marks, tries;
      return Some(stats);
    }

    /** The polling loop, stopped after some number of passes, with a publisher that never
        fails and no hook: the rows leave in order, a full batch a pass, and the queue is empty
        after ceil(pending / batch) passes and not before. */
    method RunRelay(batchSize: nat, passes: nat)
      requires DistinctIds(rows)
      modifies this
      ensures Drained(rows, old(published), old(sent), published, sent, passes * batchSize)
      ensures batchSize > 0 ==>
        (Pending(rows, published) == [] <==> passes >= PassesFor(|Pending(rows, old(published))|, batchSize))
    {
      Poll(batchSize, passes);
      if batchSize > 0 { DrainTakes(rows, old(published), old(sent), published, sent, batchSize, passes); }
    }

    method NextPass(ghost published0: set<nat>, ghost sent0: seq<Event>, ghost quota: nat, batchSize: nat)
      requires DistinctIds(rows) && Drained(rows, published0, sent0, published, sent, quota)
      modifies this
      ensures Drained(rows, published0, sent0, published, sent, quota + batchSize)
    {
      ghost var before, attempts0, sentBefore := published, attempts, sent;
      var stats := RelayOnce(batchSize, Always, Never);
      PassDrains(rows, published0, sent0, before, attempts0, sentBefore,
                 published, attempts, sent, stats, quota, batchSize);
    }

    method Poll(batchSize: nat, passes: nat)
      requires DistinctIds(rows)
      modifies this
      ensures Drained(rows, old(published), old(sent), published, sent, passes * batchSize)
    {
      var pass := 0;
      NothingDrained(rows, published, sent);
      while pass < passes
        invariant 0 <= pass <= passes
        invariant Drained(rows, old(published), old(sent), published, sent, pass * batchSize)
      {
        NextPass(old(published), old(sent), pass * batchSize, batchSize);
        assert (pass + 1) * batchSize == pass * batchSize + batchSize;
        pass := pass + 1;
      }
    }
  }

  /** ceil(n / batchSize). */
  ghost function PassesFor(n: nat, batchSize: nat): nat
    requires batchSize > 0
  {
    (n + batchSize - 1) / batchSize
  }

  /** The first `quota` pending rows have been sent, in order, and marked. */
  ghost predicate Drained(rows: seq<OutboxRow>, published0: set<nat>, sent0: seq<Event>,
                          published: set<nat>, sent: seq<Event>, quota: nat) {
    var pending := Pending(rows, published0);
    var n := Min(quota, |pending|);
    && sent == sent0 + EventsOf(pending[..n])
    && published == published0 + IdsOf(pending[..n])
    && Pending(rows, published) == pending[n..]
  }

  lemma DrainsOn(rows: seq<OutboxRow>, published0: set<nat>, sent0: seq<Event>,
                 published: set<nat>, sent: seq<Event>, quota: nat, batchSize: nat)
    requires DistinctIds(rows) && Drained(rows, published0, sent0, published, sent, quota)
    ensures var batch := Pick(rows, published, {}, batchSize);
      Drained(rows, published0, sent0, published + IdsOf(batch), sent + EventsOf(batch), quota + batchSize)
  {
    var pending := Pending(rows, published0);
    var n, n' := Min(quota, |pending|), Min(quota + batchSize, |pending|);
    assert Pending(rows, published) == pending[n..];
    var batch := NextBatch(rows, published, pending, n, n', batchSize);
    Slices(pending, n, n');
    Associate(published0, IdsOf(pending[..n]), IdsOf(batch), sent0, EventsOf(pending[..n]), EventsOf(batch));
    DrainedBy(rows, published0, sent0, published + IdsOf(batch), sent + EventsOf(batch), quota + batchSize, pending[..n']);
  }

  lemma DrainedBy(rows: seq<OutboxRow>, published0: set<nat>, sent0: seq<Event>,
                  published: set<nat>, sent: seq<Event>, quota: nat, taken: seq<OutboxRow>)
    requires DistinctIds(rows)
    requires taken == Pending(rows, published0)[..Min(quota, |Pending(rows, published0)|)]
    requires sent == sent0 + EventsOf(taken) && published == published0 + IdsOf(taken)
    ensures Drained(rows, published0, sent0, published, sent, quota)
  {
    MarkedLeaveTheQueue(rows, published0, |taken|);
  }

  lemma Associate(a: set<nat>, b: set<nat>, c: set<nat>, x: seq<Event>, y: seq<Event>, z: seq<Event>)
    ensures (a + b) + c == a + (b + c) && (x + y) + z == x + (y + z)
  {
  }

  lemma NextBatch(rows: seq<OutboxRow>, published: set<nat>, pending: seq<OutboxRow>, n: nat, n': nat, batchSize: nat)
    returns (batch: seq<OutboxRow>)
    requires n <= n' <= |pending| && Pending(rows, published) == pending[n..]
    requires n' - n == Min(batchSize, |pending| - n)
    ensures batch == Pick(rows, published, {}, batchSize) == pending[n..][..n' - n]
  {
    assert published + {} == published;
    batch := Pick(rows, published, {}, batchSize);
  }

  lemma Slices(pending: seq<OutboxRow>, n: nat, n': nat)
    requires n <= n' <= |pending|
    ensures IdsOf(pending[..n']) == IdsOf(pending[..n]) + IdsOf(pending[n..][..n' - n])
    ensures EventsOf(pending[..n']) == EventsOf(pending[..n]) + EventsOf(pending[n..][..n' - n])
  {
    var done, batch := pending[..n], pending[n..][..n' - n];
    assert pending[..n'] == done + batch;
    IdsOfConcat(done, batch);
    EventsOfConcat(done, batch);
  }

  lemma NothingDrained(rows: seq<OutboxRow>, published: set<nat>, sent: seq<Event>)
    ensures Drained(rows, published, sent, published, sent, 0)
  {
    assert IdsOf([]) == {};
    assert EventsOf([]) == [];
  }

  lemma PassDrains(rows: seq<OutboxRow>, published0: set<nat>, sent0: seq<Event>,
                   before: set<nat>, attemptsBefore: map<nat, nat>, sentBefore: seq<Event>,
                   after: set<nat>, attempts: map<nat, nat>, sent: seq<Event>, r: Option<RelayStats>,
                   quota: nat, batchSize: nat)
    requires DistinctIds(rows) && Drained(rows, published0, sent0, before, sentBefore, quota)
    requires PassEnds(Pick(rows, before, {}, batchSize), Always, Never,
                      before, attemptsBefore, sentBefore, after, attempts, sent, r)
    ensures Drained(rows, published0, sent0, after, sent, quota + batchSize)
  {
    FullPass(Pick(rows, before, {}, batchSize), before, attemptsBefore, sentBefore, after, attempts, sent, r);
    DrainsOn(rows, published0, sent0, before, sentBefore, quota, batchSize);
  }

  lemma {:induction false} AllConfirmed(rows: seq<OutboxRow>, confirm: OutboxRow -> bool)
    requires forall row :: confirm(row)
    ensures Confirmed(rows, confirm) == rows
  {
    if rows != [] { AllConfirmed(rows[..|rows| - 1], confirm); }
  }

  lemma CeilingOfPasses(n: nat, batchSize: nat, passes: nat)
    requires batchSize > 0
    ensures Min(passes * batchSize, n) == n <==> passes >= PassesFor(n, batchSize)
  {
    var need := PassesFor(n, batchSize);
    var rest := (n + batchSize - 1) % batchSize;
    assert need * batchSize == n + batchSize - 1 - rest;
    assert passes >= need ==> passes * batchSize >= need * batchSize;
    assert passes < need ==> passes * batchSize <= (need - 1) * batchSize;
    assert (need - 1) * batchSize == need * batchSize - batchSize;
  }

  /** The queue is empty after ceil(pending / batch) passes and not before. */
  lemma DrainTakes(rows: seq<OutboxRow>, published0: set<nat>, sent0: seq<Event>,
                   published: set<nat>, sent: seq<Event>, batchSize: nat, passes: nat)
    requires batchSize > 0 && Drained(rows, published0, sent0, published, sent, passes * batchSize)
    ensures Pending(rows, published) == [] <==> passes >= PassesFor(|Pending(rows, published0)|, batchSize)
  {
    var n := |Pending(rows, published0)|;
    CeilingOfPasses(n, batchSize, passes);
    assert |Pending(rows, published)| == n - Min(passes * batchSize, n);
  }
}
