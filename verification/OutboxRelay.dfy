/**
 * libs/events/src/outbox-relay.service.ts: one tick takes the oldest unsent outbox rows,
 * publishes each and then marks it sent, and gives up at the first error.
 */
module OutboxRelay {
  import opened StableSort
  import opened Sums

  datatype OutboxRow = OutboxRow(id: string, createdAt: int, sent: bool)

  const BATCH_SIZE := 100

  /** How a tick ends: at the row after `done` rows, before or after that row was published. */
  datatype Outcome =
    | Complete
    | PublishFails(done: nat)
    | SaveFails(done: nat)

  function Unsent(rows: seq<OutboxRow>): nat -> bool {
    (i: nat) => i < |rows| && !rows[i].sent
  }

  function CreatedAt(rows: seq<OutboxRow>): nat -> real {
    (i: nat) => if i < |rows| then rows[i].createdAt as real else 0.0
  }

  function Indices(n: nat): seq<nat> {
    seq(n, i => i)
  }

  /** Every unsent row, by creation time. */
  function Pending(rows: seq<OutboxRow>): seq<nat> {
    Sort(Filter(Indices(|rows|), Unsent(rows)), CreatedAt(rows))
  }

  /** The rows a tick reads: the oldest unsent ones, at most a batch of them. */
  function Batch(rows: seq<OutboxRow>): (b: seq<nat>)
    ensures |b| <= BATCH_SIZE
  {
    var p := Pending(rows);
    if |p| <= BATCH_SIZE then p else p[..BATCH_SIZE]
  }

  function MarkSent(rows: seq<OutboxRow>, batch: seq<nat>): (r: seq<OutboxRow>)
    ensures |r| == |rows|
  {
    seq(|rows|, i requires 0 <= i < |rows| => if i in batch then rows[i].(sent := true) else rows[i])
  }

  function Min(a: nat, b: nat): nat {
    if a < b then a else b
  }

  /** How many rows of the batch a tick marks, and how many it publishes. */
  function Marked(batch: seq<nat>, o: Outcome): (n: nat)
    ensures n <= |batch|
  {
    match o
    case Complete => |batch|
    case PublishFails(k) => Min(k, |batch|)
    case SaveFails(k) => Min(k, |batch|)
  }

  function PublishedCount(batch: seq<nat>, o: Outcome): (n: nat)
    ensures Marked(batch, o) <= n <= |batch|
  {
    if o.SaveFails? && o.done < |batch| then o.done + 1 else Marked(batch, o)
  }

  /** The table after a tick, and the rows it published, by index, in order. */
  function AfterTick(rows: seq<OutboxRow>, o: Outcome): seq<OutboxRow> {
    MarkSent(rows, Batch(rows)[..Marked(Batch(rows), o)])
  }

  function PublishedBy(rows: seq<OutboxRow>, o: Outcome): seq<nat> {
    Batch(rows)[..PublishedCount(Batch(rows), o)]
  }

  lemma MarkNext(rows: seq<OutboxRow>, batch: seq<nat>, k: nat)
    requires k < |batch| && batch[k] < |rows|
    ensures MarkSent(rows, batch[..k + 1])
         == MarkSent(rows, batch[..k])[batch[k] := MarkSent(rows, batch[..k])[batch[k]].(sent := true)]
  {
    assert batch[..k + 1] == batch[..k] + [batch[k]];
  }

  class OutboxRelayService {
    var rows: seq<OutboxRow>
    var running: bool
    /** Rows handed to the bus, by index, in order. */
    var published: seq<nat>

    constructor (rows: seq<OutboxRow>)
      ensures this.rows == rows && !running && published == []
    {
      this.rows := rows;
      running, published := false, [];
    }

    /** A tick that overlaps another does nothing; any other marks and publishes a prefix of its batch. */
    method Tick(outcome: Outcome)
      modifies this
      ensures old(running) ==> rows == old(rows) && published == old(published) && running
      ensures !old(running) ==>
        !running && rows == AfterTick(old(rows), outcome) && published == old(published) + PublishedBy(old(rows), outcome)
    {
      if running {
        return;
      }
      running := true;
      PendingIsUnsent(rows);
      Relay(Batch(rows), outcome);
      running := false;
    }

    /** The loop of the try block. */
    method Relay(pending: seq<nat>, outcome: Outcome)
      requires forall j :: 0 <= j < |pending| ==> pending[j] < |rows|
      modifies this`rows, this`published
      ensures rows == MarkSent(old(rows), pending[..Marked(pending, outcome)])
      ensures published == old(published) + pending[..PublishedCount(pending, outcome)]
    {
      var k := 0;
      while k < |pending|
        invariant 0 <= k <= Marked(pending, outcome)
        invariant |rows| == |old(rows)| && rows == MarkSent(old(rows), pending[..k])
        invariant published == old(published) + pending[..k]
      {
        if outcome == PublishFails(k) {
          return;
        }
        published := published + [pending[k]];
        if outcome == SaveFails(k) {
          return;
        }
        MarkNext(old(rows), pending, k);
        rows := rows[pending[k] := rows[pending[k]].(sent := true)];
        k := k + 1;
      }
    }
  }

  // ---------------------------------------------------------------- main results

  lemma PendingIsUnsent(rows: seq<OutboxRow>)
    ensures forall k :: 0 <= k < |Pending(rows)| ==> Pending(rows)[k] < |rows| && !rows[Pending(rows)[k]].sent
    ensures forall i :: 0 <= i < |rows| && !rows[i].sent ==> i in Pending(rows)
  {
    var unsent, p := Filter(Indices(|rows|), Unsent(rows)), Pending(rows);
    forall k | 0 <= k < |p|
      ensures p[k] < |rows| && !rows[p[k]].sent
    {
      assert p[k] in multiset(p);
      assert p[k] in unsent;
    }
    forall i | 0 <= i < |rows| && !rows[i].sent
      ensures i in p
    {
      assert Indices(|rows|)[i] == i;
      assert i in unsent;
      assert i in multiset(unsent);
    }
  }

  lemma {:induction false} FilterListsOnce(xs: seq<nat>, p: nat -> bool)
    requires forall j, k :: 0 <= j < k < |xs| ==> xs[j] != xs[k]
    ensures forall j, k :: 0 <= j < k < |Filter(xs, p)| ==> Filter(xs, p)[j] != Filter(xs, p)[k]
  {
    if xs != [] {
      var n := |xs| - 1;
      FilterListsOnce(xs[..n], p);
      var r := Filter(xs[..n], p);
      forall j | 0 <= j < |r|
        ensures r[j] != xs[n]
      {
        assert r[j] in xs[..n];
      }
    }
  }

  lemma {:induction false} SameElementsListOnce(a: seq<nat>, b: seq<nat>)
    requires multiset(a) == multiset(b)
    requires forall j, k :: 0 <= j < k < |a| ==> a[j] != a[k]
    ensures forall j, k :: 0 <= j < k < |b| ==> b[j] != b[k]
  {
    forall x
      ensures multiset(b)[x] <= 1
    {
      OnceInDistinct(a, x);
    }
    forall j, k | 0 <= j < k < |b|
      ensures b[j] != b[k]
    {
      assert b == b[..k] + [b[k]] + b[k + 1..];
      assert b[..k][j] == b[j];
      assert multiset(b)[b[k]] <= 1;
    }
  }

  lemma {:induction false} OnceInDistinct(a: seq<nat>, x: nat)
    requires forall j, k :: 0 <= j < k < |a| ==> a[j] != a[k]
    ensures multiset(a)[x] <= 1
  {
    if a != [] {
      var n := |a| - 1;
      OnceInDistinct(a[..n], x);
      assert a == a[..n] + [a[n]];
      if a[n] == x {
        assert x !in a[..n];
      }
    }
  }

  lemma PendingListsOnce(rows: seq<OutboxRow>)
    ensures forall j, k :: 0 <= j < k < |Pending(rows)| ==> Pending(rows)[j] != Pending(rows)[k]
  {
    var unsent := Filter(Indices(|rows|), Unsent(rows));
    FilterListsOnce(Indices(|rows|), Unsent(rows));
    SameElementsListOnce(unsent, Pending(rows));
  }

  lemma PendingAscends(rows: seq<OutboxRow>, i: nat, j: nat)
    requires i <= j < |Pending(rows)|
    ensures CreatedAt(rows)(Pending(rows)[i]) <= CreatedAt(rows)(Pending(rows)[j])
  {
    SortSorted(Filter(Indices(|rows|), Unsent(rows)), CreatedAt(rows));
  }

  /** Oldest first: nothing a tick leaves unsent was created before anything it sends. */
  lemma TickSendsOldestFirst(rows: seq<OutboxRow>, outcome: Outcome, sent: nat, left: nat)
    requires var n := Marked(Batch(rows), outcome);
      && sent in Batch(rows)[..n] && left < |rows| && !rows[left].sent && left !in Batch(rows)[..n]
    ensures sent < |rows| && rows[sent].createdAt <= rows[left].createdAt
  {
    var p, n := Pending(rows), Marked(Batch(rows), outcome);
    PendingIsUnsent(rows);
    assert Batch(rows)[..n] == p[..n];
    var i :| 0 <= i < n && p[..n][i] == sent;
    var j :| 0 <= j < |p| && p[j] == left;
    assert i <= j by {
      assert forall k :: 0 <= k < n ==> p[..n][k] == p[k];
    }
    PendingAscends(rows, i, j);
  }

  /** Everything marked sent was published, and a tick that meets no error clears a small backlog. */
  lemma TickMarksOnlyPublished(rows: seq<OutboxRow>, outcome: Outcome)
    ensures var b := Batch(rows);
      && b[..Marked(b, outcome)] <= b[..PublishedCount(b, outcome)]
      && |b[..PublishedCount(b, outcome)]| <= |b[..Marked(b, outcome)]| + 1
    ensures outcome == Complete && |Pending(rows)| <= BATCH_SIZE ==>
      forall i :: 0 <= i < |rows| ==> MarkSent(rows, Batch(rows)[..Marked(Batch(rows), outcome)])[i].sent
  {
    PendingIsUnsent(rows);
    assert Batch(rows)[..|Batch(rows)|] == Batch(rows);
  }

  // ------------------------------------------------- how many rows a tick gets through

  function UnsentOne(): OutboxRow -> int {
    (r: OutboxRow) => if r.sent then 0 else 1
  }

  /** The backlog: how many rows are unsent. */
  function Backlog(rows: seq<OutboxRow>): int {
    Sum(rows, UnsentOne())
  }

  lemma {:induction false} PendingOfPrefix(rows: seq<OutboxRow>, n: nat)
    requires n <= |rows|
    ensures |Filter(Indices(n), Unsent(rows))| == Backlog(rows[..n])
  {
    if n > 0 {
      PendingOfPrefix(rows, n - 1);
      assert Indices(n)[..n - 1] == Indices(n - 1);
      assert rows[..n][..n - 1] == rows[..n - 1];
    }
  }

  lemma PendingIsBacklog(rows: seq<OutboxRow>)
    ensures |Pending(rows)| == Backlog(rows)
  {
    PendingOfPrefix(rows, |rows|);
    assert rows[..|rows|] == rows;
  }

  /** A list of unsent rows, each once. */
  ghost predicate FreshRows(rows: seq<OutboxRow>, batch: seq<nat>) {
    && (forall k :: 0 <= k < |batch| ==> batch[k] < |rows| && !rows[batch[k]].sent)
    && forall j, k :: 0 <= j < k < |batch| ==> batch[j] != batch[k]
  }

  lemma {:induction false} MarkingLowersBacklog(rows: seq<OutboxRow>, batch: seq<nat>, k: nat)
    requires k <= |batch| && FreshRows(rows, batch)
    ensures Backlog(MarkSent(rows, batch[..k])) == Backlog(rows) - k
  {
    if k == 0 {
      assert MarkSent(rows, batch[..0]) == rows;
    } else {
      MarkingLowersBacklog(rows, batch, k - 1);
      MarkNext(rows, batch, k - 1);
      var before := MarkSent(rows, batch[..k - 1]);
      assert batch[k - 1] !in batch[..k - 1];
      SumUpdate(before, batch[k - 1], before[batch[k - 1]].(sent := true), UnsentOne());
    }
  }

  lemma BatchIsFreshRows(rows: seq<OutboxRow>)
    ensures FreshRows(rows, Batch(rows))
    ensures |Batch(rows)| == if Backlog(rows) <= 100 then Backlog(rows) else 100
  {
    PendingIsUnsent(rows);
    PendingListsOnce(rows);
    PendingIsBacklog(rows);
  }

  /** How many of the rows it reads a tick gets through: all, or those before the one it stops at. */
  function Passed(due: int, o: Outcome): int {
    match o
    case Complete => due
    case PublishFails(k) => if k < due then k else due
    case SaveFails(k) => if k < due then k else due
  }

  predicate WasMarked(rows: seq<OutboxRow>, t: seq<OutboxRow>, i: nat) {
    i < |rows| == |t| && !rows[i].sent && t[i].sent
  }

  lemma MarkedArePublished(rows: seq<OutboxRow>, o: Outcome)
    ensures var t, pub := AfterTick(rows, o), PublishedBy(rows, o);
      FreshRows(rows, pub) && forall i: nat :: WasMarked(rows, t, i) ==> i in pub
  {
    var b := Batch(rows);
    BatchIsFreshRows(rows);
    forall i: nat | WasMarked(rows, AfterTick(rows, o), i)
      ensures i in PublishedBy(rows, o)
    {
      var k :| 0 <= k < Marked(b, o) && b[..Marked(b, o)][k] == i;
      assert PublishedBy(rows, o)[k] == i;
    }
  }

  /** What a tick marks it published, each row at most once, and nothing it leaves unsent is older than what it marks. */
  lemma TickMarksOldest(rows: seq<OutboxRow>, o: Outcome)
    ensures var t, pub := AfterTick(rows, o), PublishedBy(rows, o);
      && FreshRows(rows, pub) && (forall i: nat :: WasMarked(rows, t, i) ==> i in pub)
      && forall i: nat, j: nat :: WasMarked(rows, t, i) && j < |rows| && !t[j].sent ==> rows[i].createdAt <= rows[j].createdAt
  {
    MarkedArePublished(rows, o);
    forall i: nat, j: nat | WasMarked(rows, AfterTick(rows, o), i) && j < |rows| && !AfterTick(rows, o)[j].sent
      ensures rows[i].createdAt <= rows[j].createdAt
    {
      TickSendsOldestFirst(rows, o, i, j);
    }
  }

  /**
   * An undisturbed tick marks exactly the smaller of the backlog and 100, a tick stopped at row k the smaller
   * of k and that number, and nothing else of the table changes. It publishes as many, and one more if it is
   * the save that fails.
   */
  lemma TickMarksExactly(rows: seq<OutboxRow>, o: Outcome)
    ensures var t, pub := AfterTick(rows, o), PublishedBy(rows, o);
      var due := if Backlog(rows) <= 100 then Backlog(rows) else 100;
      && |t| == |rows| && Backlog(t) == Backlog(rows) - Passed(due, o)
      && (forall i :: 0 <= i < |rows| ==> t[i] == rows[i] || (!rows[i].sent && t[i] == rows[i].(sent := true)))
      && |pub| == Passed(due, o) + (if o.SaveFails? && o.done < due then 1 else 0)
  {
    var b := Batch(rows);
    BatchIsFreshRows(rows);
    MarkingLowersBacklog(rows, b, Marked(b, o));
    forall i | 0 <= i < |rows|
      ensures AfterTick(rows, o)[i] == rows[i] || (!rows[i].sent && AfterTick(rows, o)[i] == rows[i].(sent := true))
    {
      if i in b[..Marked(b, o)] {
        var k :| 0 <= k < Marked(b, o) && b[..Marked(b, o)][k] == i;
        assert b[k] == i;
      }
    }
  }

  /** The table after a number of ticks, as each of them ended. */
  function AfterTicks(rows: seq<OutboxRow>, ends: seq<Outcome>): seq<OutboxRow> {
    if ends == [] then rows else AfterTick(AfterTicks(rows, ends[..|ends| - 1]), ends[|ends| - 1])
  }

  lemma {:induction false} NoBacklogAllSent(rows: seq<OutboxRow>)
    ensures Backlog(rows) >= 0
    ensures Backlog(rows) == 0 <==> forall i :: 0 <= i < |rows| ==> rows[i].sent
  {
    SumIsNatural(rows, UnsentOne());
    if forall i :: 0 <= i < |rows| ==> rows[i].sent {
      SumOfEqual(rows, UnsentOne(), 0);
    }
  }

  /** Undisturbed ticks clear a backlog a hundred rows at a time: it is gone after n ticks exactly if it was at most 100 n. */
  lemma {:induction false} TicksClearBacklog(rows: seq<OutboxRow>, ends: seq<Outcome>)
    requires forall i :: 0 <= i < |ends| ==> ends[i] == Complete
    ensures var left := Backlog(rows) - 100 * |ends|;
      Backlog(AfterTicks(rows, ends)) == if left > 0 then left else 0
    ensures (forall i :: 0 <= i < |AfterTicks(rows, ends)| ==> AfterTicks(rows, ends)[i].sent) <==> Backlog(rows) <= 100 * |ends|
  {
    NoBacklogAllSent(AfterTicks(rows, ends));
    if ends == [] {
    } else {
      TicksClearBacklog(rows, ends[..|ends| - 1]);
      TickMarksExactly(AfterTicks(rows, ends[..|ends| - 1]), Complete);
    }
  }
}
