/**
 The transactional outbox: rows in order of creation, published in ticks of at most one batch, each row
 attempted until it is published or has failed its number of retries.
 */
module Outbox {
  const BATCH: int := 100
  const MAX_RETRIES: nat := 3

  datatype RowStatus = Pending | Processing | Published | Failed

  datatype Row = Row(status: RowStatus, retryCount: nat, maxRetries: nat)

  const FRESH := Row(Pending, 0, MAX_RETRIES)

  /** A row after an attempt that published it, or that failed somewhere on the way. */
  function Attempt(r: Row, succeeds: bool): Row {
    if succeeds then r.(status := Published)
    else if r.retryCount + 1 >= r.maxRetries then r.(status := Failed, retryCount := r.retryCount + 1)
    else r.(status := Pending, retryCount := r.retryCount + 1)
  }

  function PendingCount(rows: seq<Row>): nat {
    if rows == [] then 0
    else PendingCount(rows[..|rows| - 1]) + if rows[|rows| - 1].status == Pending then 1 else 0
  }

  /** Row `j` is among the oldest pending rows that make up the next batch. */
  predicate InBatch(rows: seq<Row>, j: nat)
    requires j < |rows|
  {
    rows[j].status == Pending && PendingCount(rows[..j]) < BATCH
  }

  /** One tick; `succeeds` holds the rows whose attempt would succeed. */
  function Tick(rows: seq<Row>, succeeds: set<nat>): seq<Row> {
    seq(|rows|, j requires 0 <= j < |rows| => if InBatch(rows, j) then Attempt(rows[j], j in succeeds) else rows[j])
  }

  // ---------------------------------------------------------------- the service

  /** The query for pending rows in order of creation: their ids, at most `take` of them. */
  function PendingIds(rows: seq<Row>, take: nat): (ids: seq<nat>)
    ensures forall i :: 0 <= i < |ids| ==> ids[i] < |rows|
  {
    if rows == [] then []
    else
      var n := |rows| - 1;
      var ids := PendingIds(rows[..n], take);
      if rows[n].status == Pending && |ids| < take then ids + [n] else ids
  }

  lemma {:induction false} PendingIdsAreTheBatch(rows: seq<Row>)
    ensures |PendingIds(rows, BATCH)| == if PendingCount(rows) < BATCH then PendingCount(rows) else BATCH
    ensures forall j: nat :: j in PendingIds(rows, BATCH) <==> j < |rows| && InBatch(rows, j)
    ensures forall i, j :: 0 <= i < j < |PendingIds(rows, BATCH)| ==>
            PendingIds(rows, BATCH)[i] < PendingIds(rows, BATCH)[j]
  {
    if rows != [] {
      var n := |rows| - 1;
      PendingIdsAreTheBatch(rows[..n]);
      forall j: nat | j < n ensures InBatch(rows[..n], j) == InBatch(rows, j) {
        assert rows[..n][..j] == rows[..j];
      }
    }
  }

  class OutboxService {
    var rows: seq<Row>

    constructor ()
      ensures rows == []
    {
      rows := [];
    }

    method StoreEvent() returns (id: nat)
      modifies this
      ensures rows == old(rows) + [FRESH] && id == |old(rows)|
    {
      id := |rows|;
      rows := rows + [FRESH];
    }

    method MoveToDeadLetterQueue(id: nat)
      requires id < |rows|
      modifies this
      ensures rows == old(rows)[id := old(rows)[id].(status := Failed)]
    {
      rows := rows[id := rows[id].(status := Failed)];
    }

    method PublishEvent(id: nat, succeeds: bool)
      requires id < |rows|
      modifies this
      ensures rows == old(rows)[id := Attempt(old(rows)[id], succeeds)]
      ensures rows[id].status == Published && rows[id].retryCount == old(rows)[id].retryCount <==> succeeds
      ensures !succeeds ==>
                && rows[id].retryCount == old(rows)[id].retryCount + 1
                && rows[id].status == if rows[id].retryCount >= rows[id].maxRetries then Failed else Pending
    {
      var event := rows[id];
      rows := rows[id := event.(status := Processing)];
      if succeeds {
        rows := rows[id := rows[id].(status := Published)];
      } else {
        var newRetryCount := event.retryCount + 1;
        rows := rows[id := event.(status := Pending, retryCount := newRetryCount)];
        if newRetryCount >= event.maxRetries {
          MoveToDeadLetterQueue(id);
        }
      }
    }

    method PublishPendingEvents(succeeds: set<nat>)
      modifies this
      ensures rows == Tick(old(rows), succeeds)
      ensures forall j: nat :: j < |rows| && InBatch(old(rows), j) ==>
                (rows[j].status == Published && rows[j].retryCount == old(rows)[j].retryCount <==> j in succeeds)
      ensures forall j: nat :: j < |rows| && !InBatch(old(rows), j) ==> rows[j] == old(rows)[j]
    {
      var pendingEvents := PendingIds(rows, BATCH);
      PendingIdsAreTheBatch(rows);
      for i := 0 to |pendingEvents|
        invariant |rows| == |old(rows)|
        invariant forall j :: 0 <= j < |rows| ==>
                    rows[j] == if j in pendingEvents[..i] then Attempt(old(rows)[j], j in succeeds) else old(rows)[j]
      {
        PublishEvent(pendingEvents[i], pendingEvents[i] in succeeds);
        assert pendingEvents[..i + 1] == pendingEvents[..i] + [pendingEvents[i]];
      }
      assert pendingEvents[..|pendingEvents|] == pendingEvents;
    }
  }

  /** What a tick leaves of a row: one outside the batch is as it was; one in the batch is published, with its
      retries as they were, exactly when its publication succeeds, and has else spent one try and failed exactly when
      that was its last. */
  lemma TickPublishesExactly(rows: seq<Row>, succeeds: set<nat>, after: seq<Row>, j: nat)
    requires after == Tick(rows, succeeds) && j < |rows|
    ensures |after| == |rows| && after[j].maxRetries == rows[j].maxRetries
    ensures rows[j].status == Pending && PendingCount(rows[..j]) < 100 ==>
              && (after[j].status == Published && after[j].retryCount == rows[j].retryCount <==> j in succeeds)
              && (j !in succeeds ==>
                    && after[j].retryCount == rows[j].retryCount + 1
                    && after[j].status == if after[j].retryCount >= rows[j].maxRetries then Failed else Pending)
    ensures !(rows[j].status == Pending && PendingCount(rows[..j]) < 100) ==> after[j] == rows[j]
  {}

  /** A stored event has three tries. */
  lemma ThreeTries(after: seq<Row>)
    requires after == AfterRounds([FRESH], [Round({}, []), Round({}, []), Round({}, [])])
    ensures after == [Row(Failed, 3, 3)]
    ensures AfterRounds([FRESH], [Round({}, []), Round({}, [])]) == [Row(Pending, 2, 3)]
  {
    var none := Round({}, []);
    OneAlone(0);
    OneAlone(1);
    OneAlone(2);
    assert [none, none, none][1..] == [none, none] && [none, none][1..] == [none] && [none][1..] == [];
  }

  lemma OneAlone(tried: nat)
    requires tried < 3
    ensures Tick([Row(Pending, tried, 3)], {}) + [] == [Row(if tried == 2 then Failed else Pending, tried + 1, 3)]
  {
    assert [Row(Pending, tried, 3)][..0] == [];
  }

  // ---------------------------------------------------------------- attempts left

  /** How many attempts a row can still take. */
  function Left(r: Row): nat {
    if r.status != Pending then 0 else if r.retryCount + 1 >= r.maxRetries then 1 else r.maxRetries - r.retryCount
  }

  function Potential(rows: seq<Row>): nat {
    if rows == [] then 0 else Potential(rows[..|rows| - 1]) + Left(rows[|rows| - 1])
  }

  /** A tick spends one of the attempts left for every row in its batch. */
  lemma {:induction false} TickSpends(rows: seq<Row>, succeeds: set<nat>, n: nat)
    requires n <= |rows|
    ensures Potential(Tick(rows, succeeds)[..n])
            + (if PendingCount(rows[..n]) < BATCH then PendingCount(rows[..n]) else BATCH)
            <= Potential(rows[..n])
  {
    if n != 0 {
      TickSpends(rows, succeeds, n - 1);
      var after := Tick(rows, succeeds);
      assert after[..n][..n - 1] == after[..n - 1] && rows[..n][..n - 1] == rows[..n - 1];
    }
  }

  /** One tick and the rows stored after it. */
  datatype Round = Round(succeeds: set<nat>, arrivals: seq<Row>)

  function AfterRounds(rows: seq<Row>, rounds: seq<Round>): seq<Row>
    decreases |rounds|
  {
    if rounds == [] then rows
    else AfterRounds(Tick(rows, rounds[0].succeeds) + rounds[0].arrivals, rounds[1..])
  }

  /** Some tick of the run attempts row `j`. */
  predicate AttemptedWithin(rows: seq<Row>, rounds: seq<Round>, j: nat)
    requires j < |rows|
    decreases |rounds|
  {
    rounds != [] &&
    (InBatch(rows, j) || AttemptedWithin(Tick(rows, rounds[0].succeeds) + rounds[0].arrivals, rounds[1..], j))
  }

  // ---------------------------------------------------------------- main results

  /** A tick that passes a pending row over spends a whole batch of attempts on older rows, so it cannot happen more
      often than those rows have batches of attempts left, whatever fails and whatever else is stored. */
  lemma {:induction false} NoStarvation(rows: seq<Row>, rounds: seq<Round>, j: nat)
    requires j < |rows| && rows[j].status == Pending
    requires BATCH * |rounds| > Potential(rows[..j])
    ensures AttemptedWithin(rows, rounds, j)
    decreases |rounds|
  {
    hide Potential;
    if !InBatch(rows, j) {
      TickSpends(rows, rounds[0].succeeds, j);
      var next := Tick(rows, rounds[0].succeeds) + rounds[0].arrivals;
      assert next[..j] == Tick(rows, rounds[0].succeeds)[..j];
      NoStarvation(next, rounds[1..], j);
    }
  }

  lemma {:induction false} PotentialAtMost(rows: seq<Row>, m: nat)
    requires forall i :: 0 <= i < |rows| ==> Left(rows[i]) <= m
    ensures Potential(rows) <= m * PendingCount(rows)
  {
    if rows != [] {
      var n := |rows| - 1;
      PotentialAtMost(rows[..n], m);
      assert m * (PendingCount(rows[..n]) + 1) == m * PendingCount(rows[..n]) + m;
    }
  }

  /** With at most m attempts left per row, a row behind k older pending ones is attempted within m*k/100 + 1 ticks. */
  lemma AttemptedInTime(rows: seq<Row>, rounds: seq<Round>, j: nat, m: nat)
    requires j < |rows| && rows[j].status == Pending
    requires forall i :: 0 <= i < j ==> Left(rows[i]) <= m
    requires |rounds| == m * PendingCount(rows[..j]) / 100 + 1
    ensures AttemptedWithin(rows, rounds, j)
  {
    PotentialAtMost(rows[..j], m);
    var spent := m * PendingCount(rows[..j]);
    assert BATCH * (spent / BATCH + 1) > spent;
    NoStarvation(rows, rounds, j);
  }

  predicate Quiet(rounds: seq<Round>) {
    forall i :: 0 <= i < |rounds| ==> rounds[i].arrivals == []
  }

  /** A tick over fewer pending rows than a batch attempts them all. */
  lemma SmallTick(rows: seq<Row>, succeeds: set<nat>, m: nat)
    requires PendingCount(rows) < BATCH
    requires forall i :: 0 <= i < |rows| ==> Left(rows[i]) <= m + 1
    ensures forall i :: 0 <= i < |rows| ==> Left(Tick(rows, succeeds)[i]) <= m
  {
    forall i | 0 <= i < |rows| ensures Left(Tick(rows, succeeds)[i]) <= m {
      PendingCountPrefix(rows, i);
    }
  }

  lemma {:induction false} PendingCountPrefix(rows: seq<Row>, n: nat)
    requires n <= |rows|
    ensures PendingCount(rows[..n]) <= PendingCount(rows)
    decreases |rows| - n
  {
    if n == |rows| {
      assert rows[..n] == rows;
    } else {
      PendingCountPrefix(rows, n + 1);
      assert rows[..n + 1][..n] == rows[..n];
    }
  }

  lemma {:induction false} NothingLeft(rows: seq<Row>)
    requires forall i :: 0 <= i < |rows| ==> Left(rows[i]) == 0
    ensures PendingCount(rows) == 0
  {
    if rows != [] {
      NothingLeft(rows[..|rows| - 1]);
    }
  }

  /** When nothing more is stored the queue drains: P attempts left in all and at most m a row take P/100 + m ticks. */
  lemma {:induction false} Drains(rows: seq<Row>, rounds: seq<Round>, m: nat)
    requires Quiet(rounds)
    requires forall i :: 0 <= i < |rows| ==> Left(rows[i]) <= m
    requires BATCH * |rounds| >= Potential(rows) + BATCH * m
    ensures PendingCount(AfterRounds(rows, rounds)) == 0
    decreases |rounds|
  {
    hide Potential, PendingCount;
    if rounds == [] {
      NothingLeft(rows);
    } else {
      var next := Tick(rows, rounds[0].succeeds);
      assert next + rounds[0].arrivals == next;
      TickSpends(rows, rounds[0].succeeds, |rows|);
      assert rows[..|rows|] == rows && next[..|rows|] == next;
      if PendingCount(rows) < BATCH && m > 0 {
        SmallTick(rows, rounds[0].succeeds, m - 1);
        Drains(next, rounds[1..], m - 1);
      } else {
        if m == 0 { PotentialAtMost(rows, 0); }
        Drains(next, rounds[1..], m);
      }
    }
  }

  /** At rest: no attempt is under way. */
  predicate AtRest(rows: seq<Row>) { forall i :: 0 <= i < |rows| ==> rows[i].status != Processing }

  predicate NoneFailed(rows: seq<Row>) { forall i :: 0 <= i < |rows| ==> rows[i].status != Failed }

  /** Every publication of a pending row succeeds, in every round. */
  predicate AllSucceed(rows: seq<Row>, rounds: seq<Round>) {
    forall t, j: nat :: 0 <= t < |rounds| && j < |rows| && rows[j].status == Pending ==> j in rounds[t].succeeds
  }

  lemma {:induction false} SuccessFailsNothing(rows: seq<Row>, rounds: seq<Round>)
    requires Quiet(rounds) && AtRest(rows) && NoneFailed(rows) && AllSucceed(rows, rounds)
    ensures var after := AfterRounds(rows, rounds); |after| == |rows| && AtRest(after) && NoneFailed(after)
    decreases |rounds|
  {
    hide PendingCount;
    if rounds != [] {
      var next := Tick(rows, rounds[0].succeeds);
      assert next + rounds[0].arrivals == next;
      forall t, j: nat | 0 <= t < |rounds| - 1 && j < |next| && next[j].status == Pending
        ensures j in rounds[1..][t].succeeds
      {
        assert rounds[1..][t] == rounds[t + 1];
      }
      SuccessFailsNothing(next, rounds[1..]);
    }
  }

  /** From rows at rest of which none has failed, P/100 + m quiet ticks whose publications all succeed publish every
      row. */
  lemma SuccessPublishesAll(rows: seq<Row>, rounds: seq<Round>, m: nat)
    requires Quiet(rounds) && AtRest(rows) && NoneFailed(rows) && AllSucceed(rows, rounds)
    requires forall i :: 0 <= i < |rows| ==> Left(rows[i]) <= m
    requires 100 * |rounds| >= Potential(rows) + 100 * m
    ensures var after := AfterRounds(rows, rounds);
            |after| == |rows| && forall i :: 0 <= i < |after| ==> after[i].status == Published
  {
    hide Potential, Tick, AfterRounds, AllSucceed;
    Drains(rows, rounds, m);
    SuccessFailsNothing(rows, rounds);
    var after := AfterRounds(rows, rounds);
    forall i | 0 <= i < |after| ensures after[i].status == Published {
      NonePending(after, i);
    }
  }

  lemma {:induction false} NonePending(rows: seq<Row>, i: nat)
    requires PendingCount(rows) == 0 && i < |rows|
    ensures rows[i].status != Pending
  {
    if i < |rows| - 1 {
      NonePending(rows[..|rows| - 1], i);
    }
  }

  /** Every row ever pending, published or failed keeps its retries in order: it fails exactly when they are used up. */
  predicate RetriesInOrder(r: Row) {
    && (r.status == Pending ==> r.retryCount < r.maxRetries)
    && (r.status == Failed ==> r.retryCount == r.maxRetries)
  }

  lemma {:induction false} FailsOnlyWhenSpent(rows: seq<Row>, rounds: seq<Round>)
    requires forall i :: 0 <= i < |rows| ==> RetriesInOrder(rows[i])
    requires forall t, i :: 0 <= t < |rounds| && 0 <= i < |rounds[t].arrivals| ==> rounds[t].arrivals[i] == FRESH
    ensures forall i :: 0 <= i < |AfterRounds(rows, rounds)| ==> RetriesInOrder(AfterRounds(rows, rounds)[i])
    decreases |rounds|
  {
    if rounds != [] {
      FailsOnlyWhenSpent(Tick(rows, rounds[0].succeeds) + rounds[0].arrivals, rounds[1..]);
    }
  }
}
