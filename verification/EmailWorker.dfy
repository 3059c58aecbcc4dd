/**
 * One e-mail worker over its queue table, with every database write succeeding:
 * how much each batch gets done, and how soon the queue is drained.
 */
module EmailWorker {
  import opened Common
  import opened Notifications

  // ----- sums over the table -----

  function Sum(rows: seq<Row>, f: Row -> int): int {
    if rows == [] then 0 else f(rows[0]) + Sum(rows[1..], f)
  }

  lemma {:induction false} SumUpdate(rows: seq<Row>, i: nat, r: Row, f: Row -> int)
    requires i < |rows|
    ensures Sum(rows[i := r], f) == Sum(rows, f) - f(rows[i]) + f(r)
  {
    if i > 0 {
      SumUpdate(rows[1..], i - 1, r, f);
      assert rows[i := r][1..] == rows[1..][i - 1 := r];
    } else {
      assert rows[0 := r][1..] == rows[1..];
    }
  }

  lemma {:induction false} SumBounds(rows: seq<Row>, f: Row -> int, g: Row -> int)
    requires forall r <- rows :: 0 <= f(r) <= g(r)
    ensures 0 <= Sum(rows, f) <= Sum(rows, g)
  {
    if rows == [] {
    } else {
      assert forall r <- rows[1..] :: r in rows;
      SumBounds(rows[1..], f, g);
    }
  }

  predicate Unfinished(r: Row) {
    r.status == Queued || r.status == Processing
  }

  function Needs(r: Row): int {
    if Unfinished(r) then MAX_RETRIES + 1 - r.retry else 0
  }

  function Waiting(r: Row): int {
    if r.status == Queued then 1 else 0
  }

  /** Sends the queue may still need: 4 - retry_count for every unfinished row. */
  function SendsLeft(rows: seq<Row>): int {
    Sum(rows, Needs)
  }

  function InQueue(rows: seq<Row>): int {
    Sum(rows, Waiting)
  }

  lemma {:induction false} SumOneMore(rows: seq<Row>, r: Row, f: Row -> int)
    ensures Sum(rows + [r], f) == Sum(rows, f) + f(r)
  {
    if rows == [] {
      assert rows + [r] == [r];
    } else {
      SumOneMore(rows[1..], r, f);
      assert (rows + [r])[1..] == rows[1..] + [r];
    }
  }

  function QueuedBelow(rows: seq<Row>, n: nat): set<nat>
    requires n <= |rows|
  {
    set j: nat | j < n && rows[j].status == Queued
  }

  /** It is the number of queued rows. */
  lemma {:induction false} InQueueCounts(rows: seq<Row>, n: nat)
    requires n <= |rows|
    ensures InQueue(rows[..n]) == |set j: nat | j < n && rows[j].status == Queued|
  {
    if n == 0 {
      assert QueuedBelow(rows, 0) == {};
    } else {
      InQueueCounts(rows, n - 1);
      SumOneMore(rows[..n - 1], rows[n - 1], Waiting);
      assert rows[..n] == rows[..n - 1] + [rows[n - 1]];
      var before := QueuedBelow(rows, n - 1);
      assert QueuedBelow(rows, n) == if rows[n - 1].status == Queued then before + {n - 1} else before;
    }
  }

  /** Retry counts as the worker leaves them. Rows in processing outside a batch are stranded: no worker has them. */
  ghost predicate Bounded(rows: seq<Row>) {
    forall r <- rows :: 0 <= r.retry <= MAX_RETRIES
  }

  function NeedsQueued(r: Row): int {
    if r.status == Queued then Needs(r) else 0
  }

  function NeedsStranded(r: Row): int {
    if r.status == Processing then Needs(r) else 0
  }

  /** Sends that queued rows may still need. */
  function QueuedSends(rows: seq<Row>): int {
    Sum(rows, NeedsQueued)
  }

  function StrandedSends(rows: seq<Row>): int {
    Sum(rows, NeedsStranded)
  }

  lemma {:induction false} SendsSplit(rows: seq<Row>)
    ensures SendsLeft(rows) == QueuedSends(rows) + StrandedSends(rows)
  {
    if rows == [] {
    } else {
      SendsSplit(rows[1..]);
    }
  }

  lemma QueueBounds(rows: seq<Row>)
    requires Bounded(rows)
    ensures 0 <= InQueue(rows) <= QueuedSends(rows) <= 4 * InQueue(rows)
  {
    SumBounds(rows, Waiting, NeedsQueued);
    AtMostFourEach(rows);
  }

  lemma {:induction false} AtMostFourEach(rows: seq<Row>)
    requires Bounded(rows)
    ensures QueuedSends(rows) <= 4 * InQueue(rows)
  {
    if rows == [] {
    } else {
      assert forall r <- rows[1..] :: r in rows;
      AtMostFourEach(rows[1..]);
    }
  }

  lemma {:induction false} EmptyQueueHasNone(rows: seq<Row>)
    requires InQueue(rows) == 0
    ensures forall r <- rows :: r.status != Queued
  {
    if rows == [] {
    } else {
      SumBounds(rows[1..], Waiting, Waiting);
      EmptyQueueHasNone(rows[1..]);
      assert rows == [rows[0]] + rows[1..];
    }
  }

  lemma {:induction false} NoneQueuedNoneCounted(rows: seq<Row>)
    requires forall r <- rows :: r.status != Queued
    ensures InQueue(rows) == 0
  {
    if rows == [] {
    } else {
      assert forall r <- rows[1..] :: r in rows;
      NoneQueuedNoneCounted(rows[1..]);
    }
  }

  // ----- claiming, one row at a time -----

  ghost predicate Distinct(begun: seq<Row>, ids: seq<nat>) {
    && (forall i, j | 0 <= i < j < |ids| :: ids[i] != ids[j])
    && (forall id <- ids :: id < |begun| && begun[id].status == Queued)
  }

  ghost predicate OldestSoFar(begun: seq<Row>, ids: seq<nat>) {
    && Distinct(begun, ids)
    && (forall id <- ids, j | 0 <= j < |begun| && begun[j].status == Queued && j !in ids ::
          begun[id].createdAt <= begun[j].createdAt)
  }

  /** The next oldest row extends the claim, and only moves from queued to processing. */
  lemma ClaimOneMore(begun: seq<Row>, ids: seq<nat>, id: nat)
    requires OldestSoFar(begun, ids)
    requires var rows := Claimed(begun, ids);
             && id < |rows| && rows[id].status == Queued
             && forall j | 0 <= j < |rows| && rows[j].status == Queued :: rows[id].createdAt <= rows[j].createdAt
    ensures OldestSoFar(begun, ids + [id])
    ensures var rows := Claimed(begun, ids);
            && rows[id := rows[id].(status := Processing)] == Claimed(begun, ids + [id])
            && Items(begun, ids) + [Item(id, rows[id].retry)] == Items(begun, ids + [id])
            && InQueue(Claimed(begun, ids + [id])) == InQueue(rows) - 1
            && SendsLeft(Claimed(begun, ids + [id])) == SendsLeft(rows)
  {
    var rows := Claimed(begun, ids);
    SumUpdate(rows, id, rows[id].(status := Processing), Waiting);
    SumUpdate(rows, id, rows[id].(status := Processing), Needs);
    assert rows[id := rows[id].(status := Processing)] == Claimed(begun, ids + [id]);
    forall a <- ids + [id], j | 0 <= j < |begun| && begun[j].status == Queued && j !in ids + [id]
      ensures begun[a].createdAt <= begun[j].createdAt
    {
      assert rows[j] == begun[j] && j !in ids;
    }
  }

  lemma NoneLeft(begun: seq<Row>, ids: seq<nat>)
    requires forall r <- Claimed(begun, ids) :: r.status != Queued
    ensures forall j | 0 <= j < |begun| && begun[j].status == Queued :: j in ids
  {
    forall j | 0 <= j < |begun| && begun[j].status == Queued ensures j in ids {
      assert Claimed(begun, ids)[j] in Claimed(begun, ids);
    }
  }

  // ----- the repository -----

  class Repository {
    var rows: seq<Row>

    constructor ()
      ensures rows == []
    {
      rows := [];
    }

    method Enqueue(createdAt: Time)
      modifies this
      ensures rows == old(rows) + [Row(Queued, 0, createdAt)]
    {
      rows := rows + [Row(Queued, 0, createdAt)];
    }

    /** The oldest row still queued, if any: the next one in ORDER BY created_at. */
    method Oldest() returns (found: Option<nat>)
      ensures found.None? <==> forall r <- rows :: r.status != Queued
      ensures found.Some? ==>
                && found.value < |rows| && rows[found.value].status == Queued
                && forall j | 0 <= j < |rows| && rows[j].status == Queued ::
                     rows[found.value].createdAt <= rows[j].createdAt
    {
      found := None;
      for i := 0 to |rows|
        invariant found.None? <==> forall j | 0 <= j < i :: rows[j].status != Queued
        invariant found.Some? ==>
                    && found.value < i && rows[found.value].status == Queued
                    && forall j | 0 <= j < i && rows[j].status == Queued ::
                         rows[found.value].createdAt <= rows[j].createdAt
      {
        if rows[i].status == Queued && (found.None? || rows[i].createdAt < rows[found.value].createdAt) {
          found := Some(i);
        }
      }
    }

    /** Claim the oldest queued rows, up to `limit`, and mark them as in processing. */
    method DequeueBatch(limit: int) returns (batch: seq<Item>, ghost ids: seq<nat>)
      modifies this
      ensures OldestUnlocked(old(rows), ids, {}, if limit <= 0 then 20 else limit)
      ensures forall id <- ids :: id < |old(rows)| && old(rows)[id].status == Queued
      ensures forall id <- ids, j | 0 <= j < |old(rows)| && old(rows)[j].status == Queued && j !in ids ::
                old(rows)[id].createdAt <= old(rows)[j].createdAt
      ensures (exists j :: 0 <= j < |old(rows)| && old(rows)[j].status == Queued && j !in ids) ==>
                |ids| == if limit <= 0 then 20 else limit
      ensures |rows| == |old(rows)| && |batch| == |ids|
      ensures forall j | 0 <= j < |rows| ::
                rows[j] == if j in ids then old(rows)[j].(status := Processing) else old(rows)[j]
      ensures forall k | 0 <= k < |ids| :: ids[k] < |old(rows)| && batch[k] == Item(ids[k], old(rows)[ids[k]].retry)
      ensures rows == Claimed(old(rows), ids) && batch == Items(old(rows), ids)
      ensures InQueue(rows) == InQueue(old(rows)) - |batch| && SendsLeft(rows) == SendsLeft(old(rows))
    {
      var cap := if limit <= 0 then 20 else limit;
      batch, ids := [], [];
      ghost var begun := rows;
      assert rows == Claimed(begun, []);
      while |batch| < cap
        invariant |ids| == |batch| <= cap && OldestSoFar(begun, ids)
        invariant rows == Claimed(begun, ids) && batch == Items(begun, ids)
        invariant InQueue(rows) == InQueue(begun) - |batch| && SendsLeft(rows) == SendsLeft(begun)
      {
        var next := Oldest();
        if next.None? {
          NoneLeft(begun, ids);
          return;
        }
        var id := next.value;
        ClaimOneMore(begun, ids, id);
        batch := batch + [Item(id, rows[id].retry)];
        rows := rows[id := rows[id].(status := Processing)];
        ids := ids + [id];
      }
    }

    method UpdateStatus(id: nat, status: Status) returns (ok: bool)
      modifies this
      ensures ok <==> id < |old(rows)|
      ensures rows == if ok then old(rows)[id := old(rows)[id].(status := status)] else old(rows)
    {
      if id >= |rows| { return false; }
      rows := rows[id := rows[id].(status := status)];
      return true;
    }

    method RequeueAfterFailure(id: nat, retry: int) returns (ok: bool)
      modifies this
      ensures ok <==> id < |old(rows)|
      ensures rows == if ok then old(rows)[id := Row(Queued, retry, old(rows)[id].createdAt)] else old(rows)
    {
      if id >= |rows| { return false; }
      rows := rows[id := rows[id].(status := Queued, retry := retry)];
      return true;
    }
  }

  // ----- the batch loop -----

  /** What one batch leaves behind: `before` with the claimed rows settled by their send results. */
  ghost predicate Processed(before: seq<Row>, ids: seq<nat>, sender: Item -> bool, after: seq<Row>) {
    && |after| == |before|
    && forall j | 0 <= j < |before| ::
         after[j] == if j in ids then Outcome(before[j], Item(j, before[j].retry), sender(Item(j, before[j].retry)))
                     else before[j]
  }

  /** A claimed row ends sent, or queued for one of its three retries, or failed after the last of them. */
  predicate SettledAs(was: Row, claimed: bool, sent: bool, now: Row) {
    && now.createdAt == was.createdAt
    && (!claimed ==> now == was)
    && (claimed && sent ==> now.status == Sent && now.retry == was.retry)
    && (claimed && !sent && was.retry < 3 ==> now.status == Queued && now.retry == was.retry + 1)
    && (claimed && !sent && was.retry == 3 ==> now.status == Failed && now.retry == 3)
  }

  /** After the first `i` items of the batch: those are settled, the others still in processing. */
  ghost predicate ProcessedSoFar(begun: seq<Row>, ids: seq<nat>, i: nat, sender: Item -> bool, rows: seq<Row>)
    requires i <= |ids|
  {
    && |rows| == |begun|
    && forall j | 0 <= j < |begun| ::
         rows[j] == if j in ids[..i] then Outcome(begun[j], Item(j, begun[j].retry), sender(Item(j, begun[j].retry)))
                    else Claimed(begun, ids)[j]
  }

  /** The next item of the batch is in processing, as it was claimed. */
  lemma NextInHand(begun: seq<Row>, ids: seq<nat>, i: nat, sender: Item -> bool, rows: seq<Row>)
    requires i < |ids| && Distinct(begun, ids) && Bounded(begun) && ProcessedSoFar(begun, ids, i, sender, rows)
    ensures var n := Items(begun, ids)[i];
            && n.id == ids[i] < |rows| && n.retry == begun[n.id].retry && 0 <= n.retry <= MAX_RETRIES
            && rows[n.id] == begun[n.id].(status := Processing)
  {
    assert ids[i] in ids && begun[ids[i]] in begun;
    assert ids[i] !in ids[..i];
  }

  lemma SettlingUsesASend(rows: seq<Row>, n: Item, ok: bool)
    requires n.id < |rows| && rows[n.id].status == Processing && rows[n.id].retry == n.retry <= MAX_RETRIES
    ensures SendsLeft(rows[n.id := Outcome(rows[n.id], n, ok)]) <= SendsLeft(rows) - 1
  {
    SumUpdate(rows, n.id, Outcome(rows[n.id], n, ok), Needs);
  }

  /** Settling one item uses up at least one send. */
  lemma SettleOneMore(begun: seq<Row>, ids: seq<nat>, i: nat, sender: Item -> bool, rows: seq<Row>)
    requires i < |ids| && Distinct(begun, ids) && Bounded(begun) && ProcessedSoFar(begun, ids, i, sender, rows)
    ensures var n := Items(begun, ids)[i];
            && n.id == ids[i] && n.id < |rows|
            && (var after := rows[n.id := Outcome(rows[n.id], n, sender(n))];
                ProcessedSoFar(begun, ids, i + 1, sender, after) && SendsLeft(after) <= SendsLeft(rows) - 1)
  {
    NextInHand(begun, ids, i, sender, rows);
    var n := Items(begun, ids)[i];
    SettlingUsesASend(rows, n, sender(n));
    assert forall j :: j in ids[..i + 1] <==> j in ids[..i] || j == n.id by {
      assert ids[..i + 1] == ids[..i] + [n.id];
    }
  }

  /** Write the outcome of one send. */
  method Settle(repo: Repository, n: Item, sent: bool)
    requires n.id < |repo.rows|
    modifies repo
    ensures repo.rows == old(repo.rows)[n.id := Outcome(old(repo.rows)[n.id], n, sent)]
  {
    if !sent {
      if n.retry < 3 {
        var next := n.retry + 1;
        var _ := repo.RequeueAfterFailure(n.id, next);
        return;
      }
      var _ := repo.UpdateStatus(n.id, Failed);
      return;
    }
    var _ := repo.UpdateStatus(n.id, Sent);
  }

  /** Every batch settles its rows as the sender decides, and uses up at least one send per row in it. */
  method ProcessBatch(repo: Repository, limit: int, sender: Item -> bool) returns (ghost ids: seq<nat>)
    requires Bounded(repo.rows)
    modifies repo
    ensures OldestUnlocked(old(repo.rows), ids, {}, if limit <= 0 then 20 else limit)
    ensures Processed(old(repo.rows), ids, sender, repo.rows)
    ensures |repo.rows| == |old(repo.rows)| && forall j | 0 <= j < |repo.rows| ::
              var was := old(repo.rows)[j];
              SettledAs(was, j in ids, sender(Item(j, was.retry)), repo.rows[j])
    ensures Bounded(repo.rows)
    ensures SendsLeft(repo.rows) <= SendsLeft(old(repo.rows)) - |ids|
  {
    ghost var begun := repo.rows;
    var batch: seq<Item>;
    batch, ids := repo.DequeueBatch(limit);
    for i := 0 to |batch|
      invariant ProcessedSoFar(begun, ids, i, sender, repo.rows)
      invariant SendsLeft(repo.rows) <= SendsLeft(begun) - i
    {
      var n := batch[i];
      SettleOneMore(begun, ids, i, sender, repo.rows);
      Settle(repo, n, sender(n));
    }
    assert ids[..|batch|] == ids;
    SettledIsBounded(begun, ids, sender, repo.rows);
    SettledOneByOne(begun, ids, sender, repo.rows);
  }

  lemma SettledOneByOne(begun: seq<Row>, ids: seq<nat>, sender: Item -> bool, rows: seq<Row>)
    requires Processed(begun, ids, sender, rows)
    ensures forall j | 0 <= j < |begun| :: SettledAs(begun[j], j in ids, sender(Item(j, begun[j].retry)), rows[j])
  {
  }

  lemma SettledIsBounded(begun: seq<Row>, ids: seq<nat>, sender: Item -> bool, rows: seq<Row>)
    requires Bounded(begun) && Distinct(begun, ids) && Processed(begun, ids, sender, rows)
    ensures Bounded(rows)
  {
    forall r <- rows ensures 0 <= r.retry <= MAX_RETRIES {
      var j :| 0 <= j < |rows| && rows[j] == r;
      assert begun[j] in begun;
    }
  }

  // ----- draining -----

  /** One tick: some batch of the oldest rows, some sender. */
  ghost predicate Tick(before: seq<Row>, after: seq<Row>) {
    && Bounded(after) && |after| == |before|
    && exists ids: seq<nat>, limit: nat, sender: Item -> bool ::
         limit > 0 && OldestUnlocked(before, ids, {}, limit) && Processed(before, ids, sender, after)
  }

  lemma {:induction false} SameSum(a: seq<Row>, b: seq<Row>, f: Row -> int)
    requires |a| == |b| && forall j | 0 <= j < |a| :: f(a[j]) == f(b[j])
    ensures Sum(a, f) == Sum(b, f)
  {
    if a == [] {
    } else {
      SameSum(a[1..], b[1..], f);
    }
  }

  lemma ClaimingIsFree(begun: seq<Row>, ids: seq<nat>, sender: Item -> bool)
    requires Distinct(begun, ids)
    ensures ProcessedSoFar(begun, ids, 0, sender, Claimed(begun, ids))
    ensures SendsLeft(Claimed(begun, ids)) == SendsLeft(begun)
  {
    SameSum(Claimed(begun, ids), begun, Needs);
  }

  lemma {:induction false} EachItemUsesASend(begun: seq<Row>, ids: seq<nat>, i: nat, sender: Item -> bool)
    returns (rows: seq<Row>)
    requires i <= |ids| && Distinct(begun, ids) && Bounded(begun)
    ensures ProcessedSoFar(begun, ids, i, sender, rows)
    ensures SendsLeft(rows) <= SendsLeft(begun) - i
  {
    if i == 0 {
      ClaimingIsFree(begun, ids, sender);
      rows := Claimed(begun, ids);
    } else {
      var sofar := EachItemUsesASend(begun, ids, i - 1, sender);
      SettleOneMore(begun, ids, i - 1, sender, sofar);
      var n := Items(begun, ids)[i - 1];
      rows := sofar[n.id := Outcome(sofar[n.id], n, sender(n))];
    }
  }

  /** A batch of k rows uses up at least k of the sends the queue may still need. */
  lemma BatchUsesItsSends(before: seq<Row>, ids: seq<nat>, sender: Item -> bool, after: seq<Row>)
    requires Bounded(before) && Distinct(before, ids) && Processed(before, ids, sender, after)
    ensures SendsLeft(after) <= SendsLeft(before) - |ids|
  {
    var rows := EachItemUsesASend(before, ids, |ids|, sender);
    assert ids[..|ids|] == ids;
    assert after == rows;
  }

  /** A batch takes only queued rows, so rows stranded in processing are as before. */
  lemma BatchLeavesStranded(before: seq<Row>, ids: seq<nat>, sender: Item -> bool, after: seq<Row>)
    requires Distinct(before, ids) && Processed(before, ids, sender, after)
    ensures forall j | 0 <= j < |before| ::
              if before[j].status == Processing then after[j] == before[j] else after[j].status != Processing
    ensures StrandedSends(after) == StrandedSends(before)
  {
    SameSum(after, before, NeedsStranded);
  }

  lemma TickMakesProgress(before: seq<Row>, after: seq<Row>)
    requires Bounded(before) && Tick(before, after)
    ensures QueuedSends(after) <= QueuedSends(before)
    ensures InQueue(before) > 0 ==> QueuedSends(after) <= QueuedSends(before) - 1
    ensures forall j | 0 <= j < |before| ::
              if before[j].status == Processing then after[j] == before[j] else after[j].status != Processing
  {
    var ids: seq<nat>, limit: nat, sender: Item -> bool :|
      limit > 0 && OldestUnlocked(before, ids, {}, limit) && Processed(before, ids, sender, after);
    BatchUsesItsSends(before, ids, sender, after);
    BatchLeavesStranded(before, ids, sender, after);
    SendsSplit(before);
    SendsSplit(after);
    if ids == [] {
      forall r <- before ensures r.status != Queued {
        var j :| 0 <= j < |before| && before[j] == r;
      }
      NoneQueuedNoneCounted(before);
    }
  }

  lemma {:induction false} TicksUseUpSends(runs: seq<seq<Row>>, i: nat)
    requires i < |runs| && Bounded(runs[0])
    requires forall k | 0 <= k < |runs| - 1 :: Tick(runs[k], runs[k + 1])
    ensures Bounded(runs[i])
    ensures InQueue(runs[i]) == 0 || QueuedSends(runs[i]) <= QueuedSends(runs[0]) - i
  {
    if i == 0 {
    } else {
      TicksUseUpSends(runs, i - 1);
      assert Tick(runs[i - 1], runs[i]);
      TickMakesProgress(runs[i - 1], runs[i]);
      QueueBounds(runs[i - 1]);
      QueueBounds(runs[i]);
    }
  }

  lemma {:induction false} StrandedStay(runs: seq<seq<Row>>, i: nat, j: nat)
    requires i < |runs| && Bounded(runs[0]) && j < |runs[0]|
    requires forall k | 0 <= k < |runs| - 1 :: Tick(runs[k], runs[k + 1])
    ensures |runs[i]| == |runs[0]|
    ensures if runs[0][j].status == Processing then runs[i][j] == runs[0][j] else runs[i][j].status != Processing
  {
    if i == 0 {
    } else {
      StrandedStay(runs, i - 1, j);
      TicksUseUpSends(runs, i - 1);
      assert Tick(runs[i - 1], runs[i]);
      TickMakesProgress(runs[i - 1], runs[i]);
    }
  }

  /**
   * With nothing enqueued meanwhile, n queued notifications are all sent or failed within 4n batches.
   * Rows stranded in processing at the start, and only those, stay there.
   */
  lemma DrainedWithinFourBatchesEach(runs: seq<seq<Row>>)
    requires runs != [] && Bounded(runs[0])
    requires forall k | 0 <= k < |runs| - 1 :: Tick(runs[k], runs[k + 1])
    requires |runs| - 1 >= 4 * InQueue(runs[0])
    ensures var last := runs[|runs| - 1];
            && |last| == |runs[0]|
            && forall j | 0 <= j < |last| ::
                 if runs[0][j].status == Processing then last[j] == runs[0][j]
                 else last[j].status == Sent || last[j].status == Failed
  {
    var n := |runs| - 1;
    TicksUseUpSends(runs, n);
    QueueBounds(runs[0]);
    QueueBounds(runs[n]);
    EmptyQueueHasNone(runs[n]);
    SameLength(runs, n);
    forall j | 0 <= j < |runs[n]|
      ensures if runs[0][j].status == Processing then runs[n][j] == runs[0][j]
              else runs[n][j].status == Sent || runs[n][j].status == Failed
    {
      StrandedStay(runs, n, j);
      assert runs[n][j] in runs[n];
    }
  }

  lemma {:induction false} SameLength(runs: seq<seq<Row>>, i: nat)
    requires i < |runs| && forall k | 0 <= k < |runs| - 1 :: Tick(runs[k], runs[k + 1])
    ensures |runs[i]| == |runs[0]|
  {
    if i == 0 {
    } else {
      SameLength(runs, i - 1);
      assert Tick(runs[i - 1], runs[i]);
    }
  }
}
