/**
 * The e-mail queue under any number of workers. A worker claims a batch, and for
 * each notification sends, then writes the outcome; writes may be lost and workers
 * may stop between any two steps. Rows are never deleted, so a notification is
 * named by its position in the table.
 */
module Notifications {
  import opened Common

  datatype Status = Queued | Processing | Sent | Failed

  datatype Row = Row(status: Status, retry: int, createdAt: Time)

  /** What DequeueBatch returned for one row: the worker never reads the row again. */
  datatype Item = Item(id: nat, retry: int)

  type WorkerId = nat

  /** The rest of a worker's batch; `sent` is the result of sending its first item, once known. */
  datatype Hand = Hand(batch: seq<Item>, sent: Option<bool>)

  /** `attempts[id]` is the history of SendEmail calls: retry_count carried and success. */
  datatype Sys = Sys(rows: seq<Row>, workers: map<WorkerId, Hand>, attempts: seq<seq<(int, bool)>>)

  datatype Move =
    | Enqueue(createdAt: Time)
    | Claim(w: WorkerId, ids: seq<nat>, locked: set<nat>, limit: nat)
    | Send(w: WorkerId, ok: bool)
    | Write(w: WorkerId, applied: bool)
    | Stop(w: WorkerId)

  const MAX_RETRIES := 3

  /** `ids` are the oldest queued rows not locked by a concurrent claim, at most `limit` of them. */
  ghost predicate OldestUnlocked(rows: seq<Row>, ids: seq<nat>, locked: set<nat>, limit: nat) {
    && |ids| <= limit
    && (forall i, j | 0 <= i < j < |ids| :: ids[i] != ids[j])
    && (forall id <- ids :: id < |rows| && rows[id].status == Queued && id !in locked)
    && (forall j | 0 <= j < |rows| && rows[j].status == Queued && j !in locked && j !in ids ::
          |ids| == limit && forall id <- ids :: rows[id].createdAt <= rows[j].createdAt)
  }

  ghost predicate Allowed(s: Sys, m: Move) {
    match m
    case Enqueue(_) => true
    case Claim(w, ids, locked, limit) => w !in s.workers && OldestUnlocked(s.rows, ids, locked, limit)
    case Send(w, _) => w in s.workers && s.workers[w].batch != [] && s.workers[w].sent.None?
    case Write(w, _) => w in s.workers && s.workers[w].batch != [] && s.workers[w].sent.Some?
    case Stop(w) => w in s.workers
  }

  function Claimed(rows: seq<Row>, ids: seq<nat>): seq<Row> {
    seq(|rows|, i requires 0 <= i < |rows| => if i in ids then rows[i].(status := Processing) else rows[i])
  }

  function Items(rows: seq<Row>, ids: seq<nat>): seq<Item>
    requires forall id <- ids :: id < |rows|
  {
    seq(|ids|, i requires 0 <= i < |ids| => assert ids[i] in ids; Item(ids[i], rows[ids[i]].retry))
  }

  /** The row after the worker's write for an item it sent with result `ok`. */
  function Outcome(r: Row, n: Item, ok: bool): Row {
    if ok then r.(status := Sent)
    else if n.retry < MAX_RETRIES then r.(status := Queued, retry := n.retry + 1)
    else r.(status := Failed)
  }

  ghost function After(s: Sys, m: Move): Sys
    requires Allowed(s, m)
  {
    match m
    case Enqueue(t) => s.(rows := s.rows + [Row(Queued, 0, t)], attempts := s.attempts + [[]])
    case Claim(w, ids, _, _) =>
      s.(rows := Claimed(s.rows, ids), workers := s.workers[w := Hand(Items(s.rows, ids), None)])
    case Send(w, ok) =>
      var n := s.workers[w].batch[0];
      s.(workers := s.workers[w := s.workers[w].(sent := Some(ok))],
         attempts := if n.id < |s.attempts| then s.attempts[n.id := s.attempts[n.id] + [(n.retry, ok)]] else s.attempts)
    case Write(w, applied) =>
      var n := s.workers[w].batch[0];
      s.(workers := s.workers[w := Hand(s.workers[w].batch[1..], None)],
         rows := if applied && n.id < |s.rows|
                 then s.rows[n.id := Outcome(s.rows[n.id], n, s.workers[w].sent.value)] else s.rows)
    case Stop(w) => s.(workers := s.workers - {w})
  }

  const START := Sys([], map[], [])

  ghost predicate Behaviour(trace: seq<Sys>, moves: seq<Move>) {
    && |trace| == |moves| + 1 && trace[0] == START
    && forall i | 0 <= i < |moves| :: Allowed(trace[i], moves[i]) && trace[i + 1] == After(trace[i], moves[i])
  }

  // ----- the invariant -----

  /** Attempts carry 0, 1, 2, ... up to 3, and only the last one can have succeeded. */
  ghost predicate Escalates(log: seq<(int, bool)>) {
    && |log| <= MAX_RETRIES + 1
    && forall k | 0 <= k < |log| :: log[k].0 == k && (k < |log| - 1 ==> !log[k].1)
  }

  predicate Succeeded(log: seq<(int, bool)>) {
    log != [] && log[|log| - 1].1
  }

  ghost predicate RowOk(r: Row, log: seq<(int, bool)>) {
    && Escalates(log) && 0 <= r.retry <= MAX_RETRIES
    && match r.status
       case Queued => |log| == r.retry && !Succeeded(log)
       case Processing => |log| == r.retry + 1 || (|log| == r.retry && !Succeeded(log))
       case Sent => Succeeded(log)
       case Failed => |log| == MAX_RETRIES + 1 && !Succeeded(log)
  }

  ghost predicate Holds(s: Sys, w: WorkerId, k: nat, id: nat) {
    w in s.workers && k < |s.workers[w].batch| && s.workers[w].batch[k].id == id
  }

  /** An item in hand is a row in processing; only the first item may have been sent. */
  ghost predicate ItemOk(s: Sys, w: WorkerId, k: nat)
    requires w in s.workers && k < |s.workers[w].batch| && |s.attempts| == |s.rows|
  {
    var n := s.workers[w].batch[k];
    && n.id < |s.rows| && s.rows[n.id].status == Processing && s.rows[n.id].retry == n.retry
    && if k == 0 && s.workers[w].sent.Some?
       then |s.attempts[n.id]| == n.retry + 1 && Succeeded(s.attempts[n.id]) == s.workers[w].sent.value
       else |s.attempts[n.id]| == n.retry && !Succeeded(s.attempts[n.id])
  }

  ghost predicate OwnedOnce(s: Sys) {
    forall w: WorkerId, k: nat, v: WorkerId, l: nat, id: nat | Holds(s, w, k, id) && Holds(s, v, l, id) ::
      w == v && k == l
  }

  ghost predicate Inv(s: Sys) {
    && |s.attempts| == |s.rows|
    && (forall id | 0 <= id < |s.rows| :: RowOk(s.rows[id], s.attempts[id]))
    && (forall w <- s.workers :: forall k: nat | k < |s.workers[w].batch| :: ItemOk(s, w, k))
    && (forall w <- s.workers | s.workers[w].batch == [] :: s.workers[w].sent == None)
    && OwnedOnce(s)
  }

  lemma ClaimKeeps(s: Sys, m: Move)
    requires Inv(s) && Allowed(s, m) && m.Claim?
    ensures Inv(After(s, m))
  {
    var s' := After(s, m);
    forall w <- s'.workers, k: nat | k < |s'.workers[w].batch|
      ensures ItemOk(s', w, k)
    {
      if w != m.w {
        assert ItemOk(s, w, k);
        assert s.workers[w].batch[k].id !in m.ids;
      }
    }
    forall w: WorkerId, k: nat, v: WorkerId, l: nat, id: nat | Holds(s', w, k, id) && Holds(s', v, l, id)
      ensures w == v && k == l
    {
      if w != m.w { assert Holds(s, w, k, id) && ItemOk(s, w, k); }
      if v != m.w { assert Holds(s, v, l, id) && ItemOk(s, v, l); }
    }
  }

  lemma SendKeeps(s: Sys, m: Move)
    requires Inv(s) && Allowed(s, m) && m.Send?
    ensures Inv(After(s, m))
  {
    var s' := After(s, m);
    var n := s.workers[m.w].batch[0];
    assert ItemOk(s, m.w, 0);
    assert Holds(s, m.w, 0, n.id);
    forall w <- s'.workers, k: nat | k < |s'.workers[w].batch|
      ensures ItemOk(s', w, k)
    {
      assert ItemOk(s, w, k);
      assert Holds(s, w, k, s.workers[w].batch[k].id);
    }
    forall w: WorkerId, k: nat, v: WorkerId, l: nat, id: nat | Holds(s', w, k, id) && Holds(s', v, l, id)
      ensures w == v && k == l
    {
      assert Holds(s, w, k, id) && Holds(s, v, l, id);
    }
  }

  lemma WriteKeeps(s: Sys, m: Move)
    requires Inv(s) && Allowed(s, m) && m.Write?
    ensures Inv(After(s, m))
  {
    var s' := After(s, m);
    var n := s.workers[m.w].batch[0];
    assert ItemOk(s, m.w, 0);
    assert Holds(s, m.w, 0, n.id);
    assert RowOk(s.rows[n.id], s.attempts[n.id]);
    forall w <- s'.workers, k: nat | k < |s'.workers[w].batch|
      ensures ItemOk(s', w, k)
    {
      var k' := if w == m.w then k + 1 else k;
      assert ItemOk(s, w, k');
      assert Holds(s, w, k', s.workers[w].batch[k'].id);
    }
    forall w: WorkerId, k: nat, v: WorkerId, l: nat, id: nat | Holds(s', w, k, id) && Holds(s', v, l, id)
      ensures w == v && k == l
    {
      assert Holds(s, w, if w == m.w then k + 1 else k, id) && Holds(s, v, if v == m.w then l + 1 else l, id);
    }
  }

  lemma MoveKeeps(s: Sys, m: Move)
    requires Inv(s) && Allowed(s, m)
    ensures Inv(After(s, m))
  {
    match m
    case Claim(_, _, _, _) => ClaimKeeps(s, m);
    case Send(_, _) => SendKeeps(s, m);
    case Write(_, _) => WriteKeeps(s, m);
    case Enqueue(_) =>
      var s' := After(s, m);
      forall w <- s'.workers, k: nat | k < |s'.workers[w].batch| ensures ItemOk(s', w, k) { assert ItemOk(s, w, k); }
      forall w: WorkerId, k: nat, v: WorkerId, l: nat, id: nat | Holds(s', w, k, id) && Holds(s', v, l, id)
        ensures w == v && k == l
      {
        assert Holds(s, w, k, id) && Holds(s, v, l, id);
      }
    case Stop(_) =>
      var s' := After(s, m);
      forall w <- s'.workers, k: nat | k < |s'.workers[w].batch| ensures ItemOk(s', w, k) { assert ItemOk(s, w, k); }
      forall w: WorkerId, k: nat, v: WorkerId, l: nat, id: nat | Holds(s', w, k, id) && Holds(s', v, l, id)
        ensures w == v && k == l
      {
        assert Holds(s, w, k, id) && Holds(s, v, l, id);
      }
  }

  lemma {:induction false} InvAlways(trace: seq<Sys>, moves: seq<Move>, i: nat)
    requires Behaviour(trace, moves) && i < |trace|
    ensures Inv(trace[i])
  {
    if i == 0 {
    } else {
      InvAlways(trace, moves, i - 1);
      MoveKeeps(trace[i - 1], moves[i - 1]);
    }
  }

  // ----- what every run guarantees -----

  /** At most four attempts, carrying retry counts 0, 1, 2, 3 in turn; nothing is sent after a success. */
  lemma AttemptsEscalateAndStopAtSuccess(trace: seq<Sys>, moves: seq<Move>, i: nat, id: nat)
    requires Behaviour(trace, moves) && i < |trace| && id < |trace[i].attempts|
    ensures var log := trace[i].attempts[id];
            && |log| <= 4
            && (forall k | 0 <= k < |log| :: log[k].0 == k)
            && (forall k | 0 <= k < |log| && log[k].1 :: k == |log| - 1)
  {
    InvAlways(trace, moves, i);
    assert RowOk(trace[i].rows[id], trace[i].attempts[id]);
  }

  /**
   * What a row says about its attempts. A failed one was tried exactly four times, in vain; a queued
   * one as often as its retry count says, in vain; a sent one successfully.
   */
  lemma RowsTellTheirAttempts(trace: seq<Sys>, moves: seq<Move>, i: nat, id: nat)
    requires Behaviour(trace, moves) && i < |trace| && id < |trace[i].rows|
    ensures id < |trace[i].attempts|
    ensures var row, log := trace[i].rows[id], trace[i].attempts[id];
            && 0 <= row.retry <= 3
            && (row.status == Failed ==> |log| == 4 && forall k | 0 <= k < 4 :: !log[k].1)
            && (row.status == Queued ==> |log| == row.retry && forall k | 0 <= k < |log| :: !log[k].1)
            && (row.status == Sent ==> log != [] && log[|log| - 1].1)
            && (row.status == Processing ==> row.retry <= |log| <= row.retry + 1)
  {
    InvAlways(trace, moves, i);
    assert RowOk(trace[i].rows[id], trace[i].attempts[id]);
  }

  /** What the write after a send does to the row, if it is applied, and to no other. */
  lemma OutcomeIsWritten(trace: seq<Sys>, moves: seq<Move>, i: nat, w: WorkerId)
    requires Behaviour(trace, moves) && i < |moves| && moves[i] == Write(w, true)
    ensures var s, s' := trace[i], trace[i + 1];
            var n, ok := s.workers[w].batch[0], s.workers[w].sent.value;
            && n.id < |s.rows| == |s'.rows| && s.rows[n.id].retry == n.retry
            && (forall j | 0 <= j < |s.rows| && j != n.id :: s'.rows[j] == s.rows[j])
            && s'.rows[n.id].createdAt == s.rows[n.id].createdAt
            && (ok ==> s'.rows[n.id].status == Sent)
            && (!ok && n.retry < 3 ==> s'.rows[n.id].status == Queued && s'.rows[n.id].retry == n.retry + 1)
            && (!ok && n.retry == 3 ==> s'.rows[n.id].status == Failed)
  {
    InvAlways(trace, moves, i);
    assert ItemOk(trace[i], w, 0);
  }

  /** No notification is in two batches, or twice in one. */
  lemma NoSharedOwnership(trace: seq<Sys>, moves: seq<Move>, i: nat, w: WorkerId, k: nat, v: WorkerId, l: nat, id: nat)
    requires Behaviour(trace, moves) && i < |trace|
    requires Holds(trace[i], w, k, id) && Holds(trace[i], v, l, id)
    ensures w == v && k == l
  {
    InvAlways(trace, moves, i);
  }

  /** Nobody works on this row any more: it is finished, or in processing and in no worker's hand. */
  ghost predicate Settled(s: Sys, id: nat) {
    && id < |s.rows| && id < |s.attempts| && s.rows[id].status != Queued
    && forall w: WorkerId, k: nat :: !Holds(s, w, k, id)
  }

  lemma FinishedIsSettled(s: Sys, id: nat)
    requires Inv(s) && id < |s.rows| && (s.rows[id].status == Sent || s.rows[id].status == Failed)
    ensures Settled(s, id)
  {
    forall w <- s.workers, k: nat | k < |s.workers[w].batch| ensures !Holds(s, w, k, id) {
      assert ItemOk(s, w, k);
    }
  }

  lemma SettledStep(s: Sys, m: Move, id: nat)
    requires Inv(s) && Allowed(s, m) && Settled(s, id)
    ensures var s' := After(s, m); Settled(s', id) && s'.rows[id] == s.rows[id] && s'.attempts[id] == s.attempts[id]
  {
    var s' := After(s, m);
    forall w: WorkerId, k: nat | Holds(s', w, k, id)
      ensures Holds(s, w, if m.Write? && w == m.w then k + 1 else k, id)
    {
    }
    if m.Send? || m.Write? { assert Holds(s, m.w, 0, s.workers[m.w].batch[0].id); }
  }

  lemma SettledNext(trace: seq<Sys>, moves: seq<Move>, n: nat, id: nat)
    requires Behaviour(trace, moves) && n < |moves| && Settled(trace[n], id)
    ensures Settled(trace[n + 1], id)
    ensures trace[n + 1].rows[id] == trace[n].rows[id] && trace[n + 1].attempts[id] == trace[n].attempts[id]
  {
    InvAlways(trace, moves, n);
    SettledStep(trace[n], moves[n], id);
  }

  /**
   * A settled row and its attempts never change again. Sent and failed are terminal;
   * and a row whose worker stopped, or whose write was lost, stays in processing for good.
   */
  lemma {:induction false} SettledForever(trace: seq<Sys>, moves: seq<Move>, i: nat, j: nat, id: nat)
    requires Behaviour(trace, moves) && i <= j < |trace| && Settled(trace[i], id)
    ensures Settled(trace[j], id) && trace[j].rows[id] == trace[i].rows[id]
            && trace[j].attempts[id] == trace[i].attempts[id]
  {
    if i == j {
    } else {
      SettledForever(trace, moves, i, j - 1, id);
      SettledNext(trace, moves, j - 1, id);
    }
  }

  lemma SucceededNext(trace: seq<Sys>, moves: seq<Move>, n: nat, id: nat)
    requires Behaviour(trace, moves) && n < |moves| && id < |trace[n].attempts| && Succeeded(trace[n].attempts[id])
    ensures id < |trace[n + 1].attempts| && trace[n + 1].attempts[id] == trace[n].attempts[id]
  {
    InvAlways(trace, moves, n);
    if moves[n].Send? { assert ItemOk(trace[n], moves[n].w, 0); }
  }

  /** Once its SendEmail has succeeded, a notification is never sent again, even if the write is lost. */
  lemma {:induction false} NeverSentAgain(trace: seq<Sys>, moves: seq<Move>, i: nat, j: nat, id: nat)
    requires Behaviour(trace, moves) && i <= j < |trace| && id < |trace[i].attempts| && Succeeded(trace[i].attempts[id])
    ensures id < |trace[j].attempts| && trace[j].attempts[id] == trace[i].attempts[id]
  {
    if i == j {
    } else {
      NeverSentAgain(trace, moves, i, j - 1, id);
      SucceededNext(trace, moves, j - 1, id);
    }
  }

  lemma TerminalForever(trace: seq<Sys>, moves: seq<Move>, i: nat, j: nat, id: nat)
    requires Behaviour(trace, moves) && i <= j < |trace| && id < |trace[i].rows|
    requires trace[i].rows[id].status == Sent || trace[i].rows[id].status == Failed
    ensures id < |trace[j].rows| && trace[j].rows[id] == trace[i].rows[id]
  {
    InvAlways(trace, moves, i);
    FinishedIsSettled(trace[i], id);
    SettledForever(trace, moves, i, j, id);
  }
}
