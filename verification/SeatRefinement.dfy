/**
 * Every interleaving of Register, Cancel and Use statements refines the atomic
 * transactions, and never deadlocks.
 */
module SeatRefinement {
  import opened Common
  import opened Seats
  import opened SeatLocks
  import Runs = SeatRuns

  // ----- what an open transaction knows -----

  /** The transaction holds its event row. */
  predicate Past(tx: Tx) {
    tx.pc != Begin && tx.pc != Located
  }

  predicate Wrote(tx: Tx) {
    tx.pc == Written || tx.pc == Counted || tx.pc == Ready
  }

  ghost function EventOf(tx: Tx): Option<Id> {
    if tx.call.Register? then Some(tx.call.event)
    else if tx.read.Some? then Some(tx.read.value.eventId) else None
  }

  predicate Matches(t: Ticket, c: Call) {
    match c
    case Register(_, _, _, _, _) => false
    case Cancel(user, id, _, _) => t.id == id && t.userId == user
    case Use(qr, _) => t.qr == qr
  }

  /** The ticket row a call is going to publish. */
  function Row(tx: Tx): Ticket
    requires tx.call.Register? || tx.read.Some?
  {
    match tx.call
    case Register(_, _, _, _, _) => NewTicket(tx.call)
    case Cancel(_, _, _, _) => tx.read.value.(status := Cancelled)
    case Use(_, _) => tx.read.value.(status := Used)
  }

  function EventRow(db: DB, tx: Tx, e: Id): Event
    requires tx.call.Register? || tx.read.Some?
    requires e in db.events
  {
    var ev := db.events[e];
    if tx.call.Register? then ev.(available := ev.available - 1)
    else ev.(available := Recount(db.tickets[Row(tx).id := Row(tx)], e, ev.total))
  }

  /** The row read under the ticket lock is still the committed one. */
  ghost predicate ReadHolds(db: DB, tx: Tx) {
    !tx.call.Register? && tx.pc != Begin ==>
      && tx.read.Some? && Matches(tx.read.value, tx.call)
      && tx.read.value.id in db.tickets && db.tickets[tx.read.value.id] == tx.read.value
      && EarlyRefusal(tx.read.value, tx.call) == None
  }

  /** The checks passed under the event lock still pass. */
  ghost predicate ChecksHold(db: DB, tx: Tx) {
    Past(tx) ==>
      && EventOf(tx).Some? && EventOf(tx).value in db.events
      && (var ev := db.events[EventOf(tx).value];
          if tx.call.Register? then RegisterRefusal(ev, tx.call.now) == None else LateRefusal(ev, tx.call) == None)
      && (Wrote(tx) ==> if tx.call.Register? then !Conflict(db.tickets, tx.call.event, tx.call.user)
                        else tx.read.Some? && tx.read.value.status == Active)
  }

  /** The private writes are exactly what the statements so far should have produced. */
  ghost predicate WritesHold(db: DB, tx: Tx)
    requires ReadHolds(db, tx) && ChecksHold(db, tx)
  {
    match tx.pc
    case Begin => tx.wrote == NOTHING && tx.read == None
    case Located => tx.wrote == NOTHING && !tx.call.Register?
    case Cleared => tx.wrote == NOTHING
    case Written => tx.wrote == DB(map[], map[Row(tx).id := Row(tx)])
                    && (tx.call.Register? ==> tx.reply == Some(Row(tx)))
    case Counted => && !tx.call.Register?
                    && tx.wrote == DB(map[EventOf(tx).value := EventRow(db, tx, EventOf(tx).value)],
                        map[Row(tx).id := Row(tx)])
    case Ready => && tx.reply == Some(Row(tx))
                  && tx.wrote == DB(map[EventOf(tx).value := EventRow(db, tx, EventOf(tx).value)],
                      map[Row(tx).id := Row(tx)])
  }

  ghost predicate StillFresh(db: DB, tx: Tx) {
    tx.call.Register? ==> tx.call.newTicket !in db.tickets && !QrTaken(db.tickets, tx.call.newQr)
  }

  ghost predicate TxOk(db: DB, tx: Tx) {
    StillFresh(db, tx) && ReadHolds(db, tx) && ChecksHold(db, tx) && WritesHold(db, tx)
  }

  // ----- the lock tables -----

  /** A ticket row is locked exactly by the open call that has read it. */
  ghost predicate TicketLocksHold(s: Sys) {
    && (forall t <- s.ticketLocks ::
          var x := s.ticketLocks[t];
          x in s.txs && s.txs[x].pc != Begin && s.txs[x].read.Some? && s.txs[x].read.value.id == t)
    && (forall x <- s.txs | s.txs[x].pc != Begin && s.txs[x].read.Some? ::
          s.txs[x].read.value.id in s.ticketLocks && s.ticketLocks[s.txs[x].read.value.id] == x)
  }

  /** An event row is locked exactly by the open call working on it. */
  ghost predicate EventLocksHold(s: Sys) {
    && (forall e <- s.eventLocks ::
          var x := s.eventLocks[e]; x in s.txs && Past(s.txs[x]) && EventOf(s.txs[x]) == Some(e))
    && (forall x <- s.txs | Past(s.txs[x]) && EventOf(s.txs[x]).Some? ::
          EventOf(s.txs[x]).value in s.eventLocks && s.eventLocks[EventOf(s.txs[x]).value] == x)
  }

  ghost predicate DistinctDraws(txs: map<TxId, Tx>) {
    forall x <- txs, y <- txs | x != y && txs[x].call.Register? && txs[y].call.Register? ::
      txs[x].call.newTicket != txs[y].call.newTicket && txs[x].call.newQr != txs[y].call.newQr
  }

  ghost predicate TxsOk(db: DB, txs: map<TxId, Tx>) {
    forall x <- txs :: TxOk(db, txs[x]) && (txs[x].call.Register? ==> txs[x].read == None)
  }

  ghost predicate Inv(s: Sys) {
    && Consistent(s.db) && TxsOk(s.db, s.txs) && DistinctDraws(s.txs)
    && TicketLocksHold(s) && EventLocksHold(s)
  }

  // ----- one transaction against the atomic specification -----

  lemma TargetIsRead(db: DB, t: Ticket, c: Call)
    requires Schema(db) && t.id in db.tickets && db.tickets[t.id] == t && Matches(t, c)
    ensures Target(db, c) == Some(t.id)
  {
  }

  /** The private view of a writer, spelled out. */
  lemma ViewOfWriter(db: DB, tx: Tx)
    requires TxOk(db, tx) && Wrote(tx)
    ensures View(db, tx).tickets == db.tickets[Row(tx).id := Row(tx)]
    ensures tx.pc == Written ==> View(db, tx).events == db.events
    ensures tx.pc != Written ==>
              View(db, tx).events == db.events[EventOf(tx).value := EventRow(db, tx, EventOf(tx).value)]
  {
  }

  /** At COMMIT the transaction's view and reply are those of one atomic step from the committed state. */
  lemma CommitIsAtomic(db: DB, tx: Tx)
    requires Consistent(db) && TxOk(db, tx) && tx.pc == Ready
    ensures (View(db, tx), Ok(Row(tx))) == Atomic(db, tx.call)
  {
    ViewOfWriter(db, tx);
    if !tx.call.Register? { TargetIsRead(db, tx.read.value, tx.call); }
  }

  /** What a statement keeps: the call, the data invariant, and the row it has read. */
  ghost predicate GoodNext(db: DB, tx: Tx, o: Outcome)
    requires Schema(db)
  {
    match o
    case Refused(err) => !Wrote(tx) && Atomic(db, tx.call) == (db, Err(err))
    case Committed(after, t) => Atomic(db, tx.call) == (after, Ok(t))
    case Next(tx', t, e) =>
      && tx'.call == tx.call && TxOk(db, tx') && tx'.pc != Begin
      && (t.None? ==> tx'.read == tx.read)
      && (tx.pc == Begin && !tx.call.Register? <==> t.Some?)
      && (t.Some? ==> tx'.read.Some? && t == Some(tx'.read.value.id) && t == Target(db, tx.call))
      && (Past(tx) ==> Past(tx'))
      && (Past(tx') && !Past(tx) <==> e.Some?)
      && (e.Some? ==> e == EventOf(tx'))
  }

  lemma LockFirstGood(db: DB, tx: Tx)
    requires Consistent(db) && TxOk(db, tx) && tx.pc == Begin
    ensures GoodNext(db, tx, LockFirst(db, tx))
  {
  }

  lemma LockSecondGood(db: DB, tx: Tx)
    requires Consistent(db) && TxOk(db, tx) && tx.pc == Located
    ensures GoodNext(db, tx, LockSecond(db, tx))
  {
    TargetIsRead(db, tx.read.value, tx.call);
  }

  lemma WriteTicketGood(db: DB, tx: Tx)
    requires Consistent(db) && TxOk(db, tx) && tx.pc == Cleared
    ensures GoodNext(db, tx, WriteTicket(View(db, tx), tx))
  {
    assert View(db, tx) == db;
    if !tx.call.Register? { TargetIsRead(db, tx.read.value, tx.call); }
  }

  lemma UpdateCounterGood(db: DB, tx: Tx)
    requires Consistent(db) && TxOk(db, tx) && tx.pc == Written
    ensures GoodNext(db, tx, UpdateCounter(View(db, tx), tx))
  {
    ViewOfWriter(db, tx);
  }

  lemma ReadBackGood(db: DB, tx: Tx)
    requires Consistent(db) && TxOk(db, tx) && tx.pc == Counted
    ensures GoodNext(db, tx, ReadBack(View(db, tx), tx))
  {
    ViewOfWriter(db, tx);
  }

  /** Whatever a statement answers, the atomic step would have answered at that moment. */
  lemma StatementGood(db: DB, tx: Tx)
    requires Consistent(db) && TxOk(db, tx)
    ensures GoodNext(db, tx, Statement(db, tx))
  {
    match tx.pc
    case Begin => LockFirstGood(db, tx);
    case Located => LockSecondGood(db, tx);
    case Cleared => WriteTicketGood(db, tx);
    case Written => UpdateCounterGood(db, tx);
    case Counted => ReadBackGood(db, tx);
    case Ready => CommitIsAtomic(db, tx);
  }

  // ----- other transactions do not notice -----

  /** Publishing ticket `t` leaves everything an open transaction on other rows knows intact. */
  lemma CommitElsewhere(db: DB, c: Call, after: DB, t: Ticket, tx: Tx)
    requires Schema(db) && WritesItsAnswer(db, c, after, Ok(t))
    requires TxOk(db, tx)
    requires tx.call.Register? ==> tx.call.newTicket != t.id && tx.call.newQr != t.qr
    requires tx.read.Some? ==> tx.read.value.id != t.id
    requires Past(tx) ==> EventOf(tx).value != t.eventId
    ensures TxOk(after, tx)
  {
    if Past(tx) {
      var e := EventOf(tx).value;
      assert after.events[e] == db.events[e];
      if !tx.call.Register? {
        var row := Row(tx);
        assert HeldBy(after.tickets[row.id := row], e) == HeldBy(db.tickets[row.id := row], e);
      }
    }
  }

  lemma CloseKeepsLocks(s: Sys, x: TxId, s': Sys)
    requires TicketLocksHold(s) && EventLocksHold(s)
    requires s'.txs == Close(s, x).txs && s'.ticketLocks == Close(s, x).ticketLocks
             && s'.eventLocks == Close(s, x).eventLocks
    ensures TicketLocksHold(s') && EventLocksHold(s')
  {
  }

  lemma CloseKeeps(s: Sys, x: TxId, after: DB, log: seq<(Call, Reply)>)
    requires Inv(s) && Consistent(after) && TxsOk(after, s.txs - {x})
    ensures Inv(Close(s, x).(db := after, log := log))
  {
    CloseKeepsLocks(s, x, Close(s, x).(db := after, log := log));
  }

  lemma UpdateKeepsTxs(db: DB, txs: map<TxId, Tx>, x: TxId, tx: Tx)
    requires TxsOk(db, txs) && DistinctDraws(txs) && x in txs
    requires TxOk(db, tx) && tx.call == txs[x].call && (tx.call.Register? ==> tx.read == None)
    ensures TxsOk(db, txs[x := tx]) && DistinctDraws(txs[x := tx])
  {
  }

  /** A lock somebody else holds would have blocked the statement. */
  lemma NeededLocksAreFree(s: Sys, x: TxId)
    requires Inv(s) && x in s.txs && !Blocked(s, x)
    ensures var t := NeedsTicket(s, s.txs[x]); t.Some? && t.value in s.ticketLocks ==> s.ticketLocks[t.value] == x
    ensures var e := NeedsEvent(s, s.txs[x]); e.Some? && e.value in s.eventLocks ==> s.eventLocks[e.value] == x
  {
    var t, e := NeedsTicket(s, s.txs[x]), NeedsEvent(s, s.txs[x]);
    assert t.Some? && t.value in s.ticketLocks ==> !WaitsFor(s, x, s.ticketLocks[t.value]);
    assert e.Some? && e.value in s.eventLocks ==> !WaitsFor(s, x, s.eventLocks[e.value]);
  }

  lemma GrantTicket(s: Sys, x: TxId, tx: Tx, t: Option<Id>, s': Sys)
    requires TicketLocksHold(s) && x in s.txs && tx.pc != Begin
    requires s'.txs == s.txs[x := tx] && s'.ticketLocks == Take(s.ticketLocks, t, x)
    requires match t
             case Some(k) => && tx.read.Some? && tx.read.value.id == k && s.txs[x].pc == Begin
                             && (k in s.ticketLocks ==> s.ticketLocks[k] == x)
             case None => tx.read == s.txs[x].read && (s.txs[x].pc == Begin ==> tx.read == None)
    ensures TicketLocksHold(s')
  {
  }

  lemma GrantEvent(s: Sys, x: TxId, tx: Tx, e: Option<Id>, s': Sys)
    requires EventLocksHold(s) && x in s.txs && (Past(s.txs[x]) ==> Past(tx))
    requires s'.txs == s.txs[x := tx] && s'.eventLocks == Take(s.eventLocks, e, x)
    requires match e
             case Some(k) => && Past(tx) && EventOf(tx) == e && !Past(s.txs[x])
                             && (k in s.eventLocks ==> s.eventLocks[k] == x)
             case None => Past(tx) ==> Past(s.txs[x]) && EventOf(tx) == EventOf(s.txs[x])
    ensures EventLocksHold(s')
  {
  }

  lemma NextKeeps(s: Sys, x: TxId, tx: Tx, t: Option<Id>, e: Option<Id>)
    requires Inv(s) && x in s.txs && !Blocked(s, x)
    requires GoodNext(s.db, s.txs[x], Next(tx, t, e))
    requires e.Some? ==> e == NeedsEvent(s, s.txs[x])
    ensures Inv(s.(ticketLocks := Take(s.ticketLocks, t, x), eventLocks := Take(s.eventLocks, e, x),
            txs := s.txs[x := tx]))
  {
    var s' := s.(ticketLocks := Take(s.ticketLocks, t, x), eventLocks := Take(s.eventLocks, e, x),
        txs := s.txs[x := tx]);
    NeededLocksAreFree(s, x);
    UpdateKeepsTxs(s.db, s.txs, x, tx);
    GrantTicket(s, x, tx, t, s');
    GrantEvent(s, x, tx, e, s');
  }

  lemma NextLocksWhatItNeeds(s: Sys, tx: Tx)
    requires Consistent(s.db) && TxOk(s.db, tx)
    ensures var o := Statement(s.db, tx); o.Next? && o.eventLock.Some? ==> o.eventLock == NeedsEvent(s, tx)
  {
  }

  /** Publishing the row of `x` leaves every other open transaction as it was. */
  lemma CommitKeepsOthers(s: Sys, x: TxId, after: DB)
    requires Inv(s) && x in s.txs && s.txs[x].pc == Ready
    requires WritesItsAnswer(s.db, s.txs[x].call, after, Ok(Row(s.txs[x])))
    ensures TxsOk(after, s.txs - {x})
  {
    var tx := s.txs[x];
    forall y | y in s.txs && y != x
      ensures TxOk(after, s.txs[y])
    {
      CommitElsewhere(s.db, tx.call, after, Row(tx), s.txs[y]);
    }
  }

  lemma CommitKeeps(s: Sys, x: TxId, after: DB)
    requires Inv(s) && x in s.txs && s.txs[x].pc == Ready && after == View(s.db, s.txs[x])
    ensures Consistent(after) && TxsOk(after, s.txs - {x})
  {
    CommitIsAtomic(s.db, s.txs[x]);
    AtomicKeeps(s.db, s.txs[x].call);
    AnswerIsTheRowWritten(s.db, s.txs[x].call);
    CommitKeepsOthers(s, x, after);
  }

  lemma CommittedWhenReady(db: DB, tx: Tx)
    requires Statement(db, tx).Committed?
    ensures tx.pc == Ready && Statement(db, tx).db == View(db, tx)
  {
  }

  lemma ExecuteKeeps(s: Sys, x: TxId)
    requires Inv(s) && x in s.txs && !Blocked(s, x)
    ensures Inv(Execute(s, x))
  {
    var tx := s.txs[x];
    StatementGood(s.db, tx);
    match Statement(s.db, tx)
    case Refused(err) => CloseKeeps(s, x, s.db, s.log + [(tx.call, Err(err))]);
    case Committed(after, t) =>
      CommittedWhenReady(s.db, tx);
      CommitKeeps(s, x, after);
      CloseKeeps(s, x, after, s.log + [(tx.call, Ok(t))]);
    case Next(next, t, e) =>
      NextLocksWhatItNeeds(s, tx);
      NextKeeps(s, x, next, t, e);
  }

  lemma OpenKeepsLocks(s: Sys, x: TxId, c: Call)
    requires TicketLocksHold(s) && EventLocksHold(s) && x !in s.txs
    ensures TicketLocksHold(Open(s, x, c)) && EventLocksHold(Open(s, x, c))
  {
  }

  lemma OpenKeeps(s: Sys, x: TxId, c: Call)
    requires Inv(s) && x !in s.txs && Fresh(s, c)
    ensures Inv(Open(s, x, c))
  {
    var s' := Open(s, x, c);
    assert TxsOk(s'.db, s'.txs) && DistinctDraws(s'.txs);
    OpenKeepsLocks(s, x, c);
  }

  lemma MoveKeeps(s: Sys, m: Move)
    requires Inv(s) && Allowed(s, m)
    ensures Inv(After(s, m))
  {
    match m
    case Start(x, c) => OpenKeeps(s, x, c);
    case Run(x) => ExecuteKeeps(s, x);
    case Lose(x) => CloseKeeps(s, x, s.db, s.log);
  }

  // ----- serializability -----

  /** The finished calls as one-at-a-time transactions. */
  function Serialized(log: seq<(Call, Reply)>): seq<Runs.Op> {
    seq(|log|, i requires 0 <= i < |log| => Runs.Request(log[i].0))
  }

  /** The committed rows, and every reply given, are those of the serial run of the finished calls. */
  ghost predicate Serial(db: DB, s: Sys)
    requires Consistent(db)
  {
    && s.db == Runs.Run(db, Serialized(s.log))
    && forall i | 0 <= i < |s.log| ::
         s.log[i].1 == Atomic(Runs.Run(db, Serialized(s.log[..i])), s.log[i].0).1
  }

  lemma SerialExtends(db: DB, s: Sys, s': Sys, c: Call, r: Reply)
    requires Consistent(db) && Serial(db, s) && Consistent(s.db)
    requires s'.log == s.log + [(c, r)] && (s'.db, r) == Atomic(s.db, c)
    ensures Serial(db, s')
  {
    var ops := Serialized(s'.log);
    assert Runs.Front(ops) == Serialized(s.log);
    assert Runs.Last(ops) == Runs.Request(c);
    forall i | 0 <= i < |s'.log|
      ensures s'.log[i].1 == Atomic(Runs.Run(db, Serialized(s'.log[..i])), s'.log[i].0).1
    {
      if i < |s.log| {
        assert s'.log[..i] == s.log[..i] && s'.log[i] == s.log[i];
      } else {
        assert s'.log[..i] == s.log;
      }
    }
  }

  lemma MoveKeepsSerial(db: DB, s: Sys, m: Move)
    requires Consistent(db) && Inv(s) && Serial(db, s) && Allowed(s, m)
    ensures Serial(db, After(s, m))
  {
    if m.Run? {
      var tx := s.txs[m.x];
      StatementGood(s.db, tx);
      match Statement(s.db, tx)
      case Refused(err) => SerialExtends(db, s, After(s, m), tx.call, Err(err));
      case Committed(_, t) => SerialExtends(db, s, After(s, m), tx.call, Ok(t));
      case Next(_, _, _) =>
    }
  }

  /**
   * Refinement: in every state reached by any interleaving of statements, starts
   * and lost connections, the committed rows and all replies given so far are
   * those of running the finished calls atomically, one after the other.
   */
  lemma {:induction false} EveryInterleavingIsSerial(db: DB, trace: seq<Sys>, moves: seq<Move>, i: nat)
    requires Consistent(db) && Behaviour(db, trace, moves) && i < |trace|
    ensures Inv(trace[i]) && Serial(db, trace[i])
  {
    if i == 0 {
      assert Serialized([]) == [];
    } else {
      EveryInterleavingIsSerial(db, trace, moves, i - 1);
      MoveKeeps(trace[i - 1], moves[i - 1]);
      MoveKeepsSerial(db, trace[i - 1], moves[i - 1]);
    }
  }

  /** Once its ticket row is written a call is never refused: in particular the decrement always finds a free seat. */
  lemma NoRefusalAfterTheInsert(db: DB, trace: seq<Sys>, moves: seq<Move>, i: nat, x: TxId)
    requires Consistent(db) && Behaviour(db, trace, moves) && i < |trace|
    requires x in trace[i].txs && Wrote(trace[i].txs[x])
    ensures !Statement(trace[i].db, trace[i].txs[x]).Refused?
  {
    EveryInterleavingIsSerial(db, trace, moves, i);
    StatementGood(trace[i].db, trace[i].txs[x]);
  }

  // ----- no deadlock -----

  /** How many more row locks a call still has to ask for. */
  function LocksToGo(tx: Tx): nat {
    if Past(tx) then 0 else if tx.pc == Located || tx.call.Register? then 1 else 2
  }

  /** Two calls inserting for one event would both hold its lock. */
  lemma InsertsNeverWait(s: Sys, x: TxId, y: TxId)
    requires Inv(s) && x in s.txs && y in s.txs && x != y
    ensures !InsertWaits(s, x, y)
  {
    if s.txs[y].wrote.tickets != map[] {
      assert TxOk(s.db, s.txs[y]) && Wrote(s.txs[y]);
      assert s.txs[y].wrote.tickets == map[Row(s.txs[y]).id := Row(s.txs[y])];
    }
  }

  /** A call only ever waits for one that has fewer locks to go: tickets before events. */
  lemma WaitsGoDown(s: Sys, x: TxId, y: TxId)
    requires Inv(s) && WaitsFor(s, x, y)
    ensures LocksToGo(s.txs[y]) < LocksToGo(s.txs[x])
  {
    InsertsNeverWait(s, x, y);
  }

  ghost predicate WaitChain(s: Sys, p: seq<TxId>) {
    forall i | 0 <= i < |p| - 1 :: WaitsFor(s, p[i], p[i + 1])
  }

  lemma {:induction false} ChainGoesDown(s: Sys, p: seq<TxId>)
    requires Inv(s) && WaitChain(s, p) && |p| >= 2
    ensures p[0] in s.txs && p[|p| - 1] in s.txs
    ensures LocksToGo(s.txs[p[|p| - 1]]) + |p| - 1 <= LocksToGo(s.txs[p[0]])
  {
    WaitsGoDown(s, p[0], p[1]);
    if |p| > 2 {
      assert p[1..][|p| - 2] == p[|p| - 1];
      assert WaitChain(s, p[1..]) by {
        forall i | 0 <= i < |p[1..]| - 1 ensures WaitsFor(s, p[1..][i], p[1..][i + 1]) {
          assert WaitsFor(s, p[i + 1], p[i + 2]);
        }
      }
      ChainGoesDown(s, p[1..]);
    }
  }

  /** No reachable state has a cycle of waiting calls; wait chains have at most three members. */
  lemma NoWaitCycle(db: DB, trace: seq<Sys>, moves: seq<Move>, i: nat, p: seq<TxId>)
    requires Consistent(db) && Behaviour(db, trace, moves) && i < |trace|
    requires WaitChain(trace[i], p) && |p| >= 2
    ensures p[0] != p[|p| - 1] && |p| <= 3
  {
    EveryInterleavingIsSerial(db, trace, moves, i);
    ChainGoesDown(trace[i], p);
  }

  lemma {:induction false} UnblockedAtTheEnd(s: Sys, x: TxId) returns (y: TxId)
    requires Inv(s) && x in s.txs
    ensures y in s.txs && !Blocked(s, y)
    decreases LocksToGo(s.txs[x])
  {
    if Blocked(s, x) {
      var z :| z in s.txs && WaitsFor(s, x, z);
      WaitsGoDown(s, x, z);
      y := UnblockedAtTheEnd(s, z);
    } else {
      y := x;
    }
  }

  /** As long as a call is open, some open call can run its next statement. */
  lemma SomeoneCanAlwaysProceed(db: DB, trace: seq<Sys>, moves: seq<Move>, i: nat)
    requires Consistent(db) && Behaviour(db, trace, moves) && i < |trace|
    requires trace[i].txs != map[]
    ensures exists x <- trace[i].txs :: Allowed(trace[i], Run(x))
  {
    EveryInterleavingIsSerial(db, trace, moves, i);
    var x :| x in trace[i].txs;
    var y := UnblockedAtTheEnd(trace[i], x);
    assert Allowed(trace[i], Run(y));
  }
}
