/**
 * Register, Cancel and Use as interleaved SQL statements: any number of open
 * transactions, row locks on tickets and events, and writes that stay private
 * until COMMIT. Statements read the last committed rows plus the transaction's
 * own writes (READ COMMITTED).
 */
module SeatLocks {
  import opened Common
  import opened Seats

  type TxId = nat

  /**
   * The statement a transaction runs next.
   *   Begin    lock the ticket row (Cancel, Use) or the event row (Register)
   *   Located  lock the event row of the ticket read (Cancel, Use)
   *   Cleared  write the ticket row
   *   Written  update capacity_available
   *   Counted  read the ticket row back for the reply (Cancel, Use)
   *   Ready    COMMIT
   */
  datatype Pc = Begin | Located | Cleared | Written | Counted | Ready

  datatype Tx = Tx(call: Call, pc: Pc, read: Option<Ticket>, reply: Option<Ticket>, wrote: DB)

  /** `log` lists finished calls with the reply each caller received, in finishing order. */
  datatype Sys = Sys(
    db: DB,
    ticketLocks: map<Id, TxId>,
    eventLocks: map<Id, TxId>,
    txs: map<TxId, Tx>,
    log: seq<(Call, Reply)>)

  const NOTHING := DB(map[], map[])

  /** What a statement of `tx` sees. */
  function View(db: DB, tx: Tx): DB {
    DB(db.events + tx.wrote.events, db.tickets + tx.wrote.tickets)
  }

  // ----- which lock the next statement needs -----

  /** The ticket row that Cancel or Use looks up, if it exists. */
  ghost function Target(db: DB, c: Call): (t: Option<Id>)
    ensures t.Some? ==> t.value in db.tickets
  {
    match c
    case Register(_, _, _, _, _) => None
    case Cancel(user, t, _, _) => if t in db.tickets && db.tickets[t].userId == user then Some(t) else None
    case Use(qr, _) => if QrTaken(db.tickets, qr) then Some(ByQr(db.tickets, qr)) else None
  }

  ghost function NeedsTicket(s: Sys, tx: Tx): Option<Id> {
    if tx.pc == Begin then Target(s.db, tx.call) else None
  }

  ghost function NeedsEvent(s: Sys, tx: Tx): Option<Id> {
    if tx.pc == Begin && tx.call.Register? && tx.call.event in s.db.events then Some(tx.call.event)
    else if tx.pc == Located && tx.read.Some? then Some(tx.read.value.eventId)
    else None
  }

  /** An insert waits for any other transaction holding an uncommitted ticket of the same event and attendee. */
  ghost predicate InsertWaits(s: Sys, x: TxId, y: TxId)
    requires x in s.txs && y in s.txs
  {
    var tx := s.txs[x];
    && tx.pc == Cleared && tx.call.Register?
    && exists t <- s.txs[y].wrote.tickets ::
         var row := s.txs[y].wrote.tickets[t];
         row.eventId == tx.call.event && row.userId == tx.call.user
  }

  ghost predicate WaitsFor(s: Sys, x: TxId, y: TxId) {
    && x in s.txs && y in s.txs && x != y
    && (|| (NeedsTicket(s, s.txs[x]).Some? && NeedsTicket(s, s.txs[x]).value in s.ticketLocks
            && s.ticketLocks[NeedsTicket(s, s.txs[x]).value] == y)
        || (NeedsEvent(s, s.txs[x]).Some? && NeedsEvent(s, s.txs[x]).value in s.eventLocks
            && s.eventLocks[NeedsEvent(s, s.txs[x]).value] == y)
        || InsertWaits(s, x, y))
  }

  ghost predicate Blocked(s: Sys, x: TxId) {
    exists y <- s.txs :: WaitsFor(s, x, y)
  }

  // ----- statements -----

  /** The refusal that Cancel or Use takes from the locked ticket row. */
  function EarlyRefusal(t: Ticket, c: Call): Option<Error>
    requires !c.Register?
  {
    if c.Cancel? then if t.status == Cancelled then Some(TicketAlreadyCancelled) else None
    else match t.status
      case Active => None
      case Used => Some(TicketAlreadyUsed)
      case Cancelled => Some(TicketCannotBeUsed)
  }

  /** The refusal that Cancel or Use takes from the locked event row. */
  function LateRefusal(ev: Event, c: Call): Option<Error>
    requires !c.Register?
  {
    match c
    case Cancel(_, _, now, afterStart) =>
      if !afterStart && ev.startsAt <= now then Some(CancellationNotAllowed) else None
    case Use(_, now) => UseRefusal(ev, now)
  }

  /** What a statement does: roll back with an error, publish, or go on, perhaps with a new lock. */
  datatype Outcome =
    | Refused(err: Error)
    | Committed(db: DB, reply: Ticket)
    | Next(tx: Tx, ticketLock: Option<Id>, eventLock: Option<Id>)

  function Goes(tx: Tx): Outcome {
    Next(tx, None, None)
  }

  function LockEvent(tx: Tx, e: Id): Outcome {
    Next(tx.(pc := Cleared), None, Some(e))
  }

  ghost function LockFirst(db: DB, tx: Tx): Outcome {
    if tx.call.Register? then
      if tx.call.event !in db.events then Refused(EventNotFound)
      else (
        match RegisterRefusal(db.events[tx.call.event], tx.call.now)
        case Some(err) => Refused(err)
        case None => LockEvent(tx, tx.call.event))
    else (
      match Target(db, tx.call)
      case None => Refused(TicketNotFound)
      case Some(t) =>
        match EarlyRefusal(db.tickets[t], tx.call)
        case Some(err) => Refused(err)
        case None => Next(tx.(pc := Located, read := Some(db.tickets[t])), Some(t), None))
  }

  function LockSecond(db: DB, tx: Tx): Outcome {
    if tx.call.Register? || tx.read.None? || tx.read.value.eventId !in db.events then Refused(EventNotFound)
    else (
      match LateRefusal(db.events[tx.read.value.eventId], tx.call)
      case Some(err) => Refused(err)
      case None => LockEvent(tx, tx.read.value.eventId))
  }

  function PutTicket(tx: Tx, t: Ticket): Tx {
    tx.(pc := Written, wrote := tx.wrote.(tickets := tx.wrote.tickets[t.id := t]))
  }

  /** INSERT ... ON CONFLICT DO NOTHING RETURNING, or UPDATE tickets ... WHERE status = 'active'. */
  function WriteTicket(view: DB, tx: Tx): Outcome {
    if tx.call.Register? then
      if Conflict(view.tickets, tx.call.event, tx.call.user) then Refused(AlreadyRegistered)
      else if tx.call.newTicket in view.tickets || QrTaken(view.tickets, tx.call.newQr) then
        Refused(ConstraintViolation)
      else Goes(PutTicket(tx, NewTicket(tx.call)).(reply := Some(NewTicket(tx.call))))
    else if tx.read.None? || tx.read.value.id !in view.tickets then Refused(TicketNotFound)
    else
      var row := view.tickets[tx.read.value.id];
      if row.status == Active then
        Goes(PutTicket(tx, row.(status := if tx.call.Cancel? then Cancelled else Used)))
      else if tx.call.Cancel? then Refused(TicketAlreadyCancelled)
      else Goes(tx.(pc := Written))
  }

  function PutEvent(tx: Tx, pc: Pc, e: Id, ev: Event): Tx {
    tx.(pc := pc, wrote := tx.wrote.(events := tx.wrote.events[e := ev]))
  }

  /** The decrement of registration (WHERE capacity_available > 0), or the recount. */
  function UpdateCounter(view: DB, tx: Tx): Outcome {
    if tx.call.Register? then
      if tx.call.event !in view.events || view.events[tx.call.event].available <= 0 then Refused(CapacityFull)
      else
        var ev := view.events[tx.call.event];
        Goes(PutEvent(tx, Ready, tx.call.event, ev.(available := ev.available - 1)))
    else if tx.read.None? || tx.read.value.eventId !in view.events then Refused(EventNotFound)
    else
      var e := tx.read.value.eventId;
      var ev := view.events[e];
      Goes(PutEvent(tx, Counted, e, ev.(available := Recount(view.tickets, e, ev.total))))
  }

  function ReadBack(view: DB, tx: Tx): Outcome {
    if tx.read.None? || tx.read.value.id !in view.tickets then Refused(TicketNotFound)
    else Goes(tx.(pc := Ready, reply := Some(view.tickets[tx.read.value.id])))
  }

  ghost function Statement(db: DB, tx: Tx): Outcome {
    match tx.pc
    case Begin => LockFirst(db, tx)
    case Located => LockSecond(db, tx)
    case Cleared => WriteTicket(View(db, tx), tx)
    case Written => UpdateCounter(View(db, tx), tx)
    case Counted => ReadBack(View(db, tx), tx)
    case Ready => if tx.reply.None? then Refused(TicketNotFound) else Committed(View(db, tx), tx.reply.value)
  }

  // ----- moves of the whole system -----

  function Release(locks: map<Id, TxId>, x: TxId): map<Id, TxId> {
    map k | k in locks && locks[k] != x :: locks[k]
  }

  function Take(locks: map<Id, TxId>, k: Option<Id>, x: TxId): map<Id, TxId> {
    if k.Some? then locks[k.value := x] else locks
  }

  /** End transaction `x`: drop its private writes and its locks. */
  function Close(s: Sys, x: TxId): Sys {
    s.(ticketLocks := Release(s.ticketLocks, x), eventLocks := Release(s.eventLocks, x), txs := s.txs - {x})
  }

  /** Transaction `x` runs its next statement, having been granted any lock it needs. */
  ghost function Execute(s: Sys, x: TxId): Sys
    requires x in s.txs
  {
    match Statement(s.db, s.txs[x])
    case Refused(err) => Close(s, x).(log := s.log + [(s.txs[x].call, Err(err))])
    case Committed(db, t) => Close(s, x).(db := db, log := s.log + [(s.txs[x].call, Ok(t))])
    case Next(tx, t, e) =>
      s.(ticketLocks := Take(s.ticketLocks, t, x), eventLocks := Take(s.eventLocks, e, x), txs := s.txs[x := tx])
  }

  /** UUIDs are drawn fresh: no committed row and no other open call has this id or QR hash. */
  ghost predicate Fresh(s: Sys, c: Call) {
    c.Register? ==>
      && c.newTicket !in s.db.tickets && !QrTaken(s.db.tickets, c.newQr)
      && forall y <- s.txs | s.txs[y].call.Register? ::
           s.txs[y].call.newTicket != c.newTicket && s.txs[y].call.newQr != c.newQr
  }

  function Open(s: Sys, x: TxId, c: Call): Sys {
    s.(txs := s.txs[x := Tx(c, Begin, None, None, NOTHING)])
  }

  /** `Lose` is a lost connection: the transaction rolls back and nobody is answered. */
  datatype Move = Start(x: TxId, c: Call) | Run(x: TxId) | Lose(x: TxId)

  ghost predicate Allowed(s: Sys, m: Move) {
    match m
    case Start(x, c) => x !in s.txs && Fresh(s, c)
    case Run(x) => x in s.txs && !Blocked(s, x)
    case Lose(x) => x in s.txs
  }

  ghost function After(s: Sys, m: Move): Sys
    requires Allowed(s, m)
  {
    match m
    case Start(x, c) => Open(s, x, c)
    case Run(x) => Execute(s, x)
    case Lose(x) => Close(s, x)
  }

  function Initial(db: DB): Sys {
    Sys(db, map[], map[], map[], [])
  }

  /** The states passed through from a quiet database `db` under the given moves. */
  ghost predicate Behaviour(db: DB, trace: seq<Sys>, moves: seq<Move>) {
    && |trace| == |moves| + 1
    && trace[0] == Initial(db)
    && forall i | 0 <= i < |moves| :: Allowed(trace[i], moves[i]) && trace[i + 1] == After(trace[i], moves[i])
  }
}
