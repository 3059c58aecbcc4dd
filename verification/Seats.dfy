/**
 * The seat tables (`events` and `tickets`) and the effect of one committed
 * transaction on them.
 *
 * `capacity_available` is kept in two ways: registration decrements it, every
 * other writer recounts it from the tickets. `Consistent` is the law that makes
 * the two agree.
 */
module Seats {
  import opened Common

  datatype TicketStatus = Active | Used | Cancelled

  datatype Ticket = Ticket(id: Id, eventId: Id, userId: Id, status: TicketStatus, qr: Id, createdAt: Time)

  datatype EventStatus = Draft | Published | Withdrawn

  datatype Moderation = Pending | Approved | Rejected

  datatype Event = Event(
    startsAt: Time, endAt: Option<Time>,
    total: int, available: int,
    status: EventStatus, moderation: Moderation, organizer: Option<Id>)

  datatype DB = DB(events: map<Id, Event>, tickets: map<Id, Ticket>)

  datatype Error =
    | EventNotFound | EventCancelled | EventNotPublished | EventNotApproved
    | RegistrationClosed | CapacityFull | AlreadyRegistered
    | TicketNotFound | TicketAlreadyCancelled | CancellationNotAllowed
    | TicketAlreadyUsed | TicketCannotBeUsed | CheckInNotOpenYet | TicketExpired
    | ConstraintViolation

  type Reply = Result<Ticket, Error>

  /** The three attendee-side transactions. Ticket ids and QR hashes are drawn by the caller. */
  datatype Call =
    | Register(user: Id, event: Id, newTicket: Id, newQr: Id, now: Time)
    | Cancel(user: Id, ticket: Id, now: Time, afterStart: bool)
    | Use(qr: Id, now: Time)

  datatype EventPatch = EventPatch(
    startsAt: Option<Time>, endAt: Option<Time>, total: Option<int>, status: Option<EventStatus>)

  // ----- counting seats -----

  /** An active or used ticket of event `e` occupies a seat. */
  predicate Seated(t: Ticket, e: Id) {
    t.eventId == e && t.status != Cancelled
  }

  function HeldBy(tickets: map<Id, Ticket>, e: Id): set<Id> {
    set t | t in tickets && Seated(tickets[t], e)
  }

  function Held(tickets: map<Id, Ticket>, e: Id): nat {
    |HeldBy(tickets, e)|
  }

  /** GREATEST(0, capacity_total - COUNT(active or used)). */
  function Recount(tickets: map<Id, Ticket>, e: Id, total: int): int {
    if total - Held(tickets, e) > 0 then total - Held(tickets, e) else 0
  }

  function Weight(t: Ticket, e: Id): int {
    if Seated(t, e) then 1 else 0
  }

  lemma HeldAfterInsert(tickets: map<Id, Ticket>, t: Ticket, e: Id)
    requires t.id !in tickets
    ensures Held(tickets[t.id := t], e) == Held(tickets, e) + Weight(t, e)
  {
    if Seated(t, e) {
      assert HeldBy(tickets[t.id := t], e) == HeldBy(tickets, e) + {t.id};
    } else {
      assert HeldBy(tickets[t.id := t], e) == HeldBy(tickets, e);
    }
  }

  lemma HeldAfterUpdate(tickets: map<Id, Ticket>, t: Ticket, e: Id)
    requires t.id in tickets
    ensures Held(tickets[t.id := t], e) == Held(tickets, e) + Weight(t, e) - Weight(tickets[t.id], e)
  {
    var rest := HeldBy(tickets, e) - {t.id};
    assert HeldBy(tickets, e) == if Seated(tickets[t.id], e) then rest + {t.id} else rest;
    assert HeldBy(tickets[t.id := t], e) == if Seated(t, e) then rest + {t.id} else rest;
  }

  // ----- table constraints and the counter law -----

  /** Primary keys, the ticket-to-event foreign key, the unique indexes and CHECK constraints. */
  ghost predicate Schema(db: DB) {
    && (forall t <- db.tickets :: db.tickets[t].id == t && db.tickets[t].eventId in db.events)
    && UniqueQr(db.tickets)
    && UniqueSeat(db.tickets)
    && (forall e <- db.events :: db.events[e].total >= 1 && db.events[e].available >= 0)
  }

  ghost predicate UniqueQr(tickets: map<Id, Ticket>) {
    forall t <- tickets, u <- tickets | tickets[t].qr == tickets[u].qr :: t == u
  }

  /** At most one active or used ticket per event and attendee. */
  ghost predicate UniqueSeat(tickets: map<Id, Ticket>) {
    forall t <- tickets, u <- tickets |
      && tickets[t].eventId == tickets[u].eventId && tickets[t].userId == tickets[u].userId
      && tickets[t].status != Cancelled && tickets[u].status != Cancelled :: t == u
  }

  /** The stored counter of every event is the clamped recount. */
  ghost predicate Counted(db: DB) {
    forall e <- db.events :: db.events[e].available == Recount(db.tickets, e, db.events[e].total)
  }

  ghost predicate Consistent(db: DB) {
    Schema(db) && Counted(db)
  }

  // ----- one transaction at a time -----

  function EventEnd(ev: Event): Time {
    match ev.endAt case Some(t) => t case None => ev.startsAt
  }

  /** What registration refuses after reading the locked event row, first reason first. */
  function RegisterRefusal(ev: Event, now: Time): Option<Error> {
    if ev.status == Withdrawn then Some(EventCancelled)
    else if ev.status != Published then Some(EventNotPublished)
    else if ev.moderation != Approved then Some(EventNotApproved)
    else if ev.startsAt <= now then Some(RegistrationClosed)
    else if ev.available <= 0 then Some(CapacityFull)
    else None
  }

  /** The partial unique index on (event_id, user_id) would reject a new active ticket. */
  predicate Conflict(tickets: map<Id, Ticket>, e: Id, user: Id) {
    exists t <- tickets :: Seated(tickets[t], e) && tickets[t].userId == user
  }

  predicate QrTaken(tickets: map<Id, Ticket>, qr: Id) {
    exists t <- tickets :: tickets[t].qr == qr
  }

  ghost function ByQr(tickets: map<Id, Ticket>, qr: Id): (t: Id)
    requires QrTaken(tickets, qr)
    ensures t in tickets && tickets[t].qr == qr
  {
    var t :| t in tickets && tickets[t].qr == qr; t
  }

  function UseRefusal(ev: Event, now: Time): Option<Error> {
    if ev.status == Withdrawn then Some(TicketCannotBeUsed)
    else if ev.startsAt > now then Some(CheckInNotOpenYet)
    else if now > EventEnd(ev) then Some(TicketExpired)
    else None
  }

  /** Write one ticket row and recount its event. */
  function WriteAndRecount(db: DB, t: Ticket): DB
    requires t.eventId in db.events
  {
    var tickets := db.tickets[t.id := t];
    var ev := db.events[t.eventId];
    DB(db.events[t.eventId := ev.(available := Recount(tickets, t.eventId, ev.total))], tickets)
  }

  function NewTicket(c: Call): Ticket
    requires c.Register?
  {
    Ticket(c.newTicket, c.event, c.user, Active, c.newQr, c.now)
  }

  function RegisterTx(db: DB, c: Call): (DB, Reply)
    requires c.Register?
  {
    if c.event !in db.events then (db, Err(EventNotFound)) else
    var ev := db.events[c.event];
    match RegisterRefusal(ev, c.now)
    case Some(err) => (db, Err(err))
    case None =>
      if Conflict(db.tickets, c.event, c.user) then (db, Err(AlreadyRegistered))
      else if c.newTicket in db.tickets || QrTaken(db.tickets, c.newQr) then (db, Err(ConstraintViolation))
      else
        (DB(db.events[c.event := ev.(available := ev.available - 1)], db.tickets[c.newTicket := NewTicket(c)]),
         Ok(NewTicket(c)))
  }

  function CancelTx(db: DB, c: Call): (DB, Reply)
    requires c.Cancel?
    requires Schema(db)
  {
    if c.ticket !in db.tickets || db.tickets[c.ticket].userId != c.user then (db, Err(TicketNotFound)) else
    var t := db.tickets[c.ticket];
    if t.status == Cancelled then (db, Err(TicketAlreadyCancelled))
    else if !c.afterStart && db.events[t.eventId].startsAt <= c.now then (db, Err(CancellationNotAllowed))
    else if t.status == Used then (db, Err(TicketAlreadyCancelled))
    else (WriteAndRecount(db, t.(status := Cancelled)), Ok(t.(status := Cancelled)))
  }

  ghost function UseTx(db: DB, c: Call): (DB, Reply)
    requires c.Use?
    requires Schema(db)
  {
    if !QrTaken(db.tickets, c.qr) then (db, Err(TicketNotFound)) else
    var t := db.tickets[ByQr(db.tickets, c.qr)];
    match t.status
    case Used => (db, Err(TicketAlreadyUsed))
    case Cancelled => (db, Err(TicketCannotBeUsed))
    case Active =>
      match UseRefusal(db.events[t.eventId], c.now)
      case Some(err) => (db, Err(err))
      case None => (WriteAndRecount(db, t.(status := Used)), Ok(t.(status := Used)))
  }

  ghost function Atomic(db: DB, c: Call): (DB, Reply)
    requires Schema(db)
  {
    match c
    case Register(_, _, _, _, _) => RegisterTx(db, c)
    case Cancel(_, _, _, _) => CancelTx(db, c)
    case Use(_, _) => UseTx(db, c)
  }

  function CreateTx(db: DB, e: Id, startsAt: Time, endAt: Option<Time>, total: int, organizer: Id): DB {
    if e in db.events || total < 1 then db
    else db.(events := db.events[e := Event(startsAt, endAt, total, total, Published, Pending, Some(organizer))])
  }

  function Patched(tickets: map<Id, Ticket>, e: Id, ev: Event, p: EventPatch): Event {
    var total := if p.total.Some? then p.total.value else ev.total;
    Event(
      if p.startsAt.Some? then p.startsAt.value else ev.startsAt,
      if p.endAt.Some? then p.endAt else ev.endAt,
      total,
      if p.total.Some? then Recount(tickets, e, total) else ev.available,
      if p.status.Some? then p.status.value else ev.status,
      ev.moderation, ev.organizer)
  }

  function UpdateTx(db: DB, e: Id, p: EventPatch): DB {
    if e !in db.events || (p.total.Some? && p.total.value < 1) then db
    else db.(events := db.events[e := Patched(db.tickets, e, db.events[e], p)])
  }

  function ModerateTx(db: DB, e: Id, m: Moderation): DB {
    if e !in db.events then db else db.(events := db.events[e := db.events[e].(moderation := m)])
  }

  function WithoutEvent(tickets: map<Id, Ticket>, e: Id): map<Id, Ticket> {
    map t | t in tickets && tickets[t].eventId != e :: tickets[t]
  }

  /** Deleting an event cascades to its tickets. */
  function DeleteTx(db: DB, e: Id): DB {
    DB(db.events - {e}, WithoutEvent(db.tickets, e))
  }

  // ----- what one transaction keeps -----

  /** A write of one ticket row moves only the count of that ticket's event. */
  lemma WriteAndRecountKeeps(db: DB, t: Ticket)
    requires Consistent(db) && t.id in db.tickets
    requires t.eventId == db.tickets[t.id].eventId && t.userId == db.tickets[t.id].userId
    requires t.qr == db.tickets[t.id].qr && db.tickets[t.id].status != Cancelled
    ensures Consistent(WriteAndRecount(db, t))
  {
    var after := WriteAndRecount(db, t);
    forall e | e in after.events
      ensures after.events[e].available == Recount(after.tickets, e, after.events[e].total)
    {
      HeldAfterUpdate(db.tickets, t, e);
    }
  }

  lemma UniqueAfterInsert(tickets: map<Id, Ticket>, t: Ticket)
    requires UniqueQr(tickets) && UniqueSeat(tickets)
    requires t.id !in tickets && !QrTaken(tickets, t.qr) && !Conflict(tickets, t.eventId, t.userId)
    ensures UniqueQr(tickets[t.id := t]) && UniqueSeat(tickets[t.id := t])
  {
  }

  lemma RegisterKeeps(db: DB, c: Call)
    requires Consistent(db) && c.Register?
    ensures Consistent(RegisterTx(db, c).0)
  {
    var after := RegisterTx(db, c).0;
    if RegisterTx(db, c).1.Ok? {
      UniqueAfterInsert(db.tickets, NewTicket(c));
      forall e | e in after.events
        ensures after.events[e].available == Recount(after.tickets, e, after.events[e].total)
      {
        HeldAfterInsert(db.tickets, NewTicket(c), e);
      }
    }
  }

  lemma AtomicKeeps(db: DB, c: Call)
    requires Consistent(db)
    ensures Consistent(Atomic(db, c).0)
  {
    match c
    case Register(_, _, _, _, _) => RegisterKeeps(db, c);
    case Cancel(_, _, _, _) =>
      if CancelTx(db, c).1.Ok? { WriteAndRecountKeeps(db, CancelTx(db, c).1.value); }
    case Use(_, _) =>
      if UseTx(db, c).1.Ok? { WriteAndRecountKeeps(db, UseTx(db, c).1.value); }
  }

  /** The fast decrement of registration is the recount that the slow path would have stored. */
  lemma DecrementIsRecount(db: DB, c: Call)
    requires Consistent(db) && c.Register?
    requires RegisterTx(db, c).1.Ok?
    ensures RegisterTx(db, c).0 == WriteAndRecount(db, NewTicket(c))
  {
    HeldAfterInsert(db.tickets, NewTicket(c), c.event);
  }

  lemma HeldWithoutEvent(tickets: map<Id, Ticket>, e: Id, f: Id)
    ensures Held(WithoutEvent(tickets, e), f) == if f == e then 0 else Held(tickets, f)
  {
    assert HeldBy(WithoutEvent(tickets, e), f) == if f == e then {} else HeldBy(tickets, f);
  }

  lemma DeleteKeeps(db: DB, e: Id)
    requires Consistent(db)
    ensures Consistent(DeleteTx(db, e))
    ensures Held(DeleteTx(db, e).tickets, e) == 0
    ensures forall f | f != e :: Held(DeleteTx(db, e).tickets, f) == Held(db.tickets, f)
  {
    forall f ensures Held(WithoutEvent(db.tickets, e), f) == if f == e then 0 else Held(db.tickets, f) {
      HeldWithoutEvent(db.tickets, e, f);
    }
  }

  lemma DeletingNothing(db: DB, e: Id)
    requires Schema(db) && e !in db.events
    ensures DeleteTx(db, e) == db
  {
    assert WithoutEvent(db.tickets, e) == db.tickets;
  }

  lemma CreateKeeps(db: DB, e: Id, startsAt: Time, endAt: Option<Time>, total: int, organizer: Id)
    requires Consistent(db)
    ensures Consistent(CreateTx(db, e, startsAt, endAt, total, organizer))
  {
    if e !in db.events && total >= 1 {
      assert HeldBy(db.tickets, e) == {};
    }
  }

  // ----- the shape of every answer -----

  /** A refusal changes nothing; a success writes exactly the ticket row it answers with. */
  ghost predicate WritesItsAnswer(db: DB, c: Call, after: DB, reply: Reply) {
    match reply
    case Err(_) => after == db
    case Ok(t) =>
      && t.eventId in db.events && after.events.Keys == db.events.Keys
      && (forall e <- db.events :: after.events[e].total == db.events[e].total
                                && after.events[e].startsAt == db.events[e].startsAt
                                && (e != t.eventId ==> after.events[e] == db.events[e]))
      && after.tickets == db.tickets[t.id := t]
      && if c.Register? then t.id !in db.tickets && t == NewTicket(c)
         else && t.id in db.tickets && db.tickets[t.id].status == Active
              && t == db.tickets[t.id].(status := if c.Use? then Used else Cancelled)
  }

  lemma AnswerIsTheRowWritten(db: DB, c: Call)
    requires Schema(db)
    ensures WritesItsAnswer(db, c, Atomic(db, c).0, Atomic(db, c).1)
  {
  }

  // ----- when each call succeeds -----

  /** Registration succeeds exactly for a published, approved, future event with a free seat, once per attendee. */
  lemma RegisterSucceedsIff(db: DB, c: Call)
    requires Consistent(db) && c.Register?
    requires c.newTicket !in db.tickets && !QrTaken(db.tickets, c.newQr)
    ensures RegisterTx(db, c).1.Ok? <==>
            && c.event in db.events
            && db.events[c.event].status == Published && db.events[c.event].moderation == Approved
            && c.now < db.events[c.event].startsAt
            && Held(db.tickets, c.event) < db.events[c.event].total
            && !(exists t <- db.tickets :: Seated(db.tickets[t], c.event) && db.tickets[t].userId == c.user)
  {
  }

  // ----- the answers, written out -----

  /** A successful call replaces this one ticket row and moves at most this event's counter. */
  ghost predicate Becomes(db: DB, after: DB, t: Ticket) {
    && after.tickets == db.tickets[t.id := t] && after.events.Keys == db.events.Keys
    && forall e <- db.events ::
         && after.events[e] == db.events[e].(available := after.events[e].available)
         && (e != t.eventId ==> after.events[e] == db.events[e])
  }

  /** Seats of `e` taken by active or used tickets. */
  function SeatsTaken(db: DB, e: Id): set<Id> {
    set t | t in db.tickets && db.tickets[t].eventId == e && db.tickets[t].status in {Active, Used}
  }

  /** What registration answers, reason by reason, and what a success leaves. */
  lemma RegisterAnswers(db: DB, c: Call)
    requires Consistent(db) && c.Register?
    ensures Atomic(db, c).1 == Err(EventNotFound) <==> c.event !in db.events
    ensures c.event in db.events ==>
              var r, ev := Atomic(db, c).1, db.events[c.event];
              var open := ev.status == Published && ev.moderation == Approved && c.now < ev.startsAt;
              var free := open && |SeatsTaken(db, c.event)| < ev.total;
              var seated := exists t <- db.tickets ::
                && db.tickets[t].eventId == c.event && db.tickets[t].userId == c.user
                && db.tickets[t].status in {Active, Used};
              var taken := c.newTicket in db.tickets || exists t <- db.tickets :: db.tickets[t].qr == c.newQr;
              && (r == Err(EventCancelled) <==> ev.status == Withdrawn)
              && (r == Err(EventNotPublished) <==> ev.status == Draft)
              && (r == Err(EventNotApproved) <==> ev.status == Published && ev.moderation in {Pending, Rejected})
              && (r == Err(RegistrationClosed) <==>
                  ev.status == Published && ev.moderation == Approved && ev.startsAt <= c.now)
              && (r == Err(CapacityFull) <==> open && !free)
              && (r == Err(AlreadyRegistered) <==> free && seated)
              && (r == Err(ConstraintViolation) <==> free && !seated && taken)
              && (r.Ok? <==> free && !seated && !taken)
    ensures Atomic(db, c).1.Ok? ==>
              && Atomic(db, c).1.value == Ticket(c.newTicket, c.event, c.user, Active, c.newQr, c.now)
              && Becomes(db, Atomic(db, c).0, Ticket(c.newTicket, c.event, c.user, Active, c.newQr, c.now))
    ensures Atomic(db, c).1.Err? ==> Atomic(db, c).0 == db
  {
    if c.event in db.events { assert HeldBy(db.tickets, c.event) == SeatsTaken(db, c.event); }
  }

  /** What a cancellation answers, reason by reason, and what a success leaves. */
  lemma CancelAnswers(db: DB, c: Call)
    requires Consistent(db) && c.Cancel?
    ensures Atomic(db, c).1 == Err(TicketNotFound) <==>
              c.ticket !in db.tickets || db.tickets[c.ticket].userId != c.user
    ensures c.ticket in db.tickets && db.tickets[c.ticket].userId == c.user ==>
              var r, t := Atomic(db, c).1, db.tickets[c.ticket];
              var closed := !c.afterStart && db.events[t.eventId].startsAt <= c.now;
              && (r == Err(TicketAlreadyCancelled) <==> t.status == Cancelled || (t.status == Used && !closed))
              && (r == Err(CancellationNotAllowed) <==> t.status in {Active, Used} && closed)
              && (r.Ok? <==> t.status == Active && !closed)
              && (r.Ok? ==> r.value == t.(status := Cancelled) && Becomes(db, Atomic(db, c).0, r.value))
    ensures Atomic(db, c).1.Err? ==> Atomic(db, c).0 == db
  {
  }

  /** What a check-in answers, reason by reason, and what a success leaves. */
  lemma UseAnswers(db: DB, t: Id, now: Time)
    requires Consistent(db) && t in db.tickets
    ensures var c := Use(db.tickets[t].qr, now);
            var r, row := Atomic(db, c).1, db.tickets[t];
            var ev := db.events[row.eventId];
            var end := if ev.endAt.Some? then ev.endAt.value else ev.startsAt;
            var usable := row.status == Active && ev.status in {Draft, Published};
            && (r == Err(TicketAlreadyUsed) <==> row.status == Used)
            && (r == Err(TicketCannotBeUsed) <==>
                row.status == Cancelled || (row.status == Active && ev.status == Withdrawn))
            && (r == Err(CheckInNotOpenYet) <==> usable && now < ev.startsAt)
            && (r == Err(TicketExpired) <==> usable && ev.startsAt <= now && end < now)
            && (r.Ok? <==> usable && ev.startsAt <= now <= end)
            && (r.Ok? ==> r.value == row.(status := Used) && Becomes(db, Atomic(db, c).0, r.value))
            && (r.Err? ==> Atomic(db, c).0 == db)
  {
    assert ByQr(db.tickets, db.tickets[t].qr) == t;
  }

  lemma UnknownQrIsNotFound(db: DB, qr: Id, now: Time)
    requires Schema(db) && forall t <- db.tickets :: db.tickets[t].qr != qr
    ensures Atomic(db, Use(qr, now)) == (db, Err(TicketNotFound))
  {
  }

  /** Moderation decides whether attendees can register: only for an approved event. */
  lemma ModerationOpensRegistration(db: DB, e: Id, m: Moderation, c: Call)
    requires Consistent(db) && e in db.events && c.Register? && c.event == e
    ensures Atomic(ModerateTx(db, e, m), c).1.Ok? ==> m == Approved
    ensures m == Rejected && db.events[e].status == Published ==>
              Atomic(ModerateTx(db, e, m), c).1 == Err(EventNotApproved)
    ensures m == Approved && Atomic(db, c).1.Ok? ==> Atomic(ModerateTx(db, e, m), c).1.Ok?
  {
  }
}
