/**
 * The two tables as mutable state, and each repository method as the sequence of
 * SQL statements it runs on them. Every refusal comes before the first write, so a
 * refused transaction has nothing to undo.
 */
module SeatStore {
  import opened Common
  import opened Seats

  lemma RegisterWrites(db: DB, c: Call)
    requires Consistent(db) && c.Register? && c.event in db.events && RegisterRefusal(db.events[c.event], c.now).None?
    requires !Conflict(db.tickets, c.event, c.user) && c.newTicket !in db.tickets && !QrTaken(db.tickets, c.newQr)
    ensures var ev := db.events[c.event];
            RegisterTx(db, c) == (DB(db.events[c.event := ev.(available := ev.available - 1)],
                                     db.tickets[c.newTicket := NewTicket(c)]), Ok(NewTicket(c)))
    ensures Consistent(RegisterTx(db, c).0)
  {
    RegisterKeeps(db, c);
  }

  class Store {
    var events: map<Id, Event>
    var tickets: map<Id, Ticket>

    ghost function Value(): DB
      reads this
    {
      DB(events, tickets)
    }

    ghost predicate Valid()
      reads this
    {
      Consistent(Value())
    }

    constructor ()
      ensures Valid() && Value() == DB(map[], map[])
    {
      events, tickets := map[], map[];
    }

    /** INSERT INTO tickets ... ON CONFLICT DO NOTHING RETURNING, and why it inserted nothing. */
    method InsertTicket(t: Ticket) returns (refused: Option<Error>)
      requires t.status == Active
      modifies this`tickets
      ensures refused == if Conflict(old(tickets), t.eventId, t.userId) then Some(AlreadyRegistered)
                         else if t.id in old(tickets) || QrTaken(old(tickets), t.qr) then Some(ConstraintViolation)
                         else None
      ensures tickets == if refused.None? then old(tickets)[t.id := t] else old(tickets)
    {
      if exists u <- tickets :: Seated(tickets[u], t.eventId) && tickets[u].userId == t.userId {
        return Some(AlreadyRegistered);
      }
      if t.id in tickets || exists u <- tickets :: tickets[u].qr == t.qr {
        return Some(ConstraintViolation);
      }
      tickets := tickets[t.id := t];
      return None;
    }

    method RegisterTicket(c: Call) returns (reply: Reply)
      requires c.Register? && Valid()
      modifies this
      ensures Valid()
      ensures Value() == RegisterTx(old(Value()), c).0 && reply == RegisterTx(old(Value()), c).1
    {
      // SELECT ... FOR UPDATE
      if c.event !in events { return Err(EventNotFound); }
      var row := events[c.event];
      if row.status == Withdrawn { return Err(EventCancelled); }
      if row.status != Published { return Err(EventNotPublished); }
      if row.moderation != Approved { return Err(EventNotApproved); }
      if !(row.startsAt > c.now) { return Err(RegistrationClosed); }
      if row.available <= 0 { return Err(CapacityFull); }
      reply := TakeSeat(c);
    }

    /** The two writes of a registration that the event row has not refused. */
    method TakeSeat(c: Call) returns (reply: Reply)
      requires c.Register? && Valid() && c.event in events && RegisterRefusal(events[c.event], c.now).None?
      modifies this
      ensures Valid()
      ensures Value() == RegisterTx(old(Value()), c).0 && reply == RegisterTx(old(Value()), c).1
    {
      ghost var was := Value();
      var out := Ticket(c.newTicket, c.event, c.user, Active, c.newQr, c.now);
      var refused := InsertTicket(out);
      if refused.Some? { return Err(refused.value); }
      var rowsAffected := DecrementAvailable(c.event);
      if rowsAffected == 0 {
        assert false;
      }
      RegisterWrites(was, c);
      assert Value() == RegisterTx(was, c).0;
      return Ok(out);
    }

    /** UPDATE events SET capacity_available = capacity_available - 1 ... WHERE capacity_available > 0. */
    method DecrementAvailable(e: Id) returns (rowsAffected: nat)
      requires e in events
      modifies this`events
      ensures old(events)[e].available > 0 ==>
                && rowsAffected == 1
                && events == old(events)[e := old(events)[e].(available := old(events)[e].available - 1)]
      ensures old(events)[e].available <= 0 ==> rowsAffected == 0 && events == old(events)
    {
      if events[e].available <= 0 { return 0; }
      events := events[e := events[e].(available := events[e].available - 1)];
      return 1;
    }

    /** UPDATE events SET capacity_available = GREATEST(0, capacity_total - COUNT(held)). */
    method RecountEvent(e: Id)
      requires e in events
      modifies this`events
      ensures events == old(events)[e := old(events)[e].(available := Recount(tickets, e, old(events)[e].total))]
    {
      var held := |set t | t in tickets && tickets[t].eventId == e && tickets[t].status in {Active, Used}|;
      assert HeldBy(tickets, e)
          == set t | t in tickets && tickets[t].eventId == e && tickets[t].status in {Active, Used};
      var free := events[e].total - held;
      events := events[e := events[e].(available := if free > 0 then free else 0)];
    }

    method CancelTicket(c: Call) returns (reply: Reply)
      requires c.Cancel? && Valid()
      modifies this
      ensures Valid()
      ensures (Value(), reply) == Atomic(old(Value()), c)
    {
      AtomicKeeps(Value(), c);
      // SELECT ... WHERE id AND user_id FOR UPDATE
      if c.ticket !in tickets || tickets[c.ticket].userId != c.user { return Err(TicketNotFound); }
      var t := tickets[c.ticket];
      if t.status == Cancelled { return Err(TicketAlreadyCancelled); }
      // SELECT starts_at FROM events ... FOR UPDATE
      var startsAt := events[t.eventId].startsAt;
      if !c.afterStart && !(startsAt > c.now) { return Err(CancellationNotAllowed); }
      // UPDATE tickets ... WHERE status = 'active'
      var rowsAffected := 0;
      if tickets[c.ticket].status == Active {
        tickets := tickets[c.ticket := tickets[c.ticket].(status := Cancelled)];
        rowsAffected := 1;
      }
      if rowsAffected == 0 { return Err(TicketAlreadyCancelled); }
      RecountEvent(t.eventId);
      return Ok(tickets[c.ticket]);
    }

    method UseTicketByQRHash(c: Call) returns (reply: Reply)
      requires c.Use? && Valid()
      modifies this
      ensures Valid()
      ensures (Value(), reply) == Atomic(old(Value()), c)
    {
      AtomicKeeps(Value(), c);
      // SELECT ... WHERE qr_hash_hex FOR UPDATE
      if !(exists t <- tickets :: tickets[t].qr == c.qr) { return Err(TicketNotFound); }
      var id :| id in tickets && tickets[id].qr == c.qr;
      assert id == ByQr(tickets, c.qr);
      var t := tickets[id];
      if t.status == Used { return Err(TicketAlreadyUsed); }
      if t.status == Cancelled { return Err(TicketCannotBeUsed); }
      // SELECT status, starts_at, end_at FROM events ... FOR UPDATE
      var row := events[t.eventId];
      if row.status == Withdrawn { return Err(TicketCannotBeUsed); }
      if row.startsAt > c.now { return Err(CheckInNotOpenYet); }
      var end := row.startsAt;
      if row.endAt.Some? { end := row.endAt.value; }
      if c.now > end { return Err(TicketExpired); }
      // UPDATE tickets ... WHERE status = 'active'
      if tickets[id].status == Active {
        tickets := tickets[id := tickets[id].(status := Used)];
      }
      RecountEvent(t.eventId);
      return Ok(tickets[id]);
    }

    /** The active or used ticket of an attendee, if any. */
    method GetByEventAndUser(e: Id, user: Id) returns (found: Option<Ticket>)
      requires Valid()
      ensures found.Some? <==>
                exists t <- tickets ::
                  tickets[t].eventId == e && tickets[t].userId == user && tickets[t].status in {Active, Used}
      ensures found.Some? ==>
                && found.value.id in tickets && tickets[found.value.id] == found.value
                && found.value.eventId == e && found.value.userId == user && found.value.status in {Active, Used}
    {
      if exists t <- tickets :: Seated(tickets[t], e) && tickets[t].userId == user {
        var id :| id in tickets && Seated(tickets[id], e) && tickets[id].userId == user;
        return Some(tickets[id]);
      }
      return None;
    }

    method CreateEvent(e: Id, startsAt: Time, endAt: Option<Time>, total: int, organizer: Id) returns (created: bool)
      requires Valid()
      modifies this`events
      ensures Valid()
      ensures Value() == CreateTx(old(Value()), e, startsAt, endAt, total, organizer)
      ensures created <==> e !in old(events) && total >= 1
      ensures created ==> events == old(events)[e :=
                Event(startsAt, endAt, total, total, Published, Pending, Some(organizer))]
    {
      CreateKeeps(Value(), e, startsAt, endAt, total, organizer);
      if e in events || total < 1 { return false; }
      events := events[e := Event(startsAt, endAt, total, total, Published, Pending, Some(organizer))];
      return true;
    }

    method UpdateModeration(e: Id, m: Moderation) returns (found: bool)
      requires Valid()
      modifies this`events
      ensures Valid()
      ensures Value() == ModerateTx(old(Value()), e, m) && found == (e in old(events))
      ensures found ==>
                && events.Keys == old(events).Keys && events[e].moderation == m
                && events[e] == old(events)[e].(moderation := m)
                && forall f <- events | f != e :: events[f] == old(events)[f]
    {
      if e !in events { return false; }
      events := events[e := events[e].(moderation := m)];
      return true;
    }

    method DeleteEvent(e: Id) returns (found: bool)
      requires Valid()
      modifies this
      ensures Valid()
      ensures Value() == DeleteTx(old(Value()), e) && found == (e in old(events))
      ensures e !in events && forall f | f != e :: f in events <==> f in old(events)
      ensures forall t :: t in tickets <==> t in old(tickets) && old(tickets)[t].eventId != e
      ensures forall f <- events :: events[f] == old(events)[f]
      ensures forall t <- tickets :: tickets[t] == old(tickets)[t]
      ensures Held(tickets, e) == 0 && forall f | f != e :: Held(tickets, f) == Held(old(tickets), f)
    {
      DeleteKeeps(Value(), e);
      if e !in events {
        DeletingNothing(Value(), e);
        return false;
      }
      events := events - {e};
      // ON DELETE CASCADE
      tickets := WithoutEvent(tickets, e);
      return true;
    }
  }
}
