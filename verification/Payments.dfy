/** Payments and the provider webhook that releases the payer's seat. */
module Payments {
  import opened Common
  import opened Seats
  import opened SeatStore
  import Runs = SeatRuns

  datatype PaymentStatus = Pending | Succeeded | Failed | Canceled

  datatype Payment = Payment(userId: Id, eventId: Id, amount: int, status: PaymentStatus)

  datatype PaymentError = MissingProviderRef | ProviderRefExists | InvalidAmount | UnknownReference | PaymentNotFound

  /** A failed or canceled payment gives its seat back. */
  predicate Releases(s: PaymentStatus) {
    s == Failed || s == Canceled
  }

  // ----- what one delivery does to the seat tables -----

  ghost function SeatOf(tickets: map<Id, Ticket>, e: Id, user: Id): (t: Id)
    requires Conflict(tickets, e, user)
    ensures t in tickets && Seated(tickets[t], e) && tickets[t].userId == user
  {
    var t :| t in tickets && Seated(tickets[t], e) && tickets[t].userId == user; t
  }

  ghost function Delivered(db: DB, e: Id, user: Id, s: PaymentStatus, now: Time): (after: DB)
    requires Consistent(db)
    ensures Consistent(after)
  {
    if Releases(s) && Conflict(db.tickets, e, user) then
      var c := Cancel(user, SeatOf(db.tickets, e, user), now, true);
      AtomicKeeps(db, c);
      Atomic(db, c).0
    else db
  }

  /** The ticket is an active one of the payer for this event. */
  predicate ActiveFor(t: Ticket, e: Id, user: Id) {
    t.eventId == e && t.userId == user && t.status == Active
  }

  ghost predicate HoldsActive(db: DB, e: Id, user: Id) {
    exists t <- db.tickets :: ActiveFor(db.tickets[t], e, user)
  }

  /** Right after a releasing delivery the payer holds no active ticket, so another one finds nothing to do. */
  lemma DeliverySettles(db: DB, e: Id, user: Id, s: PaymentStatus, now: Time)
    requires Consistent(db) && s in {Failed, Canceled}
    ensures !HoldsActive(Delivered(db, e, user, s, now), e, user)
  {
    if Conflict(db.tickets, e, user) {
      var t := SeatOf(db.tickets, e, user);
      CancelAnswers(db, Cancel(user, t, now, true));
      OneSeat(db, e, user, t);
    }
  }

  lemma OneSeat(db: DB, e: Id, user: Id, t: Id)
    requires Schema(db) && t in db.tickets && Seated(db.tickets[t], e) && db.tickets[t].userId == user
    ensures forall u <- db.tickets | u != t :: !ActiveFor(db.tickets[u], e, user)
  {
  }

  lemma NothingActiveNothingReleased(db: DB, e: Id, user: Id, s: PaymentStatus, now: Time)
    requires Consistent(db) && !HoldsActive(db, e, user)
    ensures Delivered(db, e, user, s, now) == db
  {
  }

  /** A failed or canceled payment gives the payer's seat back; a pending or succeeded one changes no seat. */
  lemma DeliveryByStatus(db: DB, e: Id, user: Id, now: Time)
    requires Consistent(db)
    ensures !HoldsActive(Delivered(db, e, user, Failed, now), e, user)
    ensures !HoldsActive(Delivered(db, e, user, Canceled, now), e, user)
    ensures Delivered(db, e, user, PaymentStatus.Pending, now) == db && Delivered(db, e, user, Succeeded, now) == db
  {
    DeliverySettles(db, e, user, Failed, now);
    DeliverySettles(db, e, user, Canceled, now);
  }

  /** What it does to the payer's active ticket, and to nothing else. */
  lemma DeliveryCancelsActive(db: DB, e: Id, user: Id, s: PaymentStatus, now: Time, t: Id)
    requires Consistent(db) && s in {Failed, Canceled}
    requires t in db.tickets && db.tickets[t].status == Active
    requires db.tickets[t].eventId == e && db.tickets[t].userId == user
    ensures Becomes(db, Delivered(db, e, user, s, now), db.tickets[t].(status := Cancelled))
  {
    assert Seated(db.tickets[t], e);
    CancelAnswers(db, Cancel(user, t, now, true));
  }

  ghost function DeliveredAll(db: DB, e: Id, user: Id, sent: seq<(PaymentStatus, Time)>): (after: DB)
    requires Consistent(db)
    ensures Consistent(after)
    decreases |sent|
  {
    if sent == [] then db else DeliveredAll(Delivered(db, e, user, sent[0].0, sent[0].1), e, user, sent[1..])
  }

  lemma {:induction false} SettledStays(db: DB, e: Id, user: Id, sent: seq<(PaymentStatus, Time)>)
    requires Consistent(db) && !HoldsActive(db, e, user)
    ensures DeliveredAll(db, e, user, sent) == db
    decreases |sent|
  {
    if sent == [] {
    } else {
      NothingActiveNothingReleased(db, e, user, sent[0].0, sent[0].1);
      SettledStays(db, e, user, sent[1..]);
    }
  }

  /** Any number of deliveries, failed or canceled, at any times, leaves the seats exactly as the first one did. */
  lemma RepeatedDeliveryIsOne(db: DB, e: Id, user: Id, sent: seq<(PaymentStatus, Time)>)
    requires Consistent(db) && sent != [] && sent[0].0 in {Failed, Canceled}
    ensures DeliveredAll(db, e, user, sent) == Delivered(db, e, user, sent[0].0, sent[0].1)
  {
    DeliverySettles(db, e, user, sent[0].0, sent[0].1);
    SettledStays(Delivered(db, e, user, sent[0].0, sent[0].1), e, user, sent[1..]);
  }

  /**
   * A delivery frees one seat exactly when the payer held an active ticket on an event not oversold;
   * never more than one.
   */
  lemma DeliveryFreesOneSeatIff(db: DB, e: Id, user: Id, s: PaymentStatus, now: Time)
    requires Consistent(db) && s in {Failed, Canceled} && e in db.events
    ensures var after := Delivered(db, e, user, s, now);
            && e in after.events
            && after.events[e].available - db.events[e].available
               == if HoldsActive(db, e, user) && Held(db.tickets, e) <= db.events[e].total then 1 else 0
  {
    if Conflict(db.tickets, e, user) {
      var c := Cancel(user, SeatOf(db.tickets, e, user), now, true);
      AnswerIsTheRowWritten(db, c);
      if Atomic(db, c).1.Ok? { HeldAfterUpdate(db.tickets, Atomic(db, c).1.value, e); }
    }
  }

  /** No delivery changes any ticket except an active one of the payer for that event. */
  lemma DeliveryTouchesOnlyPayersActiveTicket(db: DB, e: Id, user: Id, s: PaymentStatus, now: Time, t: Id)
    requires Consistent(db) && t in db.tickets
    requires !ActiveFor(db.tickets[t], e, user)
    ensures var after := Delivered(db, e, user, s, now).tickets; t in after && after[t] == db.tickets[t]
  {
    if Releases(s) && Conflict(db.tickets, e, user) {
      AnswerIsTheRowWritten(db, Cancel(user, SeatOf(db.tickets, e, user), now, true));
    }
  }

  // ----- a delivery with other transactions between its lookup and its cancellation -----

  ghost function Found(db: DB, e: Id, user: Id): Option<Id> {
    if Conflict(db.tickets, e, user) then Some(SeatOf(db.tickets, e, user)) else None
  }

  /** The second database call: cancel the ticket the first one found, in the tables of now. */
  ghost function CancelledFound(db: DB, user: Id, found: Option<Id>, now: Time): DB
    requires Consistent(db)
  {
    if found.Some? then Atomic(db, Cancel(user, found.value, now, true)).0 else db
  }

  lemma DeliveryIsLookupThenCancel(db: DB, e: Id, user: Id, s: PaymentStatus, now: Time)
    requires Consistent(db) && s in {Failed, Canceled}
    ensures Delivered(db, e, user, s, now) == CancelledFound(db, user, Found(db, e, user), now)
  {
  }

  ghost predicate HoldsActiveBut(db: DB, e: Id, user: Id, found: Option<Id>) {
    exists t <- db.tickets :: ActiveFor(db.tickets[t], e, user) && found != Some(t)
  }

  lemma AnswerTouchesOne(db: DB, c: Call, after: DB, reply: Reply, t: Id)
    requires Schema(db) && WritesItsAnswer(db, c, after, reply) && c.Cancel?
    ensures after.tickets.Keys == db.tickets.Keys
    ensures t in db.tickets ==>
              if reply.Ok? && reply.value.id == t then after.tickets[t] == db.tickets[t].(status := Cancelled)
              else after.tickets[t] == db.tickets[t]
  {
  }

  lemma CancelTouchesOnlyFound(db: DB, user: Id, found: Option<Id>, now: Time, t: Id)
    requires Consistent(db)
    ensures var after := CancelledFound(db, user, found, now);
            && after.tickets.Keys == db.tickets.Keys
            && (t in db.tickets && found != Some(t) ==> after.tickets[t] == db.tickets[t])
            && (t in db.tickets ==> after.tickets[t].userId == db.tickets[t].userId)
            && (t in db.tickets && found == Some(t) && db.tickets[t].userId == user ==>
                after.tickets[t].status != Active)
  {
    if found.Some? {
      var c := Cancel(user, found.value, now, true);
      AnswerIsTheRowWritten(db, c);
      CancelAnswers(db, c);
      AnswerTouchesOne(db, c, CancelTx(db, c).0, CancelTx(db, c).1, t);
    }
  }

  lemma LeftoverWasNotFound(db: DB, e: Id, user: Id, found: Option<Id>, now: Time, t: Id)
    requires Consistent(db)
    requires var after := CancelledFound(db, user, found, now);
             t in after.tickets && ActiveFor(after.tickets[t], e, user)
    ensures t in db.tickets && ActiveFor(db.tickets[t], e, user) && found != Some(t)
  {
    CancelTouchesOnlyFound(db, user, found, now, t);
  }

  lemma NotFoundIsLeftOver(db: DB, e: Id, user: Id, found: Option<Id>, now: Time, t: Id)
    requires Consistent(db) && t in db.tickets && ActiveFor(db.tickets[t], e, user) && found != Some(t)
    ensures var after := CancelledFound(db, user, found, now);
            t in after.tickets && ActiveFor(after.tickets[t], e, user)
  {
    CancelTouchesOnlyFound(db, user, found, now, t);
  }

  lemma CancelFoundSettlesIff(db: DB, e: Id, user: Id, found: Option<Id>, now: Time)
    requires Consistent(db)
    ensures HoldsActive(CancelledFound(db, user, found, now), e, user) <==> HoldsActiveBut(db, e, user, found)
  {
    var after := CancelledFound(db, user, found, now);
    if t :| t in after.tickets && ActiveFor(after.tickets[t], e, user) {
      LeftoverWasNotFound(db, e, user, found, now, t);
    }
    if t :| t in db.tickets && ActiveFor(db.tickets[t], e, user) && found != Some(t) {
      NotFoundIsLeftOver(db, e, user, found, now, t);
    }
  }

  /**
   * With any transactions in between, a releasing delivery leaves the payer an active ticket exactly
   * when by then they hold one that the lookup did not find. It touches no ticket but the one found.
   */
  lemma SplitDeliverySettlesIff(db: DB, ops: seq<Runs.Op>, e: Id, user: Id, now: Time)
    requires Consistent(db)
    ensures var mid, found := Runs.Run(db, ops), Found(db, e, user);
            var after := CancelledFound(mid, user, found, now);
            && (HoldsActive(after, e, user) <==> HoldsActiveBut(mid, e, user, found))
            && after.tickets.Keys == mid.tickets.Keys
            && (forall t <- mid.tickets | found != Some(t) :: after.tickets[t] == mid.tickets[t])
  {
    var mid, found := Runs.Run(db, ops), Found(db, e, user);
    CancelFoundSettlesIff(mid, e, user, found, now);
    CancelTouchesOnlyFound(mid, user, found, now, 0);
    forall t <- mid.tickets | found != Some(t)
      ensures CancelledFound(mid, user, found, now).tickets[t] == mid.tickets[t]
    {
      CancelTouchesOnlyFound(mid, user, found, now, t);
    }
  }

  lemma ActiveIsFound(db: DB, e: Id, user: Id, t: Id)
    requires Consistent(db) && t in db.tickets && ActiveFor(db.tickets[t], e, user)
    ensures Found(db, e, user) == Some(t)
  {
    assert Seated(db.tickets[t], e);
  }

  /** An active ticket of the payer that the lookup did not find was issued after it. */
  lemma LeftoverWasIssuedMeanwhile(db: DB, ops: seq<Runs.Op>, e: Id, user: Id, t: Id)
    requires Consistent(db)
    requires var mid := Runs.Run(db, ops); t in mid.tickets && ActiveFor(mid.tickets[t], e, user)
    requires Found(db, e, user) != Some(t)
    ensures Runs.Draws(ops, t) >= 1
  {
    if Runs.Draws(ops, t) == 0 {
      Runs.EndingsPaidByIssues(db, ops, t);
      Runs.UndrawnKeepsOwner(db, ops, t);
      ActiveIsFound(db, e, user, t);
      assert false;
    }
  }

  // ----- the service over its two repositories -----

  class Service {
    const tickets: Store
    var payments: map<string, Payment>

    constructor (tickets: Store)
      ensures this.tickets == tickets && payments == map[]
    {
      this.tickets := tickets;
      payments := map[];
    }

    /** INSERT INTO payments: amounts are positive, provider_ref is unique, user and event exist. */
    method CreateInitiation(users: set<Id>, providerRef: string, p: Payment)
        returns (created: Result<Payment, PaymentError>)
      modifies this`payments
      ensures created.Ok? <==>
                && providerRef != "" && p.amount > 0 && providerRef !in old(payments)
                && p.userId in users && p.eventId in tickets.events
      ensures created.Ok? ==> created.value == p && payments == old(payments)[providerRef := p]
      ensures created.Err? ==> payments == old(payments)
      ensures created.Err? && created.error == ProviderRefExists ==> providerRef in payments
    {
      if providerRef == "" { return Err(MissingProviderRef); }
      if p.amount <= 0 { return Err(InvalidAmount); }
      if providerRef in payments { return Err(ProviderRefExists); }
      if p.userId !in users || p.eventId !in tickets.events { return Err(UnknownReference); }
      payments := payments[providerRef := p];
      return Ok(p);
    }

    method UpdateStatusByProviderRef(providerRef: string, s: PaymentStatus)
        returns (updated: Result<Payment, PaymentError>)
      modifies this`payments
      ensures updated.Ok? <==> providerRef in old(payments)
      ensures updated.Ok? ==>
                && updated.value == old(payments)[providerRef].(status := s)
                && payments == old(payments)[providerRef := updated.value]
      ensures updated.Err? ==> payments == old(payments) && updated.error == PaymentNotFound
    {
      if providerRef !in payments { return Err(PaymentNotFound); }
      var p := payments[providerRef].(status := s);
      payments := payments[providerRef := p];
      return Ok(p);
    }

    /** The only refusals of the cancellation that can arise here are swallowed as "already cancelled". */
    method Webhook(providerRef: string, s: PaymentStatus, now: Time) returns (answer: Result<Payment, PaymentError>)
      requires tickets.Valid()
      modifies this`payments, tickets
      ensures tickets.Valid()
      ensures answer.Ok? <==> providerRef in old(payments)
      ensures answer.Err? ==> payments == old(payments) && tickets.Value() == old(tickets.Value())
      ensures answer.Ok? ==>
                && answer.value == old(payments)[providerRef].(status := s)
                && payments == old(payments)[providerRef := answer.value]
                && tickets.Value()
                   == Delivered(old(tickets.Value()), answer.value.eventId, answer.value.userId, s, now)
    {
      answer := UpdateStatusByProviderRef(providerRef, s);
      if answer.Err? { return; }
      var payment := answer.value;
      if s == Succeeded { return; }
      if s == Failed || s == Canceled {
        var found := tickets.GetByEventAndUser(payment.eventId, payment.userId);
        if found.None? { return; }
        assert found.value.id == SeatOf(tickets.tickets, payment.eventId, payment.userId);
        var reply := tickets.CancelTicket(Cancel(payment.userId, found.value.id, now, true));
        if reply.Err? && reply.error != TicketAlreadyCancelled {
          assert false;
        }
      }
    }
  }
}
