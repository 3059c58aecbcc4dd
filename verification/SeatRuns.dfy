/**
 * Whole runs of the seat tables: any sequence of committed transactions, by any
 * number of users, in any order.
 */
module SeatRuns {
  import opened Common
  import opened Seats

  datatype Op =
    | Request(c: Call)
    | Create(event: Id, startsAt: Time, endAt: Option<Time>, total: int, organizer: Id)
    | Update(event: Id, patch: EventPatch)
    | Moderate(event: Id, moderation: Moderation)
    | Delete(event: Id)

  ghost function Step(db: DB, op: Op): (after: DB)
    requires Consistent(db)
    ensures Consistent(after)
  {
    match op
    case Request(c) => AtomicKeeps(db, c); Atomic(db, c).0
    case Create(e, startsAt, endAt, total, organizer) =>
      CreateKeeps(db, e, startsAt, endAt, total, organizer);
      CreateTx(db, e, startsAt, endAt, total, organizer)
    case Update(e, p) => UpdateTx(db, e, p)
    case Moderate(e, m) => ModerateTx(db, e, m)
    case Delete(e) => DeleteKeeps(db, e); DeleteTx(db, e)
  }

  function Last(ops: seq<Op>): Op
    requires ops != []
  {
    ops[|ops| - 1]
  }

  function Front(ops: seq<Op>): seq<Op>
    requires ops != []
  {
    ops[..|ops| - 1]
  }

  ghost function Run(db: DB, ops: seq<Op>): (after: DB)
    requires Consistent(db)
    ensures Consistent(after)
  {
    if ops == [] then db else Step(Run(db, Front(ops)), Last(ops))
  }

  const EMPTY := DB(map[], map[])

  // ----- the stored counter -----

  /** In every reachable state the stored counter is the clamped number of free seats. */
  lemma CounterIsFreeSeats(ops: seq<Op>, e: Id)
    requires e in Run(EMPTY, ops).events
    ensures var db := Run(EMPTY, ops);
            var free := db.events[e].total - |SeatsTaken(db, e)|;
            db.events[e].available == if free > 0 then free else 0
  {
    var db := Run(EMPTY, ops);
    assert HeldBy(db.tickets, e) == SeatsTaken(db, e);
  }

  // ----- no overbooking -----

  ghost function Total(db: DB, e: Id): int {
    if e in db.events then db.events[e].total else 0
  }

  ghost predicate Registers(db: DB, op: Op, e: Id)
    requires Consistent(db)
  {
    op.Request? && op.c.Register? && op.c.event == e && Atomic(db, op.c).1.Ok?
  }

  lemma RequestMovesHeld(db: DB, c: Call, e: Id)
    requires Consistent(db)
    ensures var (after, reply) := Atomic(db, c);
            if c.Register? && c.event == e && reply.Ok?
            then && Held(after.tickets, e) == Held(db.tickets, e) + 1
                 && Held(after.tickets, e) <= Total(db, e) == Total(after, e)
            else Held(after.tickets, e) <= Held(db.tickets, e)
  {
    AnswerIsTheRowWritten(db, c);
    var reply := Atomic(db, c).1;
    if reply.Ok? {
      if c.Register? {
        HeldAfterInsert(db.tickets, reply.value, e);
      } else {
        HeldAfterUpdate(db.tickets, reply.value, e);
      }
    }
  }

  /** Only a successful registration raises the number of held seats, by one, and only below capacity. */
  lemma HeldGrowsOnlyByRegistration(db: DB, op: Op, e: Id)
    requires Consistent(db)
    ensures Registers(db, op, e) ==>
              && Held(Step(db, op).tickets, e) == Held(db.tickets, e) + 1
              && Held(Step(db, op).tickets, e) <= Total(Step(db, op), e)
    ensures !Registers(db, op, e) ==> Held(Step(db, op).tickets, e) <= Held(db.tickets, e)
  {
    match op
    case Request(c) => RequestMovesHeld(db, c, e);
    case Delete(f) =>
      assert HeldBy(Step(db, op).tickets, e) <= HeldBy(db.tickets, e);
      SubsetIsSmaller(HeldBy(Step(db, op).tickets, e), HeldBy(db.tickets, e));
    case Create(_, _, _, _, _) =>
    case Update(_, _) =>
    case Moderate(_, _) =>
  }

  /** The organizer lowers the capacity of `e` somewhere in the run. */
  ghost predicate Lowered(db: DB, ops: seq<Op>, e: Id)
    requires Consistent(db)
  {
    ops != [] &&
    (|| Lowered(db, Front(ops), e)
     || (var mid := Run(db, Front(ops));
         e in mid.events && e in Step(mid, Last(ops)).events && Total(Step(mid, Last(ops)), e) < Total(mid, e)))
  }

  lemma AbsentEventHoldsNothing(db: DB, e: Id)
    requires Consistent(db) && e !in db.events
    ensures Held(db.tickets, e) == 0
  {
    assert HeldBy(db.tickets, e) == {};
  }

  /**
   * Without a capacity decrease, held seats never exceed the larger of the starting
   * count and the capacity: an oversold event cannot grow until cancellations bring
   * it under its capacity.
   */
  lemma {:induction false} OversoldNeverGrows(db: DB, ops: seq<Op>, e: Id)
    requires Consistent(db) && !Lowered(db, ops, e)
    ensures Held(Run(db, ops).tickets, e) <= Held(db.tickets, e)
         || Held(Run(db, ops).tickets, e) <= Total(Run(db, ops), e)
  {
    if ops == [] {
    } else {
      OversoldNeverGrows(db, Front(ops), e);
      var mid := Run(db, Front(ops));
      HeldGrowsOnlyByRegistration(mid, Last(ops), e);
      if e !in mid.events { AbsentEventHoldsNothing(mid, e); }
      if e !in Run(db, ops).events { AbsentEventHoldsNothing(Run(db, ops), e); }
    }
  }

  /** A system that starts empty and never lowers the capacity of `e` never overbooks `e`. */
  lemma NeverOverbooked(ops: seq<Op>, e: Id)
    requires !Lowered(EMPTY, ops, e)
    ensures Held(Run(EMPTY, ops).tickets, e) <= Total(Run(EMPTY, ops), e)
  {
    OversoldNeverGrows(EMPTY, ops, e);
    assert HeldBy(EMPTY.tickets, e) == {};
  }

  // ----- ticket lifecycle -----

  /** How often ticket `t` was checked in or cancelled successfully. */
  ghost function Endings(db: DB, ops: seq<Op>, t: Id): nat
    requires Consistent(db)
  {
    if ops == [] then 0 else
    Endings(db, Front(ops), t) + if Ends(Run(db, Front(ops)), Last(ops), t) then 1 else 0
  }

  ghost predicate Ends(db: DB, op: Op, t: Id)
    requires Consistent(db)
  {
    op.Request? && !op.c.Register? && Atomic(db, op.c).1.Ok? && Atomic(db, op.c).1.value.id == t
  }

  /** How often a registration drew `t` as its new ticket id. */
  function Draws(ops: seq<Op>, t: Id): nat {
    if ops == [] then 0 else
    Draws(Front(ops), t) + if Draws1(Last(ops), t) then 1 else 0
  }

  predicate Draws1(op: Op, t: Id) {
    op.Request? && op.c.Register? && op.c.newTicket == t
  }

  ghost function Live(db: DB, t: Id): nat {
    if t in db.tickets && db.tickets[t].status == Active then 1 else 0
  }

  /** `t` ends only while live, goes live only when drawn, and a final row stays or is deleted. */
  ghost predicate OneStepOf(before: DB, after: DB, ended: bool, drawn: bool, t: Id) {
    && (ended ==> Live(before, t) == 1 && Live(after, t) == 0)
    && (!drawn ==> Live(after, t) <= Live(before, t))
    && (t in after.tickets && !drawn ==> t in before.tickets)
    && (t in after.tickets && t in before.tickets && before.tickets[t].status != Active
        ==> after.tickets[t] == before.tickets[t])
  }

  lemma AnswerMovesOneTicket(db: DB, c: Call, after: DB, reply: Reply, t: Id)
    requires Schema(db) && WritesItsAnswer(db, c, after, reply)
    ensures OneStepOf(db, after, !c.Register? && reply.Ok? && reply.value.id == t, c.Register? && c.newTicket == t, t)
  {
  }

  lemma OneTicketOneStep(db: DB, op: Op, t: Id)
    requires Consistent(db)
    ensures OneStepOf(db, Step(db, op), Ends(db, op, t), Draws1(op, t), t)
  {
    if op.Request? {
      AnswerIsTheRowWritten(db, op.c);
      AnswerMovesOneTicket(db, op.c, Atomic(db, op.c).0, Atomic(db, op.c).1, t);
    } else {
      FewerTicketsOneStep(db, Step(db, op), t);
    }
  }

  lemma FewerTicketsOneStep(before: DB, after: DB, t: Id)
    requires forall u <- after.tickets :: u in before.tickets && after.tickets[u] == before.tickets[u]
    ensures OneStepOf(before, after, false, false, t)
  {
  }

  /** Each issue of an id pays for at most one check-in or cancellation of it. */
  lemma {:induction false} EndingsPaidByIssues(db: DB, ops: seq<Op>, t: Id)
    requires Consistent(db)
    ensures Endings(db, ops, t) + Live(Run(db, ops), t) <= Draws(ops, t) + Live(db, t)
  {
    if ops == [] {
    } else {
      EndingsPaidByIssues(db, Front(ops), t);
      OneTicketOneStep(Run(db, Front(ops)), Last(ops), t);
    }
  }

  lemma OneTicketOneOwner(db: DB, op: Op, t: Id)
    requires Consistent(db) && !Draws1(op, t) && t in Step(db, op).tickets
    ensures t in db.tickets && Step(db, op).tickets[t].eventId == db.tickets[t].eventId
    ensures Step(db, op).tickets[t].userId == db.tickets[t].userId
  {
    if op.Request? { AnswerIsTheRowWritten(db, op.c); }
  }

  /** Unless its id is drawn again, a ticket still there belongs to the event and attendee it always did. */
  lemma {:induction false} UndrawnKeepsOwner(db: DB, ops: seq<Op>, t: Id)
    requires Consistent(db) && Draws(ops, t) == 0 && t in Run(db, ops).tickets
    ensures t in db.tickets && Run(db, ops).tickets[t].eventId == db.tickets[t].eventId
    ensures Run(db, ops).tickets[t].userId == db.tickets[t].userId
  {
    if ops == [] {
    } else {
      OneTicketOneOwner(Run(db, Front(ops)), Last(ops), t);
      UndrawnKeepsOwner(db, Front(ops), t);
    }
  }

  /** With fresh ids a ticket is used at most once, cancelled at most once, and never both. */
  lemma AtMostOneEnding(ops: seq<Op>, t: Id)
    requires Draws(ops, t) <= 1
    ensures Endings(EMPTY, ops, t) <= 1
  {
    EndingsPaidByIssues(EMPTY, ops, t);
  }

  /** Used and cancelled are final: the row never changes again, short of deleting its event. */
  lemma {:induction false} FinalStatesStay(db: DB, ops: seq<Op>, t: Id)
    requires Consistent(db) && Draws(ops, t) == 0
    requires t in db.tickets && db.tickets[t].status != Active
    ensures t in Run(db, ops).tickets ==> Run(db, ops).tickets[t] == db.tickets[t]
  {
    if ops == [] {
    } else {
      FinalStatesStay(db, Front(ops), t);
      OneTicketOneStep(Run(db, Front(ops)), Last(ops), t);
    }
  }

  /** Cancel and re-register as often as you like: one seat per attendee and event. */
  lemma OneSeatPerAttendee(ops: seq<Op>, t: Id, u: Id)
    requires var tickets := Run(EMPTY, ops).tickets;
             && t in tickets && u in tickets && tickets[t].status != Cancelled && tickets[u].status != Cancelled
             && tickets[t].eventId == tickets[u].eventId && tickets[t].userId == tickets[u].userId
    ensures t == u
  {
    assert Consistent(Run(EMPTY, ops));
  }
}
