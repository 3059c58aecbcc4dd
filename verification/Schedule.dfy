/** Event times: expiry in listings, the check-in window, and the end-after-start rule. */
module Schedule {
  import opened Common
  import opened Seats
  import opened SeatRuns

  // ----- the ticket listing -----

  /** The status shown to the attendee; `Expired` is never stored. */
  datatype Shown = Stored(status: TicketStatus) | Expired

  datatype Listed = Listed(ticket: Ticket, startsAt: Time, endAt: Option<Time>, shown: Shown)

  function ListedEnd(r: Listed): Time {
    if r.endAt.Some? then r.endAt.value else r.startsAt
  }

  function OverlayTicketExpiry(r: Listed, now: Time): Listed {
    if r.shown != Stored(Active) then r
    else if now > ListedEnd(r) then r.(shown := Expired)
    else r
  }

  /** Overwrite every row of the listing in place. */
  method OverlayAll(rows: array<Listed>, now: Time)
    modifies rows
    ensures forall i | 0 <= i < rows.Length ::
              rows[i] == old(rows[i]).(shown :=
                if old(rows[i]).shown == Stored(Active)
                   && now > (if old(rows[i]).endAt.Some? then old(rows[i]).endAt.value else old(rows[i]).startsAt)
                then Expired
                else old(rows[i]).shown)
  {
    for i := 0 to rows.Length
      invariant forall k | 0 <= k < i :: rows[k] == OverlayTicketExpiry(old(rows[k]), now)
      invariant forall k | i <= k < rows.Length :: rows[k] == old(rows[k])
    {
      rows[i] := OverlayTicketExpiry(rows[i], now);
    }
  }

  /** How a ticket of the table is listed at `now`. */
  function ShownAt(db: DB, t: Ticket, now: Time): Shown
    requires t.eventId in db.events
  {
    var ev := db.events[t.eventId];
    OverlayTicketExpiry(Listed(t, ev.startsAt, ev.endAt, Stored(t.status)), now).shown
  }

  /** end_at, when set, is after starts_at. */
  predicate EndAfterStart(ev: Event) {
    ev.endAt.Some? ==> ev.endAt.value > ev.startsAt
  }

  /** The listing says expired exactly when check-in would refuse the ticket as expired. */
  lemma ListedExpiredIffRefusedExpired(db: DB, t: Id, now: Time)
    requires Consistent(db) && t in db.tickets && db.tickets[t].status == Active
    requires var ev := db.events[db.tickets[t].eventId]; ev.status != Withdrawn && EndAfterStart(ev)
    ensures ShownAt(db, db.tickets[t], now) == Expired
            <==> Atomic(db, Use(db.tickets[t].qr, now)).1 == Err(TicketExpired)
  {
    assert ByQr(db.tickets, db.tickets[t].qr) == t;
  }

  /**
   * Listing and check-in agree at every instant exactly when the event does not start after the
   * instant following its end.
   */
  lemma AgreementNeedsTheRule(ev: Event)
    requires ev.status != Withdrawn
    ensures (forall now: Time :: now > EventEnd(ev) <==> UseRefusal(ev, now) == Some(TicketExpired))
            <==> ev.startsAt <= EventEnd(ev) + 1
  {
    var gap := EventEnd(ev) + 1;
    assert ev.startsAt > gap ==> (gap > EventEnd(ev) && UseRefusal(ev, gap) == Some(CheckInNotOpenYet));
  }

  /** On an unchanged schedule a ticket listed as expired stays expired, and check-in keeps refusing it. */
  lemma ExpiryIsMonotone(db: DB, t: Id, now: Time, later: Time)
    requires Consistent(db) && t in db.tickets && db.tickets[t].status == Active && now <= later
    requires ShownAt(db, db.tickets[t], now) == Expired
    ensures ShownAt(db, db.tickets[t], later) == Expired
    ensures Atomic(db, Use(db.tickets[t].qr, later)).1.Err?
  {
    assert ByQr(db.tickets, db.tickets[t].qr) == t;
  }

  // ----- registration before check-in -----

  /** The start of event `e` may change, or `e` may come or go. */
  predicate Reschedules(op: Op, e: Id) {
    match op
    case Request(_) => false
    case Create(f, _, _, _, _) => f == e
    case Update(f, p) => f == e && p.startsAt.Some?
    case Moderate(_, _) => false
    case Delete(f) => f == e
  }

  ghost predicate SameStart(a: DB, b: DB, e: Id) {
    && (e in a.events <==> e in b.events)
    && (e in a.events && e in b.events ==> a.events[e].startsAt == b.events[e].startsAt)
  }

  lemma StepKeepsStart(db: DB, op: Op, e: Id)
    requires Consistent(db) && !Reschedules(op, e)
    ensures SameStart(db, Step(db, op), e)
  {
    if op.Request? { AnswerIsTheRowWritten(db, op.c); }
  }

  lemma {:induction false} RunKeepsStart(db: DB, ops: seq<Op>, e: Id)
    requires Consistent(db) && forall op <- ops :: !Reschedules(op, e)
    ensures SameStart(db, Run(db, ops), e)
  {
    if ops == [] {
    } else {
      assert Last(ops) in ops;
      RunKeepsStart(db, Front(ops), e);
      StepKeepsStart(Run(db, Front(ops)), Last(ops), e);
    }
  }

  /** At position `i` of the run, an attendee of `e` registers or cancels for themselves, successfully. */
  ghost predicate BooksAt(db: DB, ops: seq<Op>, i: nat, e: Id)
    requires Consistent(db) && i < |ops|
  {
    && ops[i].Request? && !ops[i].c.Use? && (ops[i].c.Cancel? ==> !ops[i].c.afterStart)
    && var r := Atomic(Run(db, ops[..i]), ops[i].c).1; r.Ok? && r.value.eventId == e
  }

  ghost predicate ChecksInAt(db: DB, ops: seq<Op>, j: nat, e: Id)
    requires Consistent(db) && j < |ops|
  {
    && ops[j].Request? && ops[j].c.Use?
    && var r := Atomic(Run(db, ops[..j]), ops[j].c).1; r.Ok? && r.value.eventId == e
  }

  lemma BookedBeforeStart(db: DB, c: Call)
    requires Schema(db) && !c.Use? && (c.Cancel? ==> !c.afterStart) && Atomic(db, c).1.Ok?
    ensures var e := Atomic(db, c).1.value.eventId; e in db.events && c.now < db.events[e].startsAt
  {
  }

  lemma CheckedInFromStart(db: DB, c: Call)
    requires Schema(db) && c.Use? && Atomic(db, c).1.Ok?
    ensures var e := Atomic(db, c).1.value.eventId; e in db.events && db.events[e].startsAt <= c.now
  {
  }

  /**
   * While `e` is not rescheduled, every registration or self-cancel time is strictly before every
   * check-in time, in whatever order they commit.
   */
  lemma BookingsPrecedeCheckIns(db: DB, ops: seq<Op>, i: nat, j: nat, e: Id)
    requires Consistent(db) && i < |ops| && j < |ops| && forall op <- ops :: !Reschedules(op, e)
    requires BooksAt(db, ops, i, e) && ChecksInAt(db, ops, j, e)
    ensures ops[i].c.now < ops[j].c.now
  {
    RunKeepsStart(db, ops[..i], e);
    RunKeepsStart(db, ops[..j], e);
    BookedBeforeStart(Run(db, ops[..i]), ops[i].c);
    CheckedInFromStart(Run(db, ops[..j]), ops[j].c);
  }

  // ----- keeping the rule -----

  /** Create requests are refused when end_at is not after starts_at. */
  predicate CreateAccepted(startsAt: Time, endAt: Option<Time>) {
    endAt.Some? ==> endAt.value > startsAt
  }

  /** The create request's own validation. */
  method ValidateCreate(startsAt: Time, endAt: Option<Time>) returns (accepted: bool)
    ensures accepted <==> CreateAccepted(startsAt, endAt)
    ensures accepted <==> endAt.None? || startsAt < endAt.value
  {
    return !(endAt.Some? && !(endAt.value > startsAt));
  }

  /** handleUpdate: the request on its own, then the pair it would leave on the row it has read. */
  method HandleUpdate(existing: Event, p: EventPatch) returns (accepted: bool)
    ensures accepted <==> UpdateAccepted(existing, p)
    ensures accepted <==>
              var start := if p.startsAt.Some? then p.startsAt.value else existing.startsAt;
              var end := if p.endAt.Some? then p.endAt else existing.endAt;
              end.Some? ==> end.value > start
  {
    if p.endAt.Some? && p.startsAt.Some? && !(p.endAt.value > p.startsAt.value) { return false; }
    var newStartsAt := existing.startsAt;
    if p.startsAt.Some? { newStartsAt := p.startsAt.value; }
    var newEndAt := existing.endAt;
    if p.endAt.Some? { newEndAt := p.endAt; }
    return !(newEndAt.Some? && !(newEndAt.value > newStartsAt));
  }

  /** The row would satisfy the rule after the patch. */
  predicate UpdateAccepted(existing: Event, p: EventPatch) {
    EndAfterStart(Patched(map[], 0, existing, p))
  }

  ghost predicate AllEndAfterStart(db: DB) {
    forall e <- db.events :: EndAfterStart(db.events[e])
  }

  /** Every create and update of the run was accepted against the row it then changed. */
  ghost predicate Checked(db: DB, ops: seq<Op>)
    requires Consistent(db)
  {
    ops == [] || (
      && Checked(db, Front(ops))
      && var mid := Run(db, Front(ops));
         match Last(ops)
         case Create(_, startsAt, endAt, _, _) => CreateAccepted(startsAt, endAt)
         case Update(e, p) => e in mid.events ==> UpdateAccepted(mid.events[e], p)
         case _ => true)
  }

  lemma RequestKeepsTimes(db: DB, c: Call)
    requires Schema(db)
    ensures forall e <- Atomic(db, c).0.events ::
              e in db.events && Atomic(db, c).0.events[e].startsAt == db.events[e].startsAt
              && Atomic(db, c).0.events[e].endAt == db.events[e].endAt
  {
  }

  /** Checked one at a time, creates and updates keep end_at after starts_at for every event, for ever. */
  lemma {:induction false} CheckedRunsKeepTheRule(db: DB, ops: seq<Op>)
    requires Consistent(db) && AllEndAfterStart(db) && Checked(db, ops)
    ensures AllEndAfterStart(Run(db, ops))
    ensures forall e <- Run(db, ops).events | Run(db, ops).events[e].endAt.Some? ::
              Run(db, ops).events[e].endAt.value > Run(db, ops).events[e].startsAt
  {
    if ops == [] {
    } else {
      CheckedRunsKeepTheRule(db, Front(ops));
      if Last(ops).Request? { RequestKeepsTimes(Run(db, Front(ops)), Last(ops).c); }
    }
  }

  /**
   * handleUpdate checks a row it read earlier. Its patch is safe on whatever valid row
   * it meets exactly when it sets both times in order, or neither.
   */
  lemma SafeOnEveryRowIff(p: EventPatch)
    ensures (forall row: Event | EndAfterStart(row) :: UpdateAccepted(row, p))
            <==> (p.startsAt.None? && p.endAt.None?)
                 || (p.startsAt.Some? && p.endAt.Some? && p.endAt.value > p.startsAt.value)
  {
    if p.startsAt.Some? && p.endAt.None? {
      var row := Event(p.startsAt.value - 2, Some(p.startsAt.value - 1), 1, 1, Published, Approved, None);
      assert EndAfterStart(row) && !UpdateAccepted(row, p);
    } else if p.startsAt.None? && p.endAt.Some? {
      var row := Event(p.endAt.value, None, 1, 1, Published, Approved, None);
      assert EndAfterStart(row) && !UpdateAccepted(row, p);
    } else if p.startsAt.Some? && p.endAt.Some? && p.endAt.value <= p.startsAt.value {
      var row := Event(0, None, 1, 1, Published, Approved, None);
      assert EndAfterStart(row) && !UpdateAccepted(row, p);
    }
  }

  /** Two updates accepted against the same read, one moving the start and one the end, can break the rule together. */
  lemma ConcurrentUpdatesCanBreakTheRule()
    ensures exists row: Event, p: EventPatch, q: EventPatch ::
              && EndAfterStart(row) && UpdateAccepted(row, p) && UpdateAccepted(row, q)
              && !EndAfterStart(Patched(map[], 0, Patched(map[], 0, row, p), q))
  {
    var row := Event(10, Some(20), 1, 1, Published, Approved, None);
    var p := EventPatch(Some(15), None, None, None);
    var q := EventPatch(None, Some(12), None, None);
    assert EndAfterStart(row) && UpdateAccepted(row, p) && UpdateAccepted(row, q);
    assert !EndAfterStart(Patched(map[], 0, Patched(map[], 0, row, p), q));
  }
}
