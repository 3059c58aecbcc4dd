/**
 * Capacity updates as READ COMMITTED runs them: the count of tickets inside the UPDATE
 * may come from an older committed snapshot than the event row it writes.
 */
module SeatSnapshots {
  import opened Common
  import opened Seats
  import opened SeatRuns

  // ----- one update -----

  /**
   * The capacity UPDATE as READ COMMITTED may run it: having waited for the event row, it writes the
   * latest version of that row, but its subquery has counted the tickets of an older snapshot.
   */
  ghost function UpdateSeeing(db: DB, seen: map<Id, Ticket>, e: Id, p: EventPatch): DB {
    if e !in db.events || (p.total.Some? && p.total.value < 1) then db
    else db.(events := db.events[e := Patched(seen, e, db.events[e], p)])
  }

  /** Such an update keeps the counter law exactly when it writes no capacity or its clamped count is still right. */
  lemma StaleCountKeepsLawIff(db: DB, seen: map<Id, Ticket>, e: Id, p: EventPatch)
    requires Consistent(db)
    ensures Consistent(UpdateSeeing(db, seen, e, p)) <==>
              || e !in db.events || p.total.None? || p.total.value < 1
              || Recount(seen, e, p.total.value) == Recount(db.tickets, e, p.total.value)
  {
    var after := UpdateSeeing(db, seen, e, p);
    if e in db.events && p.total.Some? && p.total.value >= 1 {
      assert after.events[e].total == p.total.value && after.events[e].available == Recount(seen, e, p.total.value);
    }
  }

  /** How the held seats of `e` move: a sale, a return, or the event going with all its tickets. */
  ghost function Shift(db: DB, op: Op, e: Id): int
    requires Consistent(db)
  {
    if Registers(db, op, e) then 1
    else if op.Request? && op.c.Cancel? && Atomic(db, op.c).1.Ok? && Atomic(db, op.c).1.value.eventId == e then -1
    else if op == Delete(e) then 0 - Held(db.tickets, e)
    else 0
  }

  /** Sales less returns of `e` over a run. */
  ghost function Net(db: DB, ops: seq<Op>, e: Id): int
    requires Consistent(db)
  {
    if ops == [] then 0 else Net(db, Front(ops), e) + Shift(Run(db, Front(ops)), Last(ops), e)
  }

  lemma AnswerShifts(db: DB, c: Call, after: DB, reply: Reply, e: Id)
    requires Schema(db) && WritesItsAnswer(db, c, after, reply)
    ensures Held(after.tickets, e) - Held(db.tickets, e)
            == if reply.Err? || c.Use? || reply.value.eventId != e then 0 else if c.Register? then 1 else -1
  {
    if reply.Ok? {
      if c.Register? {
        HeldAfterInsert(db.tickets, reply.value, e);
      } else {
        HeldAfterUpdate(db.tickets, reply.value, e);
      }
    }
  }

  lemma HeldShifts(db: DB, op: Op, e: Id)
    requires Consistent(db)
    ensures Held(Step(db, op).tickets, e) == Held(db.tickets, e) + Shift(db, op, e)
  {
    if op.Request? {
      AnswerIsTheRowWritten(db, op.c);
      AnswerShifts(db, op.c, Atomic(db, op.c).0, Atomic(db, op.c).1, e);
    } else if op.Delete? {
      HeldWithoutEvent(db.tickets, op.event, e);
    }
  }

  lemma {:induction false} HeldMovesByNet(db: DB, ops: seq<Op>, e: Id)
    requires Consistent(db)
    ensures Held(Run(db, ops).tickets, e) == Held(db.tickets, e) + Net(db, ops, e)
  {
    if ops == [] {
    } else {
      HeldMovesByNet(db, Front(ops), e);
      HeldShifts(Run(db, Front(ops)), Last(ops), e);
    }
  }

  /** What may commit between the snapshot and the write of a capacity update without harm. */
  ghost predicate Harmless(db: DB, ops: seq<Op>, e: Id, p: EventPatch)
    requires Consistent(db)
  {
    || e !in Run(db, ops).events || p.total.None? || p.total.value < 1
    || Net(db, ops, e) == 0
    || (Held(db.tickets, e) >= p.total.value && Held(Run(db, ops).tickets, e) >= p.total.value)
  }

  lemma SameCountIsAtomic(db: DB, seen: map<Id, Ticket>, e: Id, p: EventPatch)
    requires Consistent(db)
    requires || e !in db.events || p.total.None? || p.total.value < 1
             || Recount(seen, e, p.total.value) == Recount(db.tickets, e, p.total.value)
    ensures UpdateSeeing(db, seen, e, p) == Step(db, Update(e, p))
  {
  }

  /**
   * A capacity update that took its snapshot before `ops` and writes after them keeps the counter law
   * exactly when sales and returns of the event balance in between, or the event is full before and
   * after at the new capacity. Then it is the atomic update, and everything said of runs applies.
   */
  lemma StaleUpdateKeepsLawIff(db: DB, ops: seq<Op>, e: Id, p: EventPatch)
    requires Consistent(db)
    ensures Consistent(UpdateSeeing(Run(db, ops), db.tickets, e, p)) <==> Harmless(db, ops, e, p)
    ensures Harmless(db, ops, e, p) ==>
              UpdateSeeing(Run(db, ops), db.tickets, e, p) == Step(Run(db, ops), Update(e, p))
  {
    var mid := Run(db, ops);
    HeldMovesByNet(db, ops, e);
    StaleCountKeepsLawIff(mid, db.tickets, e, p);
    if Harmless(db, ops, e, p) { SameCountIsAtomic(mid, db.tickets, e, p); }
  }

  /**
   * When it is not right the event can be overbooked: the last seat is sold while an organizer saves
   * the unchanged capacity, whose count has not seen that sale, and one more registration succeeds.
   */
  lemma StaleCountOverbooks(db: DB, last: Call, extra: Call)
    requires Consistent(db) && last.Register? && extra.Register? && extra.event == last.event && extra.user != last.user
    requires RegisterTx(db, last).1.Ok? && db.events[last.event].available == 1
    requires extra.now < db.events[last.event].startsAt && !Conflict(db.tickets, extra.event, extra.user)
    requires extra.newTicket !in db.tickets && extra.newTicket != last.newTicket
    requires !QrTaken(db.tickets, extra.newQr) && extra.newQr != last.newQr
    ensures var total := db.events[last.event].total;
            var saved := UpdateSeeing(RegisterTx(db, last).0, db.tickets, last.event,
                EventPatch(None, None, Some(total), None));
            && RegisterTx(saved, extra).1.Ok?
            && Held(RegisterTx(saved, extra).0.tickets, last.event) == total + 1
  {
    var e, sold := last.event, RegisterTx(db, last).0;
    HeldAfterInsert(db.tickets, NewTicket(last), e);
    HeldAfterInsert(sold.tickets, NewTicket(extra), e);
    NoConflictAfter(db, last, extra);
    assert UpdateSeeing(sold, db.tickets, e, EventPatch(None, None, Some(db.events[e].total), None)).events[e]
        == db.events[e];
  }

  lemma NoConflictAfter(db: DB, last: Call, extra: Call)
    requires last.Register? && extra.Register? && RegisterTx(db, last).1.Ok? && extra.event == last.event
             && extra.user != last.user
    requires !Conflict(db.tickets, extra.event, extra.user)
    requires !QrTaken(db.tickets, extra.newQr) && extra.newQr != last.newQr
    ensures var tickets := RegisterTx(db, last).0.tickets;
            !Conflict(tickets, extra.event, extra.user) && !QrTaken(tickets, extra.newQr)
  {
  }

  /** Such a moment is reached from empty tables: one approved event with one seat. */
  lemma LastSeatIsReached(ops: seq<Op>, last: Call, extra: Call)
    requires ops == [Create(0, 10, None, 1, 7), Moderate(0, Approved)]
    requires last == Register(1, 0, 0, 0, 0) && extra == Register(2, 0, 1, 1, 0)
    ensures var db := Run(EMPTY, ops);
            var sold := RegisterTx(db, last).0;
            var saved := UpdateSeeing(sold, db.tickets, 0, EventPatch(None, None, Some(1), None));
            Held(RegisterTx(saved, extra).0.tickets, 0) == 2 && saved.events[0].total == 1
  {
    var e0 := Event(10, None, 1, 1, Published, Pending, Some(7));
    assert Run(EMPTY, Front(Front(ops))) == EMPTY;
    assert Run(EMPTY, Front(ops)) == DB(map[0 := e0], map[]);
    assert Run(EMPTY, ops) == DB(map[0 := e0.(moderation := Approved)], map[]);
    StaleCountOverbooks(Run(EMPTY, ops), last, extra);
  }

  // ----- whole runs of them -----

  /** A transaction on `db`; a capacity update counts the tickets of `seen`. */
  ghost function LateStep(db: DB, seen: DB, op: Op): DB
    requires Consistent(db)
  {
    if op.Update? then UpdateSeeing(db, seen.tickets, op.event, op.patch) else Step(db, op)
  }

  /** Move `i` counts in the state `ages[i]` moves earlier. Nothing is said once the law is broken. */
  ghost predicate MovesLate(states: seq<DB>, ops: seq<Op>, ages: seq<nat>, i: nat)
    requires |states| == |ops| + 1 && |ages| == |ops| && i < |ops| && ages[i] <= i
  {
    Consistent(states[i]) ==> states[i + 1] == LateStep(states[i], states[i - ages[i]], ops[i])
  }

  ghost predicate LateRun(states: seq<DB>, ops: seq<Op>, ages: seq<nat>) {
    && |states| == |ops| + 1 && |ages| == |ops| && Consistent(states[0])
    && (forall i | 0 <= i < |ops| :: ages[i] <= i)
    && (forall i | 0 <= i < |ops| :: MovesLate(states, ops, ages, i))
  }

  /** Between the snapshot and the write of move `i` nothing harmful committed. */
  ghost predicate HarmlessAt(db: DB, ops: seq<Op>, ages: seq<nat>, i: nat)
    requires Consistent(db) && i < |ops| == |ages| && ages[i] <= i
  {
    ops[i].Update? ==> Harmless(Run(db, ops[..i - ages[i]]), ops[i - ages[i]..i], ops[i].event, ops[i].patch)
  }

  lemma {:induction false} RunInTwo(db: DB, a: seq<Op>, b: seq<Op>)
    requires Consistent(db)
    ensures Run(Run(db, a), b) == Run(db, a + b)
    decreases |b|
  {
    if b == [] {
      assert a + b == a;
    } else {
      RunInTwo(db, a, Front(b));
      assert Front(a + b) == a + Front(b) && Last(a + b) == Last(b);
      assert Run(db, a + b) == Step(Run(db, Front(a + b)), Last(a + b));
    }
  }

  lemma RunSplits(db: DB, ops: seq<Op>, k: nat, i: nat)
    requires Consistent(db) && k <= i <= |ops|
    ensures Run(Run(db, ops[..k]), ops[k..i]) == Run(db, ops[..i])
  {
    var a, b := ops[..k], ops[k..i];
    assert a + b == ops[..i];
    RunInTwo(db, a, b);
  }

  lemma RunGrows(db: DB, ops: seq<Op>, i: nat)
    requires Consistent(db) && i < |ops|
    ensures Run(db, ops[..i + 1]) == Step(Run(db, ops[..i]), ops[i])
  {
    assert Front(ops[..i + 1]) == ops[..i];
  }

  ghost predicate LawAt(states: seq<DB>, i: nat)
    requires i < |states|
  {
    Consistent(states[i])
  }

  /** State `i` of the run is that of the atomic run. */
  ghost predicate AtomicAt(states: seq<DB>, ops: seq<Op>, i: nat)
    requires i < |states| == |ops| + 1 && Consistent(states[0])
  {
    states[i] == Run(states[0], ops[..i])
  }

  /** As long as the run has been the atomic one, its next move keeps it so exactly when it is harmless. */
  lemma LateStepIff(states: seq<DB>, ops: seq<Op>, ages: seq<nat>, i: nat)
    requires LateRun(states, ops, ages) && i < |ops|
    requires AtomicAt(states, ops, i) && AtomicAt(states, ops, i - ages[i])
    ensures LawAt(states, i + 1) <==> HarmlessAt(states[0], ops, ages, i)
    ensures HarmlessAt(states[0], ops, ages, i) ==> AtomicAt(states, ops, i + 1)
  {
    assert MovesLate(states, ops, ages, i);
    RunGrows(states[0], ops, i);
    if ops[i].Update? {
      var k := i - ages[i];
      RunSplits(states[0], ops, k, i);
      StaleUpdateKeepsLawIff(states[k], ops[k..i], ops[i].event, ops[i].patch);
    }
  }

  /** A move is harmless, or keeps the law; either way the run stays atomic. */
  ghost predicate Sound(states: seq<DB>, ops: seq<Op>, ages: seq<nat>, i: nat)
    requires LateRun(states, ops, ages) && i < |ops|
  {
    HarmlessAt(states[0], ops, ages, i) || LawAt(states, i + 1)
  }

  ghost predicate Tracks(atomic: seq<DB>, db: DB, ops: seq<Op>, i: nat)
    requires Consistent(db) && i < |atomic| == |ops| + 1
  {
    atomic[i] == Run(db, ops[..i])
  }

  /** A late run of sound moves beside the states of the atomic run. */
  ghost predicate Beside(states: seq<DB>, atomic: seq<DB>, ops: seq<Op>, ages: seq<nat>) {
    && LateRun(states, ops, ages) && |atomic| == |ops| + 1
    && (forall i | 0 <= i < |ops| :: Sound(states, ops, ages, i))
    && (forall i | 0 <= i < |atomic| :: Tracks(atomic, states[0], ops, i))
  }

  lemma StartsAtomic(states: seq<DB>, atomic: seq<DB>, ops: seq<Op>, ages: seq<nat>)
    requires Beside(states, atomic, ops, ages)
    ensures states[0] == atomic[0]
  {
    assert Tracks(atomic, states[0], ops, 0);
  }

  lemma StaysAtomic(states: seq<DB>, atomic: seq<DB>, ops: seq<Op>, ages: seq<nat>, i: nat)
    requires Beside(states, atomic, ops, ages) && i < |ops|
    requires states[i] == atomic[i] && states[i - ages[i]] == atomic[i - ages[i]]
    ensures states[i + 1] == atomic[i + 1]
  {
    assert Sound(states, ops, ages, i);
    assert Tracks(atomic, states[0], ops, i) && Tracks(atomic, states[0], ops, i + 1);
    assert Tracks(atomic, states[0], ops, i - ages[i]);
    LateStepIff(states, ops, ages, i);
  }

  lemma {:induction false} SoundIsAtomic(states: seq<DB>, atomic: seq<DB>, ops: seq<Op>, ages: seq<nat>, n: nat)
    requires Beside(states, atomic, ops, ages) && n <= |ops|
    ensures states[n] == atomic[n]
  {
    if n == 0 {
      StartsAtomic(states, atomic, ops, ages);
    } else {
      SoundIsAtomic(states, atomic, ops, ages, n - 1);
      SoundIsAtomic(states, atomic, ops, ages, n - 1 - ages[n - 1]);
      StaysAtomic(states, atomic, ops, ages, n - 1);
    }
  }

  lemma AtomicIsBoth(states: seq<DB>, atomic: seq<DB>, ops: seq<Op>, ages: seq<nat>, i: nat)
    requires Beside(states, atomic, ops, ages) && i < |ops|
    requires states[i] == atomic[i] && states[i + 1] == atomic[i + 1] && states[i - ages[i]] == atomic[i - ages[i]]
    ensures HarmlessAt(states[0], ops, ages, i) && LawAt(states, i + 1)
  {
    assert Tracks(atomic, states[0], ops, i) && Tracks(atomic, states[0], ops, i + 1);
    assert Tracks(atomic, states[0], ops, i - ages[i]);
    LateStepIff(states, ops, ages, i);
  }

  lemma SoundIsBoth(states: seq<DB>, atomic: seq<DB>, ops: seq<Op>, ages: seq<nat>, i: nat)
    requires Beside(states, atomic, ops, ages) && i < |ops|
    ensures HarmlessAt(states[0], ops, ages, i) && LawAt(states, i + 1)
  {
    SoundIsAtomic(states, atomic, ops, ages, i);
    SoundIsAtomic(states, atomic, ops, ages, i + 1);
    SoundIsAtomic(states, atomic, ops, ages, i - ages[i]);
    AtomicIsBoth(states, atomic, ops, ages, i);
  }

  lemma AtomicStates(db: DB, ops: seq<Op>) returns (atomic: seq<DB>)
    requires Consistent(db)
    ensures |atomic| == |ops| + 1 && forall i | 0 <= i < |atomic| :: Tracks(atomic, db, ops, i)
  {
    atomic := seq(|ops| + 1, i requires 0 <= i <= |ops| => Run(db, ops[..i]));
  }

  /** All sound, hence all harmless and lawful, and the run ends where the atomic one does. */
  lemma AllSound(states: seq<DB>, ops: seq<Op>, ages: seq<nat>)
    requires LateRun(states, ops, ages) && forall i | 0 <= i < |ops| :: Sound(states, ops, ages, i)
    ensures forall i | 0 <= i < |ops| :: HarmlessAt(states[0], ops, ages, i)
    ensures forall i | 0 <= i < |states| :: LawAt(states, i)
    ensures states[|ops|] == Run(states[0], ops)
  {
    var atomic := AtomicStates(states[0], ops);
    forall i | 0 <= i < |ops| ensures HarmlessAt(states[0], ops, ages, i) {
      SoundIsBoth(states, atomic, ops, ages, i);
    }
    forall i | 0 <= i < |states| ensures LawAt(states, i) {
      if i > 0 { SoundIsBoth(states, atomic, ops, ages, i - 1); }
    }
    SoundIsAtomic(states, atomic, ops, ages, |ops|);
    assert Tracks(atomic, states[0], ops, |ops|) && ops[..|ops|] == ops;
  }

  /**
   * However old the counts of its capacity updates are, a run keeps the counter law throughout exactly
   * when every one of them is harmless. It is then the run of atomic transactions, and whatever holds
   * of those holds of it.
   */
  lemma LateCountsKeepLawIff(states: seq<DB>, ops: seq<Op>, ages: seq<nat>)
    requires LateRun(states, ops, ages)
    ensures (forall i | 0 <= i < |states| :: LawAt(states, i))
            <==> (forall i | 0 <= i < |ops| :: HarmlessAt(states[0], ops, ages, i))
    ensures (forall i | 0 <= i < |ops| :: HarmlessAt(states[0], ops, ages, i)) ==>
              states[|ops|] == Run(states[0], ops)
  {
    if forall i | 0 <= i < |states| :: LawAt(states, i) {
      forall i | 0 <= i < |ops| ensures Sound(states, ops, ages, i) {
        assert LawAt(states, i + 1);
      }
      AllSound(states, ops, ages);
    }
    if forall i | 0 <= i < |ops| :: HarmlessAt(states[0], ops, ages, i) {
      forall i | 0 <= i < |ops| ensures Sound(states, ops, ages, i) {
      }
      AllSound(states, ops, ages);
    }
  }
}
