/**
 * Updates of an event's times that were each checked against some earlier read of the
 * row: which patches, used together, keep its end after its start.
 */
module ScheduleRaces {
  import opened Common
  import opened Seats
  import opened SeatRuns
  import opened Schedule

  // ----- runs of updates checked against earlier reads -----

  /** The table's CHECK constraint lets the patch through. */
  predicate Applies(p: EventPatch) {
    p.total.Some? ==> p.total.value >= 1
  }

  /** Move `i` is an update of `e`, accepted against the row that the handler read after `j` moves. */
  ghost predicate AcceptedAt(db: DB, ops: seq<Op>, i: nat, j: nat, e: Id)
    requires Consistent(db) && j <= i < |ops| && ops[i].Update?
  {
    var read := Run(db, ops[..j]); e in read.events && UpdateAccepted(read.events[e], ops[i].patch)
  }

  ghost predicate Undeleted(ops: seq<Op>, e: Id) {
    forall i | 0 <= i < |ops| :: ops[i] != Delete(e)
  }

  /**
   * Any transactions on a stored event `e`, whose updates take their patches from `ps` and were
   * each accepted against some earlier read. Ids are never drawn again, so `e` is not deleted.
   */
  ghost predicate CheckedEarlier(db: DB, ops: seq<Op>, e: Id, ps: iset<EventPatch>)
    requires Consistent(db)
  {
    && e in db.events && Undeleted(ops, e)
    && forall i | 0 <= i < |ops| && ops[i].Update? && ops[i].event == e ::
         ops[i].patch in ps && exists j: nat | j <= i :: AcceptedAt(db, ops, i, j, e)
  }

  ghost predicate KeepsRule(db: DB, ops: seq<Op>, e: Id)
    requires Consistent(db)
  {
    e in Run(db, ops).events && EndAfterStart(Run(db, ops).events[e])
  }

  /** Patches that some row can be changed with: applied, and in order when both times are set. */
  predicate Possible(p: EventPatch) {
    Applies(p) && (p.startsAt.Some? && p.endAt.Some? ==> p.endAt.value > p.startsAt.value)
  }

  /**
   * Every start one patch sets is before every end another sets, unless each of the two sets both
   * times.
   */
  ghost predicate Compatible(ps: iset<EventPatch>) {
    forall p <- ps, q <- ps |
      Possible(p) && Possible(q) && p.startsAt.Some? && q.endAt.Some? && (p.endAt.None? || q.startsAt.None?) ::
      q.endAt.value > p.startsAt.value
  }

  /** Patches that leave the end alone are always compatible, although each is checked against its end. */
  lemma StartOnlyPatchesAreCompatible(ps: iset<EventPatch>)
    requires forall p <- ps :: p.endAt.None?
    ensures Compatible(ps)
  {
  }

  // ----- who set the times -----

  predicate Sets(op: Op, e: Id, start: bool) {
    op.Update? && op.event == e && Applies(op.patch) && if start then op.patch.startsAt.Some? else op.patch.endAt.Some?
  }

  /** The last move that set the start (or the end) of `e`. */
  function Setter(ops: seq<Op>, e: Id, start: bool): (k: Option<nat>)
    ensures k.Some? ==>
              && k.value < |ops| && Sets(ops[k.value], e, start)
              && forall i | k.value < i < |ops| :: !Sets(ops[i], e, start)
    ensures k.None? ==> forall i | 0 <= i < |ops| :: !Sets(ops[i], e, start)
  {
    if ops == [] then None
    else if Sets(Last(ops), e, start) then Some(|ops| - 1)
    else Setter(Front(ops), e, start)
  }

  ghost predicate TimesFrom(db: DB, ops: seq<Op>, e: Id)
    requires Consistent(db) && e in db.events
  {
    var row, s, t := Run(db, ops).events, Setter(ops, e, true), Setter(ops, e, false);
    && e in row
    && row[e].startsAt == (if s.Some? then ops[s.value].patch.startsAt.value else db.events[e].startsAt)
    && row[e].endAt == (if t.Some? then ops[t.value].patch.endAt else db.events[e].endAt)
  }

  lemma StepSetsTimes(db: DB, op: Op, e: Id)
    requires Consistent(db) && e in db.events && op != Delete(e)
    ensures var row := Step(db, op).events;
            && e in row
            && row[e].startsAt == (if Sets(op, e, true) then op.patch.startsAt.value else db.events[e].startsAt)
            && row[e].endAt == (if Sets(op, e, false) then op.patch.endAt else db.events[e].endAt)
  {
    if op.Request? { RequestKeepsTimes(db, op.c); AnswerIsTheRowWritten(db, op.c); }
  }

  lemma {:induction false} TimesAreTheSetters(db: DB, ops: seq<Op>, e: Id)
    requires Consistent(db) && e in db.events && Undeleted(ops, e)
    ensures TimesFrom(db, ops, e)
  {
    if ops == [] {
    } else {
      TimesAreTheSetters(db, Front(ops), e);
      StepSetsTimes(Run(db, Front(ops)), Last(ops), e);
    }
  }

  /** What was read before a time was first set is still that time of the start. */
  lemma UnsetAtRead(db: DB, ops: seq<Op>, e: Id, j: nat)
    requires Consistent(db) && e in db.events && j <= |ops| && Undeleted(ops, e)
    ensures e in Run(db, ops[..j]).events
    ensures Setter(ops, e, true).None? ==> Run(db, ops[..j]).events[e].startsAt == db.events[e].startsAt
    ensures Setter(ops, e, false).None? ==> Run(db, ops[..j]).events[e].endAt == db.events[e].endAt
  {
    TimesAreTheSetters(db, ops[..j], e);
  }

  // ----- compatible patches keep the rule -----

  /** The row against which the last patch that set this time was accepted; the other time may be unset so far. */
  lemma SetterWasAccepted(db: DB, ops: seq<Op>, e: Id, ps: iset<EventPatch>, start: bool)
    returns (p: EventPatch, read: Event)
    requires Consistent(db) && CheckedEarlier(db, ops, e, ps) && Setter(ops, e, start).Some?
    ensures p == ops[Setter(ops, e, start).value].patch && p in ps && Possible(p) && UpdateAccepted(read, p)
    ensures Setter(ops, e, true).None? ==> read.startsAt == db.events[e].startsAt
    ensures Setter(ops, e, false).None? ==> read.endAt == db.events[e].endAt
  {
    var k := Setter(ops, e, start).value;
    p := ops[k].patch;
    var j: nat :| j <= k && AcceptedAt(db, ops, k, j, e);
    UnsetAtRead(db, ops, e, j);
    read := Run(db, ops[..j]).events[e];
  }

  /** The times that the setters have left are in order. */
  ghost predicate InOrder(first: Event, ops: seq<Op>, s: Option<nat>, t: Option<nat>)
    requires s.Some? ==> s.value < |ops| && ops[s.value].Update? && ops[s.value].patch.startsAt.Some?
    requires t.Some? ==> t.value < |ops| && ops[t.value].Update? && ops[t.value].patch.endAt.Some?
  {
    var start := if s.Some? then ops[s.value].patch.startsAt.value else first.startsAt;
    var end := if t.Some? then ops[t.value].patch.endAt else first.endAt;
    end.Some? ==> end.value > start
  }

  lemma BothSetInOrder(first: Event, ops: seq<Op>, e: Id, ps: iset<EventPatch>)
    requires Compatible(ps) && Setter(ops, e, true).Some? && Setter(ops, e, false).Some?
    requires var p := ops[Setter(ops, e, true).value].patch; p in ps && Possible(p)
    requires var q := ops[Setter(ops, e, false).value].patch; q in ps && Possible(q)
    ensures InOrder(first, ops, Setter(ops, e, true), Setter(ops, e, false))
  {
    var s, t := Setter(ops, e, true).value, Setter(ops, e, false).value;
    if s < t {
      assert !Sets(ops[t], e, true);
    } else if t < s {
      assert !Sets(ops[s], e, false);
    }
  }

  lemma SettersInOrder(db: DB, ops: seq<Op>, e: Id, ps: iset<EventPatch>)
    requires Consistent(db) && CheckedEarlier(db, ops, e, ps) && EndAfterStart(db.events[e]) && Compatible(ps)
    ensures InOrder(db.events[e], ops, Setter(ops, e, true), Setter(ops, e, false))
  {
    if Setter(ops, e, true).Some? {
      var p, _ := SetterWasAccepted(db, ops, e, ps, true);
      if Setter(ops, e, false).Some? {
        var q, _ := SetterWasAccepted(db, ops, e, ps, false);
        BothSetInOrder(db.events[e], ops, e, ps);
      }
    } else if Setter(ops, e, false).Some? {
      var q, _ := SetterWasAccepted(db, ops, e, ps, false);
    }
  }

  lemma CompatiblePatchesKeepRule(db: DB, ops: seq<Op>, e: Id, ps: iset<EventPatch>)
    requires Consistent(db) && CheckedEarlier(db, ops, e, ps) && EndAfterStart(db.events[e]) && Compatible(ps)
    ensures KeepsRule(db, ops, e)
  {
    TimesAreTheSetters(db, ops, e);
    SettersInOrder(db, ops, e, ps);
  }

  // ----- incompatible patches can break it -----

  /** One event that starts just before `end` and has no end. */
  function OneEvent(end: Time): DB {
    DB(map[0 := Event(end - 1, None, 1, 1, Published, Approved, None)], map[])
  }

  lemma OneEventIsConsistent(end: Time)
    ensures Consistent(OneEvent(end)) && EndAfterStart(OneEvent(end).events[0])
  {
    assert HeldBy(OneEvent(end).tickets, 0) == {};
  }

  /** `p` sets a start no earlier than the end `q` sets; both were accepted against the row read first. */
  lemma IncompatiblePatchesBreakRule(ps: iset<EventPatch>, p: EventPatch, q: EventPatch)
    returns (db: DB, ops: seq<Op>)
    requires p in ps && q in ps && Possible(p) && Possible(q) && p.startsAt.Some? && q.endAt.Some?
    requires (p.endAt.None? || q.startsAt.None?) && q.endAt.value <= p.startsAt.value
    ensures Consistent(db) && CheckedEarlier(db, ops, 0, ps) && EndAfterStart(db.events[0]) && !KeepsRule(db, ops, 0)
  {
    db := OneEvent(q.endAt.value);
    OneEventIsConsistent(q.endAt.value);
    ops := if p.endAt.None? then [Update(0, q), Update(0, p)] else [Update(0, p), Update(0, q)];
    assert ops[..0] == [] && Run(db, []) == db;
    forall i | 0 <= i < |ops| ensures ops[i].patch in ps && AcceptedAt(db, ops, i, 0, 0) {
    }
    TimesAreTheSetters(db, ops, 0);
    assert Front(ops) == [ops[0]];
    assert Setter(ops, 0, true) == Some(if p.endAt.None? then 1 else 0);
    assert Setter(ops, 0, false) == Some(if p.endAt.None? then 0 else 1);
  }

  /**
   * The rule survives every run whose updates take their patches from `ps`, each accepted against any
   * earlier read, exactly when no start among them reaches an end set by another one, patches that
   * both set both times excepted.
   */
  lemma StaleChecksKeepRuleIff(ps: iset<EventPatch>)
    ensures (forall db: DB, ops: seq<Op>, e: Id |
               Consistent(db) && CheckedEarlier(db, ops, e, ps) && EndAfterStart(db.events[e]) :: KeepsRule(db, ops, e))
            <==> Compatible(ps)
  {
    if Compatible(ps) {
      forall db: DB, ops: seq<Op>, e: Id |
        Consistent(db) && CheckedEarlier(db, ops, e, ps) && EndAfterStart(db.events[e]) ensures KeepsRule(db, ops, e)
      {
        CompatiblePatchesKeepRule(db, ops, e, ps);
      }
    } else {
      var p, q :| p in ps && q in ps && Possible(p) && Possible(q) && p.startsAt.Some? && q.endAt.Some?
                  && (p.endAt.None? || q.startsAt.None?) && q.endAt.value <= p.startsAt.value;
      var db, ops := IncompatiblePatchesBreakRule(ps, p, q);
    }
  }
}
