/** Analytics: statistics derived from one snapshot of the seat tables. */
module Stats {
  import opened Common
  import opened Seats

  const HOUR := 3600 * SECOND
  const WEEK := 7 * 24 * HOUR

  /** date_trunc('hour') rounds down. */
  function HourOf(t: Time): Time {
    t - t % HOUR
  }

  datatype EventStats = EventStats(
    event: Option<Id>, total: int, registered: int, remaining: int, timeline: map<Time, int>, asOf: Time)

  datatype StatsError = NotFound | Forbidden

  function RemainingDerived(total: int, registered: int): int {
    if registered >= total then 0 else total - registered
  }

  /** The events whose tickets a caller may see in the aggregate. */
  function Scope(db: DB, caller: Id, isAdmin: bool): set<Id> {
    set e | e in db.events && (isAdmin || db.events[e].organizer == Some(caller))
  }

  /** Active or used tickets; the administrator's query does not join events. */
  function Registered(db: DB, caller: Id, isAdmin: bool): set<Id> {
    set t | t in db.tickets && db.tickets[t].status != Cancelled
            && (isAdmin || (db.tickets[t].eventId in db.events
                && db.events[db.tickets[t].eventId].organizer == Some(caller)))
  }

  /** The ticket counts towards the last seven days, in hour `h` or in any hour. */
  predicate Falls(t: Ticket, now: Time, h: Option<Time>) {
    t.createdAt >= now - WEEK && (h.None? || HourOf(t.createdAt) == h.value)
  }

  function Recent(tickets: map<Id, Ticket>, held: set<Id>, now: Time, h: Option<Time>): set<Id> {
    set t | t in held && t in tickets && Falls(tickets[t], now, h)
  }

  /** Held tickets per creation hour, among those created in the last seven days. */
  function Timeline(db: DB, held: set<Id>, now: Time): map<Time, int> {
    var hours := set t | t in Recent(db.tickets, held, now, None) :: HourOf(db.tickets[t].createdAt);
    map h | h in hours :: |Recent(db.tickets, held, now, Some(h))|
  }

  function ForEvent(db: DB, caller: Id, isAdmin: bool, e: Id, now: Time): Result<EventStats, StatsError> {
    if e !in db.events then Err(NotFound)
    else if !isAdmin && db.events[e].organizer != Some(caller) then Err(Forbidden)
    else
      var total, registered := db.events[e].total, Held(db.tickets, e);
      Ok(EventStats(Some(e), total, registered, RemainingDerived(total, registered),
          Timeline(db, HeldBy(db.tickets, e), now), now))
  }

  ghost function Aggregate(db: DB, caller: Id, isAdmin: bool, now: Time): EventStats {
    var total := Sum(Scope(db, caller, isAdmin), e => if e in db.events then db.events[e].total else 0);
    var held := Registered(db, caller, isAdmin);
    EventStats(None, total, |held|, RemainingDerived(total, |held|), Timeline(db, held, now), now)
  }

  // ----- sums over a set of events -----

  ghost function Sum(s: set<Id>, f: Id -> int): int {
    if s == {} then 0 else var e :| e in s; f(e) + Sum(s - {e}, f)
  }

  lemma {:induction false} SumWithout(s: set<Id>, f: Id -> int, x: Id)
    requires x in s
    ensures Sum(s, f) == f(x) + Sum(s - {x}, f)
    decreases s
  {
    var e :| e in s && Sum(s, f) == f(e) + Sum(s - {e}, f);
    if e != x {
      SumWithout(s - {e}, f, x);
      SumWithout(s - {x}, f, e);
      assert s - {e} - {x} == s - {x} - {e};
    }
  }

  lemma {:induction false} SumSame(s: set<Id>, f: Id -> int, g: Id -> int)
    requires forall e <- s :: f(e) == g(e)
    ensures Sum(s, f) == Sum(s, g)
    decreases s
  {
    if s == {} {
    } else {
      var e :| e in s;
      SumWithout(s, f, e);
      SumWithout(s, g, e);
      SumSame(s - {e}, f, g);
    }
  }

  // ----- per event: the derived figure is the stored one -----

  /** On any consistent snapshot the derived remaining capacity is the allocator's counter. */
  lemma DerivedIsStored(db: DB, caller: Id, isAdmin: bool, e: Id, now: Time)
    requires Consistent(db) && ForEvent(db, caller, isAdmin, e, now).Ok?
    ensures ForEvent(db, caller, isAdmin, e, now).value.remaining == db.events[e].available
  {
  }

  /** total = registered + remaining, exactly when the event is not oversold. */
  lemma CapacitySplitsIff(total: int, registered: int)
    ensures total == registered + RemainingDerived(total, registered) <==> registered <= total
  {
  }

  // ----- what an answer says -----

  const HOUR_NANOS := 3_600_000_000_000

  /** `t` falls in the whole hour that starts at `h`. */
  predicate OfHour(t: Time, h: Time) {
    h % HOUR_NANOS == 0 && h <= t < h + HOUR_NANOS
  }

  lemma HourOfIsTheHour(t: Time, h: Time)
    ensures HourOf(t) == h <==> OfHour(t, h)
  {
    assert HOUR == HOUR_NANOS;
  }

  /** The tickets among `held` that were created in the hour `h` and in the last seven days. */
  function InHour(tickets: map<Id, Ticket>, held: set<Id>, now: Time, h: Time): set<Id> {
    set t | t in held && t in tickets
            && tickets[t].createdAt >= now - 604_800_000_000_000 && OfHour(tickets[t].createdAt, h)
  }

  lemma RecentIsInHour(tickets: map<Id, Ticket>, held: set<Id>, now: Time, h: Time)
    ensures Recent(tickets, held, now, Some(h)) == InHour(tickets, held, now, h)
  {
    assert WEEK == 604_800_000_000_000;
    forall t <- held | t in tickets ensures HourOf(tickets[t].createdAt) == h <==> OfHour(tickets[t].createdAt, h) {
      HourOfIsTheHour(tickets[t].createdAt, h);
    }
  }

  /** An hour is listed exactly when it has such tickets, with their number. */
  ghost predicate CountsHours(timeline: map<Time, int>, tickets: map<Id, Ticket>, held: set<Id>, now: Time) {
    forall h ::
      && (h in timeline <==> InHour(tickets, held, now, h) != {})
      && (h in timeline ==> timeline[h] == |InHour(tickets, held, now, h)|)
  }

  lemma TimelineCounts(db: DB, held: set<Id>, now: Time)
    ensures CountsHours(Timeline(db, held, now), db.tickets, held, now)
  {
    forall h: Time
      ensures h in Timeline(db, held, now) <==> InHour(db.tickets, held, now, h) != {}
      ensures h in Timeline(db, held, now) ==> Timeline(db, held, now)[h] == |InHour(db.tickets, held, now, h)|
    {
      RecentIsInHour(db.tickets, held, now, h);
      if t :| t in InHour(db.tickets, held, now, h) {
        assert t in Recent(db.tickets, held, now, None) && HourOf(db.tickets[t].createdAt) == h;
      }
      if h in Timeline(db, held, now) {
        var t :| t in Recent(db.tickets, held, now, None) && HourOf(db.tickets[t].createdAt) == h;
        assert t in Recent(db.tickets, held, now, Some(h));
      }
    }
  }

  /** Who is refused, and what an organizer or administrator is told about one event. */
  lemma ForEventAnswers(db: DB, caller: Id, isAdmin: bool, e: Id, now: Time)
    ensures var r := ForEvent(db, caller, isAdmin, e, now);
            && (r == Err(NotFound) <==> e !in db.events)
            && (r == Err(Forbidden) <==> e in db.events && !isAdmin && db.events[e].organizer != Some(caller))
            && (r.Ok? ==>
                  && r.value.event == Some(e) && r.value.asOf == now
                  && r.value.total == db.events[e].total && r.value.registered == |SeatsTaken(db, e)|
                  && r.value.remaining
                     == (if r.value.total > r.value.registered then r.value.total - r.value.registered else 0)
                  && CountsHours(r.value.timeline, db.tickets, SeatsTaken(db, e), now))
  {
    assert HeldBy(db.tickets, e) == SeatsTaken(db, e);
    TimelineCounts(db, HeldBy(db.tickets, e), now);
  }

  // ----- aggregate -----

  function HeldIn(tickets: map<Id, Ticket>, s: set<Id>): set<Id> {
    set t | t in tickets && tickets[t].status != Cancelled && tickets[t].eventId in s
  }

  lemma HeldInWithout(tickets: map<Id, Ticket>, s: set<Id>, e: Id)
    requires e in s
    ensures |HeldIn(tickets, s)| == |HeldIn(tickets, s - {e})| + Held(tickets, e)
  {
    assert HeldIn(tickets, s) == HeldIn(tickets, s - {e}) + HeldBy(tickets, e);
    assert HeldIn(tickets, s - {e}) !! HeldBy(tickets, e);
  }

  /** Tickets split by event: the held tickets of a set of events are the sum of the per-event counts. */
  lemma {:induction false} HeldSplitsByEvent(tickets: map<Id, Ticket>, s: set<Id>, h: Id -> int)
    requires forall e <- s :: h(e) == Held(tickets, e)
    ensures |HeldIn(tickets, s)| == Sum(s, h)
    decreases s
  {
    if s == {} {
      assert HeldIn(tickets, s) == {};
    } else {
      var e :| e in s;
      HeldSplitsByEvent(tickets, s - {e}, h);
      SumWithout(s, h, e);
      HeldInWithout(tickets, s, e);
    }
  }

  lemma {:induction false} RemainingIsSubadditive(s: set<Id>, total: Id -> int, h: Id -> int, r: Id -> int)
    requires forall e <- s :: r(e) == RemainingDerived(total(e), h(e))
    ensures RemainingDerived(Sum(s, total), Sum(s, h)) <= Sum(s, r)
    ensures 0 <= Sum(s, r)
    decreases s
  {
    if s == {} {
    } else {
      var e :| e in s;
      RemainingIsSubadditive(s - {e}, total, h, r);
      SumWithout(s, total, e);
      SumWithout(s, h, e);
      SumWithout(s, r, e);
    }
  }

  /** The aggregate of a caller adds up the events in scope; its remaining figure never exceeds the sum of theirs. */
  lemma AggregateAddsUp(db: DB, caller: Id, isAdmin: bool, now: Time, total: Id -> int, held: Id -> int,
        free: Id -> int)
    requires Consistent(db)
    requires forall e <- db.events ::
               total(e) == db.events[e].total && held(e) == Held(db.tickets, e) && free(e) == db.events[e].available
    ensures var a := Aggregate(db, caller, isAdmin, now);
            var scope := set e | e in db.events && (isAdmin || db.events[e].organizer == Some(caller));
            && a.total == Sum(scope, total)
            && a.registered == Sum(scope, held)
            && a.remaining <= Sum(scope, free)
  {
    var scope := Scope(db, caller, isAdmin);
    SumSame(scope, e => if e in db.events then db.events[e].total else 0, total);
    assert Registered(db, caller, isAdmin) == HeldIn(db.tickets, scope);
    assert scope == set e | e in db.events && (isAdmin || db.events[e].organizer == Some(caller));
    HeldSplitsByEvent(db.tickets, scope, held);
    RemainingIsSubadditive(scope, total, held, free);
  }

  /** Active or used tickets of the events a caller may see. */
  function TakenInScope(db: DB, caller: Id, isAdmin: bool): set<Id>
    requires Schema(db)
  {
    set t | t in db.tickets && db.tickets[t].status in {Active, Used}
            && (isAdmin || db.events[db.tickets[t].eventId].organizer == Some(caller))
  }

  /** The rest of what the aggregate says: whose tickets it counts, the clamped remainder and the hours. */
  lemma AggregateAnswers(db: DB, caller: Id, isAdmin: bool, now: Time)
    requires Schema(db)
    ensures var a, taken := Aggregate(db, caller, isAdmin, now), TakenInScope(db, caller, isAdmin);
            && a.event == None && a.asOf == now && a.registered == |taken|
            && a.remaining == (if a.total > a.registered then a.total - a.registered else 0)
            && CountsHours(a.timeline, db.tickets, taken, now)
  {
    assert Registered(db, caller, isAdmin) == TakenInScope(db, caller, isAdmin);
    TimelineCounts(db, TakenInScope(db, caller, isAdmin), now);
  }

  // ----- the timeline loop -----

  datatype Bucket = Bucket(hour: Time, count: int)

  ghost predicate Increasing(b: seq<Bucket>) {
    forall i, j | 0 <= i < j < |b| :: b[i].hour < b[j].hour
  }

  function CountAt(b: seq<Bucket>, h: Time): int {
    if b == [] then 0 else (if b[0].hour == h then b[0].count else 0) + CountAt(b[1..], h)
  }

  function Total(b: seq<Bucket>): int {
    if b == [] then 0 else b[0].count + Total(b[1..])
  }

  /** One more registration in hour `h`: GROUP BY 1 ORDER BY 1 ASC, a row at a time. */
  function AddTo(b: seq<Bucket>, h: Time): seq<Bucket> {
    if b == [] || h < b[0].hour then [Bucket(h, 1)] + b
    else if h == b[0].hour then [Bucket(h, b[0].count + 1)] + b[1..]
    else [b[0]] + AddTo(b[1..], h)
  }

  lemma {:induction false} NoneBefore(b: seq<Bucket>, h: Time)
    requires forall i | 0 <= i < |b| :: b[i].hour > h
    ensures CountAt(b, h) == 0
  {
    if b == [] {
    } else {
      NoneBefore(b[1..], h);
    }
  }

  ghost predicate Grouped(b: seq<Bucket>) {
    Increasing(b) && forall i | 0 <= i < |b| :: b[i].count > 0
  }

  lemma {:induction false} AddToKeepsOrder(b: seq<Bucket>, h: Time)
    requires Grouped(b)
    ensures Grouped(AddTo(b, h)) && AddTo(b, h) != []
    ensures AddTo(b, h)[0].hour == if b == [] || h < b[0].hour then h else b[0].hour
  {
    if b != [] && h > b[0].hour {
      AddToKeepsOrder(b[1..], h);
      assert b[1..] != [] ==> b[0].hour < b[1].hour;
    }
  }

  lemma {:induction false} AddToCounts(b: seq<Bucket>, h: Time, at: Time)
    requires Increasing(b)
    ensures Total(AddTo(b, h)) == Total(b) + 1
    ensures CountAt(AddTo(b, h), at) == CountAt(b, at) + if at == h then 1 else 0
  {
    if b == [] || h < b[0].hour {
      assert ([Bucket(h, 1)] + b)[1..] == b;
    } else if h == b[0].hour {
      assert ([Bucket(h, b[0].count + 1)] + b[1..])[1..] == b[1..];
    } else {
      AddToCounts(b[1..], h, at);
      assert ([b[0]] + AddTo(b[1..], h))[1..] == AddTo(b[1..], h);
    }
  }

  lemma AddToGroups(b: seq<Bucket>, h: Time)
    requires Grouped(b)
    ensures Grouped(AddTo(b, h)) && Total(AddTo(b, h)) == Total(b) + 1
    ensures forall at :: CountAt(AddTo(b, h), at) == CountAt(b, at) + if at == h then 1 else 0
  {
    AddToKeepsOrder(b, h);
    AddToCounts(b, h, h);
    forall at ensures CountAt(AddTo(b, h), at) == CountAt(b, at) + if at == h then 1 else 0 {
      AddToCounts(b, h, at);
    }
  }

  /** The ids of the scanned tickets that fall in the period. */
  function RecentIn(scan: seq<Ticket>, now: Time, h: Option<Time>): set<Id> {
    if scan == [] then {} else
    var t := scan[|scan| - 1];
    RecentIn(scan[..|scan| - 1], now, h) + if Falls(t, now, h) then {t.id} else {}
  }

  lemma {:induction false} RecentInMembers(scan: seq<Ticket>, now: Time, h: Option<Time>, x: Id)
    ensures x in RecentIn(scan, now, h) <==> exists i | 0 <= i < |scan| :: scan[i].id == x && Falls(scan[i], now, h)
  {
    if scan == [] {
    } else {
      var n := |scan| - 1;
      RecentInMembers(scan[..n], now, h, x);
      assert forall i | 0 <= i < n :: scan[..n][i] == scan[i];
      if x in RecentIn(scan[..n], now, h) {
        var i :| 0 <= i < n && scan[..n][i].id == x && Falls(scan[..n][i], now, h);
        assert scan[i].id == x && Falls(scan[i], now, h);
      }
    }
  }

  lemma RecentGrows(scan: seq<Ticket>, i: nat, now: Time, h: Option<Time>)
    requires i < |scan| && forall j, k | 0 <= j < k < |scan| :: scan[j].id != scan[k].id
    ensures |RecentIn(scan[..i + 1], now, h)| == |RecentIn(scan[..i], now, h)| + if Falls(scan[i], now, h) then 1 else 0
  {
    assert scan[..i + 1][..i] == scan[..i];
    RecentInMembers(scan[..i], now, h, scan[i].id);
  }

  /** The query scans each ticket in scope once, in no particular order. */
  ghost predicate Scans(scan: seq<Ticket>, tickets: map<Id, Ticket>, held: set<Id>) {
    && (forall j, k | 0 <= j < k < |scan| :: scan[j].id != scan[k].id)
    && (forall j | 0 <= j < |scan| :: scan[j].id in held && scan[j].id in tickets && tickets[scan[j].id] == scan[j])
    && (forall t <- held :: t in tickets && tickets[t].id == t && tickets[t] in scan)
  }

  lemma ScanIsTheScope(scan: seq<Ticket>, tickets: map<Id, Ticket>, held: set<Id>, now: Time, h: Option<Time>)
    requires Scans(scan, tickets, held)
    ensures RecentIn(scan, now, h) == Recent(tickets, held, now, h)
  {
    forall t: Id ensures t in RecentIn(scan, now, h) <==> t in Recent(tickets, held, now, h) {
      RecentInMembers(scan, now, h, t);
      if t in Recent(tickets, held, now, h) {
        var i :| 0 <= i < |scan| && scan[i] == tickets[t];
      }
    }
  }

  /** The buckets count the scanned tickets of the last seven days by hour. */
  ghost predicate Tallies(b: seq<Bucket>, scan: seq<Ticket>, now: Time) {
    && Grouped(b) && Total(b) == |RecentIn(scan, now, None)|
    && forall h :: CountAt(b, h) == |RecentIn(scan, now, Some(h))|
  }

  /** The buckets after one more row of the scan. */
  function Tallied(b: seq<Bucket>, t: Ticket, now: Time): seq<Bucket> {
    if t.createdAt >= now - WEEK then AddTo(b, HourOf(t.createdAt)) else b
  }

  lemma TallyOneMore(b: seq<Bucket>, scan: seq<Ticket>, i: nat, now: Time)
    requires i < |scan| && (forall j, k | 0 <= j < k < |scan| :: scan[j].id != scan[k].id) && Tallies(b, scan[..i], now)
    ensures Tallies(Tallied(b, scan[i], now), scan[..i + 1], now)
  {
    var hour := HourOf(scan[i].createdAt);
    var after := Tallied(b, scan[i], now);
    AddToGroups(b, hour);
    RecentGrows(scan, i, now, None);
    forall h: Time ensures CountAt(after, h) == |RecentIn(scan[..i + 1], now, Some(h))| {
      RecentGrows(scan, i, now, Some(h));
      assert CountAt(b, h) == |RecentIn(scan[..i], now, Some(h))|;
    }
  }

  lemma TalliesTheScope(b: seq<Bucket>, scan: seq<Ticket>, tickets: map<Id, Ticket>, held: set<Id>, now: Time)
    requires Scans(scan, tickets, held) && Tallies(b, scan, now)
    ensures forall h :: CountAt(b, h) == |InHour(tickets, held, now, h)|
    ensures forall t <- held :: t in tickets
    ensures Total(b) == |set t | t in held && tickets[t].createdAt >= now - 604_800_000_000_000|
  {
    ScanIsTheScope(scan, tickets, held, now, None);
    assert WEEK == 604_800_000_000_000;
    assert Recent(tickets, held, now, None)
        == set t | t in held && tickets[t].createdAt >= now - 604_800_000_000_000;
    forall h: Time ensures CountAt(b, h) == |InHour(tickets, held, now, h)| {
      ScanIsTheScope(scan, tickets, held, now, Some(h));
      RecentIsInHour(tickets, held, now, h);
    }
  }

  /** Hours strictly increase, each count is that hour's held tickets, and the counts sum to the last seven days. */
  method RegistrationTimeline(scan: seq<Ticket>, ghost tickets: map<Id, Ticket>, ghost held: set<Id>, now: Time)
    returns (out: seq<Bucket>)
    requires Scans(scan, tickets, held)
    ensures Grouped(out)
    ensures forall h :: CountAt(out, h) == |InHour(tickets, held, now, h)|
    ensures Total(out) == |set t | t in held && tickets[t].createdAt >= now - 604_800_000_000_000|
  {
    out := [];
    for i := 0 to |scan|
      invariant Tallies(out, scan[..i], now)
    {
      TallyOneMore(out, scan, i, now);
      if scan[i].createdAt >= now - WEEK {
        out := AddTo(out, HourOf(scan[i].createdAt));
      }
    }
    assert scan[..|scan|] == scan;
    TalliesTheScope(out, scan, tickets, held, now);
  }
}
