/** The read-through cache in front of the statistics. */
module StatsCache {
  import opened Common
  import opened Seats
  import opened Stats

  /** Thirty seconds. */
  const LIFETIME := 30 * SECOND

  datatype Request = Request(caller: Id, isAdmin: bool, event: Option<Id>)

  type Answer = Result<EventStats, StatsError>

  ghost function Repository(db: DB, r: Request, now: Time): Answer {
    match r.event
    case Some(e) => ForEvent(db, r.caller, r.isAdmin, e, now)
    case None => Ok(Aggregate(db, r.caller, r.isAdmin, now))
  }

  /** The active or used tickets a request counts: of its event, or of all events its caller may see. */
  function CountedFor(db: DB, r: Request): set<Id>
    requires Schema(db)
  {
    set t | t in db.tickets && db.tickets[t].status in {Active, Used}
            && (r.event.Some? ==> db.tickets[t].eventId == r.event.value)
            && (r.isAdmin || db.events[db.tickets[t].eventId].organizer == Some(r.caller))
  }

  /** Who is refused what, and what the others are told. */
  lemma RepositoryAnswers(db: DB, r: Request, now: Time)
    requires Schema(db)
    ensures var a := Repository(db, r, now);
            && (a == Err(NotFound) <==> r.event.Some? && r.event.value !in db.events)
            && (a == Err(Forbidden) <==>
                r.event.Some? && r.event.value in db.events && !r.isAdmin
                && db.events[r.event.value].organizer != Some(r.caller))
            && (a.Ok? ==> a.value.event == r.event && a.value.asOf == now && a.value.registered == |CountedFor(db, r)|)
  {
    match r.event
    case None => AggregateCounts(db, r, now);
    case Some(e) => EventCounts(db, r, e, now);
  }

  lemma AggregateCounts(db: DB, r: Request, now: Time)
    requires Schema(db) && r.event.None?
    ensures var a := Aggregate(db, r.caller, r.isAdmin, now);
            a.event == None && a.asOf == now && a.registered == |CountedFor(db, r)|
  {
    AggregateAnswers(db, r.caller, r.isAdmin, now);
    assert CountedFor(db, r) == TakenInScope(db, r.caller, r.isAdmin);
  }

  lemma EventCounts(db: DB, r: Request, e: Id, now: Time)
    requires Schema(db) && r.event == Some(e)
    ensures var a := ForEvent(db, r.caller, r.isAdmin, e, now);
            && (a == Err(NotFound) <==> e !in db.events)
            && (a == Err(Forbidden) <==> e in db.events && !r.isAdmin && db.events[e].organizer != Some(r.caller))
            && (a.Ok? ==> a.value.event == r.event && a.value.asOf == now && a.value.registered == |CountedFor(db, r)|)
  {
    ForEventAnswers(db, r.caller, r.isAdmin, e, now);
    if ForEvent(db, r.caller, r.isAdmin, e, now).Ok? {
      assert SeatsTaken(db, e) == CountedFor(db, r);
    }
  }

  // ----- the text of a UUID -----

  function Pow16(n: nat): nat {
    if n == 0 then 1 else 16 * Pow16(n - 1)
  }

  predicate IsUuid(u: Id) {
    u < Pow16(32)
  }

  function Digit(d: nat): char
    requires d < 16
  {
    "0123456789abcdef"[d]
  }

  /** The `n` low hexadecimal digits of `u`. */
  function Digits(u: nat, n: nat): (s: string)
    ensures |s| == n
  {
    if n == 0 then "" else Digits(u / 16, n - 1) + [Digit(u % 16)]
  }

  lemma DigitInjective(a: nat, b: nat)
    requires a < 16 && b < 16 && Digit(a) == Digit(b)
    ensures a == b
  {
    assert forall i, j | 0 <= i < j < 16 :: "0123456789abcdef"[i] < "0123456789abcdef"[j];
  }

  lemma {:induction false} DigitsInjective(a: nat, b: nat, n: nat)
    requires a < Pow16(n) && b < Pow16(n) && Digits(a, n) == Digits(b, n)
    ensures a == b
  {
    if n == 0 {
    } else {
      assert Digits(a, n)[..n - 1] == Digits(a / 16, n - 1) && Digits(b, n)[..n - 1] == Digits(b / 16, n - 1);
      assert Digits(a, n)[n - 1] == Digit(a % 16) && Digits(b, n)[n - 1] == Digit(b % 16);
      DigitInjective(a % 16, b % 16);
      DigitsInjective(a / 16, b / 16, n - 1);
    }
  }

  /** 8-4-4-4-12 with dashes. */
  function Text(u: Id): (s: string)
    ensures |s| == 36
  {
    var d := Digits(u, 32);
    d[..8] + "-" + d[8..12] + "-" + d[12..16] + "-" + d[16..20] + "-" + d[20..]
  }

  /** The digits can be read back from the text. */
  lemma TextShowsDigits(u: Id)
    ensures Digits(u, 32) == Text(u)[..8] + Text(u)[9..13] + Text(u)[14..18] + Text(u)[19..23] + Text(u)[24..]
  {
    var d, t := Digits(u, 32), Text(u);
    assert t[..8] == d[..8] && t[9..13] == d[8..12] && t[14..18] == d[12..16];
    assert t[19..23] == d[16..20] && t[24..] == d[20..];
  }

  lemma TextInjective(a: Id, b: Id)
    requires IsUuid(a) && IsUuid(b) && Text(a) == Text(b)
    ensures a == b
  {
    TextShowsDigits(a);
    TextShowsDigits(b);
    DigitsInjective(a, b, 32);
  }

  // ----- the cache key -----

  function Key(r: Request): string {
    var scope := if r.isAdmin then "admin" else "organizer";
    if r.event.Some? then
      "analytics:event_stats:event:" + Text(r.event.value) + ":caller:" + Text(r.caller) + ":" + scope
    else if r.isAdmin then "analytics:event_stats:aggregate:admin"
    else "analytics:event_stats:aggregate:organizer:" + Text(r.caller)
  }

  /** All administrators share the platform totals; every other request has its own key. */
  predicate SameView(a: Request, b: Request) {
    a == b || (a.isAdmin && b.isAdmin && a.event.None? && b.event.None?)
  }

  predicate Uuids(r: Request) {
    IsUuid(r.caller) && (r.event.Some? ==> IsUuid(r.event.value))
  }

  lemma EventKeyParts(r: Request)
    requires r.event.Some?
    ensures var k := Key(r);
            && |k| == 109 + (if r.isAdmin then 5 else 9)
            && k[22] == 'e' && k[28..64] == Text(r.event.value) && k[72..108] == Text(r.caller)
  {
  }

  lemma AggregateKeyParts(r: Request)
    requires r.event.None?
    ensures var k := Key(r); k[22] == 'a'
    ensures var k := Key(r); if r.isAdmin then |k| == 37 else |k| == 78 && k[42..] == Text(r.caller)
  {
  }

  /** Two requests share a cache key exactly when they are the same view. */
  lemma KeyIdentifiesView(a: Request, b: Request)
    requires Uuids(a) && Uuids(b)
    ensures Key(a) == Key(b) <==> SameView(a, b)
  {
    if Key(a) == Key(b) {
      if a.event.Some? { EventKeyParts(a); } else { AggregateKeyParts(a); }
      if b.event.Some? { EventKeyParts(b); } else { AggregateKeyParts(b); }
      if a.event.Some? && b.event.Some? { TextInjective(a.event.value, b.event.value); }
      if a.event.Some? || !a.isAdmin { TextInjective(a.caller, b.caller); }
    }
  }

  /** So they have the same answer, permission checks included, on every database at every time. */
  lemma SameKeySameAnswer(a: Request, b: Request, db: DB, now: Time)
    requires Uuids(a) && Uuids(b) && Key(a) == Key(b)
    ensures Repository(db, a, now) == Repository(db, b, now)
  {
    KeyIdentifiesView(a, b);
    if a != b {
      assert Scope(db, a.caller, true) == Scope(db, b.caller, true);
      assert Registered(db, a.caller, true) == Registered(db, b.caller, true);
    }
  }

  // ----- the cache over a run -----

  datatype Entry = Entry(stats: EventStats, storedAt: Time)

  type Cache = map<string, Entry>

  predicate Hit(c: Cache, key: string, now: Time) {
    key in c && now < c[key].storedAt + LIFETIME
  }

  class Service {
    /** False when no cache is configured. */
    const enabled: bool
    var cache: Cache

    constructor (enabled: bool)
      ensures this.enabled == enabled && cache == map[]
    {
      this.enabled := enabled;
      cache := map[];
    }

    /** One request; `answer` is what the repository would answer at this moment. */
    method EventStats(r: Request, answer: Answer, now: Time) returns (reply: Answer)
      modifies this`cache
      ensures (cache, reply) == if enabled then Served(old(cache), r, answer, now) else (old(cache), answer)
    {
      var key := Key(r);
      if enabled {
        if key in cache && now < cache[key].storedAt + LIFETIME { return Ok(cache[key].stats); }
      }
      if answer.Err? { return answer; }
      if enabled { cache := cache[key := Entry(answer.value, now)]; }
      return answer;
    }
  }

  function Served(c: Cache, r: Request, answer: Answer, now: Time): (Cache, Answer) {
    if Hit(c, Key(r), now) then (c, Ok(c[Key(r)].stats))
    else if answer.Ok? then (c[Key(r) := Entry(answer.value, now)], answer)
    else (c, answer)
  }

  /** A request met the database in state `db` at time `now`. */
  datatype Visit = Visit(r: Request, db: DB, now: Time)

  ghost function CacheAfter(visits: seq<Visit>): Cache {
    if visits == [] then map[] else
    var v := visits[|visits| - 1];
    Served(CacheAfter(visits[..|visits| - 1]), v.r, Repository(v.db, v.r, v.now), v.now).0
  }

  ghost function Reply(visits: seq<Visit>, i: nat): Answer
    requires i < |visits|
  {
    Served(CacheAfter(visits[..i]), visits[i].r, Repository(visits[i].db, visits[i].r, visits[i].now), visits[i].now).1
  }

  /** Visit `j` computed this entry. */
  ghost predicate Computed(visits: seq<Visit>, j: nat, key: string, e: Entry) {
    && j < |visits| && Key(visits[j].r) == key && e.storedAt == visits[j].now
    && Repository(visits[j].db, visits[j].r, visits[j].now) == Ok(e.stats)
  }

  lemma {:induction false} EveryEntryWasComputed(visits: seq<Visit>, key: string)
    requires key in CacheAfter(visits)
    ensures exists j: nat :: Computed(visits, j, key, CacheAfter(visits)[key])
    decreases |visits|
  {
    var n := |visits| - 1;
    var front := visits[..n];
    var v := visits[n];
    if key in CacheAfter(front) && CacheAfter(visits)[key] == CacheAfter(front)[key] {
      EveryEntryWasComputed(front, key);
      var j: nat :| Computed(front, j, key, CacheAfter(front)[key]);
      assert Computed(visits, j, key, CacheAfter(visits)[key]);
    } else {
      assert Computed(visits, n, key, CacheAfter(visits)[key]);
    }
  }

  /**
   * Every reply is the repository's answer to that very request at a database state
   * met at most 30 seconds earlier (or, for an error, at this moment).
   */
  lemma RepliesAreRecentAnswers(visits: seq<Visit>, i: nat)
    requires i < |visits| && forall v <- visits :: Uuids(v.r)
    ensures exists j: nat | j <= i ::
              && visits[i].now - visits[j].now < (if j < i then 30_000_000_000 else 1)
              && Reply(visits, i) == Repository(visits[j].db, visits[i].r, visits[j].now)
    ensures Reply(visits, i).Err? ==> Reply(visits, i) == Repository(visits[i].db, visits[i].r, visits[i].now)
  {
    var v, c := visits[i], CacheAfter(visits[..i]);
    if Hit(c, Key(v.r), v.now) {
      EveryEntryWasComputed(visits[..i], Key(v.r));
      var j: nat :| Computed(visits[..i], j, Key(v.r), c[Key(v.r)]);
      assert visits[..i][j] == visits[j] && visits[j] in visits && v in visits;
      SameKeySameAnswer(visits[j].r, v.r, visits[j].db, visits[j].now);
    }
  }

  /** No visit from `i` up to `k` with this key finds the entry expired. */
  ghost predicate Unexpired(visits: seq<Visit>, key: string, storedAt: Time, i: nat, k: nat) {
    forall m | i <= m < k && m < |visits| && Key(visits[m].r) == key :: visits[m].now < storedAt + 30_000_000_000
  }

  lemma VisitServed(visits: seq<Visit>, k: nat)
    requires k < |visits|
    ensures var v := visits[k];
            CacheAfter(visits[..k + 1]) == Served(CacheAfter(visits[..k]), v.r, Repository(v.db, v.r, v.now), v.now).0
  {
    assert visits[..k + 1][..k] == visits[..k];
  }

  /** One visit leaves an entry alone unless it has the same key and finds it expired. */
  lemma EntrySurvives(c: Cache, r: Request, answer: Answer, now: Time, key: string)
    requires key in c && (Key(r) == key ==> now < c[key].storedAt + 30_000_000_000)
    ensures var after := Served(c, r, answer, now).0; key in after && after[key] == c[key]
  {
  }

  lemma {:induction false} EntryStays(visits: seq<Visit>, key: string, e: Entry, i: nat, k: nat)
    requires i <= k <= |visits| && key in CacheAfter(visits[..i]) && CacheAfter(visits[..i])[key] == e
    requires Unexpired(visits, key, e.storedAt, i, k)
    ensures key in CacheAfter(visits[..k]) && CacheAfter(visits[..k])[key] == e
    decreases k
  {
    if k == i {
    } else {
      EntryStays(visits, key, e, i, k - 1);
      VisitServed(visits, k - 1);
      var v := visits[k - 1];
      EntrySurvives(CacheAfter(visits[..k - 1]), v.r, Repository(v.db, v.r, v.now), v.now, key);
    }
  }

  /** The cache holds what was answered last, since the moment it was computed. */
  lemma OkRepliesAreCached(visits: seq<Visit>, i: nat)
    requires i < |visits| && Reply(visits, i).Ok?
    ensures var key, before, after := Key(visits[i].r), CacheAfter(visits[..i]), CacheAfter(visits[..i + 1]);
            && key in after && Ok(after[key].stats) == Reply(visits, i)
            && (after[key].storedAt == visits[i].now || (key in before && after[key] == before[key]))
  {
    assert visits[..i + 1][..i] == visits[..i];
  }

  /** An answer is served again, without asking the repository, until its thirty seconds have passed. */
  lemma RepeatedRequestsAreServed(visits: seq<Visit>, i: nat, k: nat)
    requires i < k < |visits| && Key(visits[i].r) == Key(visits[k].r) && Reply(visits, i).Ok?
    requires var key, after := Key(visits[i].r), CacheAfter(visits[..i + 1]);
             key in after && Unexpired(visits, key, after[key].storedAt, i + 1, k + 1)
    ensures Reply(visits, k) == Reply(visits, i)
  {
    OkRepliesAreCached(visits, i);
    EntryStays(visits, Key(visits[i].r), CacheAfter(visits[..i + 1])[Key(visits[i].r)], i + 1, k);
  }
}
