/**
 * The two queries that the event repository assembles at run time: positional SET
 * fragments for Update, positional WHERE fragments for List. A placeholder $n stands
 * for the n-th argument.
 */
module EventQueries {
  import opened Common
  import Seats

  datatype Row = Row(title: string, description: string, cover: string, location: string, seat: Seats.Event)

  datatype Value = Text(s: string) | Instant(t: Time) | Number(n: int) | Uuid(id: Id) | State(st: Seats.EventStatus)

  datatype Column = Title | Description | Cover | Location | StartsAt | EndAt | Total | Status

  // ----- Update -----

  datatype Patch = Patch(
    title: Option<string>, description: Option<string>, cover: Option<string>, startsAt: Option<Time>,
    location: Option<string>, endAt: Option<Time>, total: Option<int>, status: Option<Seats.EventStatus>)

  /** "column = $pos", or "capacity_available = GREATEST(0, $pos - (held tickets))". */
  datatype Fragment = Assign(column: Column, pos: nat) | Recount(pos: nat)

  function Argument(args: seq<Value>, pos: nat): Option<Value> {
    if 1 <= pos <= |args| then Some(args[pos - 1]) else None
  }

  /** The effect of one assignment; a missing or ill-typed argument is an error, shown as None. */
  function Apply(f: Fragment, args: seq<Value>, row: Row, held: nat): Option<Row> {
    match (f, Argument(args, f.pos))
    case (Assign(Title, _), Some(Text(s))) => Some(row.(title := s))
    case (Assign(Description, _), Some(Text(s))) => Some(row.(description := s))
    case (Assign(Cover, _), Some(Text(s))) => Some(row.(cover := s))
    case (Assign(Location, _), Some(Text(s))) => Some(row.(location := s))
    case (Assign(StartsAt, _), Some(Instant(t))) => Some(row.(seat := row.seat.(startsAt := t)))
    case (Assign(EndAt, _), Some(Instant(t))) => Some(row.(seat := row.seat.(endAt := Some(t))))
    case (Assign(Total, _), Some(Number(n))) => Some(row.(seat := row.seat.(total := n)))
    case (Assign(Status, _), Some(State(s))) => Some(row.(seat := row.seat.(status := s)))
    case (Recount(_), Some(Number(n))) =>
      Some(row.(seat := row.seat.(available := if n - held > 0 then n - held else 0)))
    case _ => None
  }

  /** The SET list, applied left to right; no column is assigned twice and no right side reads one. */
  function Interpret(set_: seq<Fragment>, args: seq<Value>, row: Row, held: nat): Option<Row> {
    if set_ == [] then Some(row) else
    match Interpret(set_[..|set_| - 1], args, row, held)
    case None => None
    case Some(r) => Apply(set_[|set_| - 1], args, r, held)
  }

  /** Every placeholder so far refers to an argument already there, so later arguments change nothing. */
  lemma {:induction false} LaterArgumentsChangeNothing(set_: seq<Fragment>, args: seq<Value>, v: Value, row: Row,
        held: nat)
    requires forall i | 0 <= i < |set_| :: 1 <= set_[i].pos <= |args|
    ensures Interpret(set_, args + [v], row, held) == Interpret(set_, args, row, held)
  {
    if set_ == [] {
    } else {
      LaterArgumentsChangeNothing(set_[..|set_| - 1], args, v, row, held);
    }
  }

  /** The positions of the assignments, in order: each new argument's placeholder. */
  function Positions(set_: seq<Fragment>): seq<nat> {
    if set_ == [] then [] else
    var f := set_[|set_| - 1];
    Positions(set_[..|set_| - 1]) + if f.Assign? then [f.pos] else []
  }

  /** 1, 2, ..., n. */
  function UpTo(n: nat): seq<nat> {
    seq(n, i => i + 1)
  }

  function Override<T>(old_: T, new_: Option<T>): T {
    if new_.Some? then new_.value else old_
  }

  /** The patch applied field by field, with the counter recounted when the capacity changes. */
  function Overridden(row: Row, p: Patch, held: nat): Row {
    var total := Override(row.seat.total, p.total);
    Row(Override(row.title, p.title), Override(row.description, p.description), Override(row.cover, p.cover),
        Override(row.location, p.location),
        Seats.Event(
          Override(row.seat.startsAt, p.startsAt),
          if p.endAt.Some? then p.endAt else row.seat.endAt,
          total,
          if p.total.None? then row.seat.available else if total - held > 0 then total - held else 0,
          Override(row.seat.status, p.status), row.seat.moderation, row.seat.organizer))
  }

  // ----- building it, field by field -----

  /** The first `n` fields of a patch, in the order the builder visits them. */
  function Only(p: Patch, n: nat): Patch {
    Patch(if n >= 1 then p.title else None, if n >= 2 then p.description else None, if n >= 3 then p.cover else None,
          if n >= 4 then p.startsAt else None, if n >= 5 then p.location else None, if n >= 6 then p.endAt else None,
          if n >= 7 then p.total else None, if n >= 8 then p.status else None)
  }

  /** The query so far numbers its placeholders 1..n and applies the first fields of the patch. */
  ghost predicate Builds(set_: seq<Fragment>, args: seq<Value>, argPos: nat, p: Patch) {
    && argPos == |args| + 1
    && Positions(set_) == UpTo(|args|)
    && (forall i | 0 <= i < |set_| :: 1 <= set_[i].pos <= |args|)
    && (forall row, held :: Interpret(set_, args, row, held) == Some(Overridden(row, p, held)))
  }

  /** One more "column = $argPos" with its argument. */
  lemma OneMoreAssignment(set_: seq<Fragment>, args: seq<Value>, argPos: nat, p: Patch, column: Column, v: Value,
        q: Patch)
    requires Builds(set_, args, argPos, p)
    requires forall row, held ::
               Apply(Assign(column, argPos), args + [v], Overridden(row, p, held), held)
                   == Some(Overridden(row, q, held))
    ensures Builds(set_ + [Assign(column, argPos)], args + [v], argPos + 1, q)
  {
    var s := set_ + [Assign(column, argPos)];
    assert s[..|s| - 1] == set_;
    assert UpTo(|args| + 1) == UpTo(|args|) + [argPos];
    forall row, held: nat ensures Interpret(s, args + [v], row, held) == Some(Overridden(row, q, held)) {
      LaterArgumentsChangeNothing(set_, args, v, row, held);
    }
  }

  /** Field `n` of the patch is set, and is written as this column and argument. */
  predicate IsField(p: Patch, n: nat, column: Column, v: Value) {
    match column
    case Title => n == 0 && p.title.Some? && v == Text(p.title.value)
    case Description => n == 1 && p.description.Some? && v == Text(p.description.value)
    case Cover => n == 2 && p.cover.Some? && v == Text(p.cover.value)
    case StartsAt => n == 3 && p.startsAt.Some? && v == Instant(p.startsAt.value)
    case Location => n == 4 && p.location.Some? && v == Text(p.location.value)
    case EndAt => n == 5 && p.endAt.Some? && v == Instant(p.endAt.value)
    case Total => false
    case Status => n == 7 && p.status.Some? && v == State(p.status.value)
  }

  lemma AppliesField(p: Patch, n: nat, column: Column, v: Value, args: seq<Value>, row: Row, held: nat)
    requires IsField(p, n, column, v)
    ensures Apply(Assign(column, |args| + 1), args + [v], Overridden(row, Only(p, n), held), held)
            == Some(Overridden(row, Only(p, n + 1), held))
  {
    assert Argument(args + [v], |args| + 1) == Some(v);
  }

  /** One more field of the patch that is set. */
  lemma NextField(set_: seq<Fragment>, args: seq<Value>, argPos: nat, p: Patch, n: nat, column: Column, v: Value)
    requires Builds(set_, args, argPos, Only(p, n)) && IsField(p, n, column, v)
    ensures Builds(set_ + [Assign(column, argPos)], args + [v], argPos + 1, Only(p, n + 1))
  {
    forall row, held: nat
      ensures Apply(Assign(column, argPos), args + [v], Overridden(row, Only(p, n), held), held)
              == Some(Overridden(row, Only(p, n + 1), held))
    {
      AppliesField(p, n, column, v, args, row, held);
    }
    OneMoreAssignment(set_, args, argPos, Only(p, n), column, v, Only(p, n + 1));
  }

  /** "capacity_total = $n, capacity_available = GREATEST(0, $n - held)": one argument, two fragments. */
  lemma OneMoreCapacity(set_: seq<Fragment>, args: seq<Value>, argPos: nat, p: Patch, total: int)
    requires Builds(set_, args, argPos, p) && p.total.None? && p.status.None?
    ensures Builds(set_ + [Assign(Total, argPos)] + [Recount(argPos)], args + [Number(total)], argPos + 1,
            p.(total := Some(total)))
  {
    var s1 := set_ + [Assign(Total, argPos)];
    var s2 := s1 + [Recount(argPos)];
    var args' := args + [Number(total)];
    assert s1[..|s1| - 1] == set_ && s2[..|s2| - 1] == s1;
    assert UpTo(|args| + 1) == UpTo(|args|) + [argPos];
    forall row, held: nat
      ensures Interpret(s2, args', row, held) == Some(Overridden(row, p.(total := Some(total)), held))
    {
      LaterArgumentsChangeNothing(set_, args, Number(total), row, held);
      var r := Overridden(row, p, held);
      assert Interpret(s1, args', row, held) == Some(r.(seat := r.seat.(total := total)));
    }
  }

  lemma EmptyQueryBuilds(p: Patch)
    ensures Builds([], [], 1, Only(p, 0))
  {
    assert UpTo(0) == [];
  }

  /** Field `n` of the patch is not set. */
  predicate Skipped(p: Patch, n: nat) {
    match n
    case 0 => p.title.None?
    case 1 => p.description.None?
    case 2 => p.cover.None?
    case 3 => p.startsAt.None?
    case 4 => p.location.None?
    case 5 => p.endAt.None?
    case 6 => p.total.None?
    case _ => p.status.None?
  }

  lemma SkippedFieldBuilds(set_: seq<Fragment>, args: seq<Value>, argPos: nat, p: Patch, n: nat)
    requires Builds(set_, args, argPos, Only(p, n)) && n < 8 && Skipped(p, n)
    ensures Builds(set_, args, argPos, Only(p, n + 1)) && Only(p, n + 1) == Only(p, n)
  {
    assert Only(p, n + 1) == Only(p, n);
  }

  lemma CapacityBuilds(set_: seq<Fragment>, args: seq<Value>, argPos: nat, p: Patch)
    requires Builds(set_, args, argPos, Only(p, 6)) && p.total.Some?
    ensures Builds(set_ + [Assign(Total, argPos)] + [Recount(argPos)], args + [Number(p.total.value)], argPos + 1,
            Only(p, 7))
  {
    OneMoreCapacity(set_, args, argPos, Only(p, 6), p.total.value);
    assert Only(p, 6).(total := Some(p.total.value)) == Only(p, 7);
  }

  /** `column = $argPos`, if there is a new value for it. */
  method SetColumn(set_: seq<Fragment>, args: seq<Value>, argPos: nat, column: Column, v: Option<Value>,
        ghost p: Patch, ghost n: nat)
    returns (set1: seq<Fragment>, args1: seq<Value>, argPos1: nat)
    requires Builds(set_, args, argPos, Only(p, n)) && n < 8
    requires if v.Some? then IsField(p, n, column, v.value) else Skipped(p, n)
    ensures Builds(set1, args1, argPos1, Only(p, n + 1))
    ensures set1 == [] ==> set_ == [] && Only(p, n + 1) == Only(p, n)
  {
    if v.Some? {
      NextField(set_, args, argPos, p, n, column, v.value);
      return set_ + [Assign(column, argPos)], args + [v.value], argPos + 1;
    }
    SkippedFieldBuilds(set_, args, argPos, p, n);
    return set_, args, argPos;
  }

  /** `capacity_total = $argPos, capacity_available = GREATEST(0, $argPos - held)`, if the capacity changes. */
  method SetCapacity(set_: seq<Fragment>, args: seq<Value>, argPos: nat, p: Patch)
    returns (set1: seq<Fragment>, args1: seq<Value>, argPos1: nat)
    requires Builds(set_, args, argPos, Only(p, 6))
    ensures Builds(set1, args1, argPos1, Only(p, 7))
    ensures set1 == [] ==> set_ == [] && Only(p, 7) == Only(p, 6)
  {
    if p.total.Some? {
      CapacityBuilds(set_, args, argPos, p);
      var patchVal := p.total.value;
      var patchValPos := argPos;
      set1 := set_ + [Assign(Total, patchValPos)];
      args1 := args + [Number(patchVal)];
      argPos1 := argPos + 1;
      set1 := set1 + [Recount(patchValPos)];
      return;
    }
    SkippedFieldBuilds(set_, args, argPos, p, 6);
    return set_, args, argPos;
  }

  function Texts(o: Option<string>): Option<Value> {
    if o.Some? then Some(Text(o.value)) else None
  }

  function Instants(o: Option<Time>): Option<Value> {
    if o.Some? then Some(Instant(o.value)) else None
  }

  /** Title, description and cover image, then start. */
  method BuildFirstHalf(p: Patch) returns (set_: seq<Fragment>, args: seq<Value>, argPos: nat)
    ensures Builds(set_, args, argPos, Only(p, 4))
    ensures set_ == [] ==> Only(p, 4) == Only(p, 0)
  {
    set_, args, argPos := [], [], 1;
    EmptyQueryBuilds(p);
    set_, args, argPos := SetColumn(set_, args, argPos, Title, Texts(p.title), p, 0);
    set_, args, argPos := SetColumn(set_, args, argPos, Description, Texts(p.description), p, 1);
    set_, args, argPos := SetColumn(set_, args, argPos, Cover, Texts(p.cover), p, 2);
    set_, args, argPos := SetColumn(set_, args, argPos, StartsAt, Instants(p.startsAt), p, 3);
  }

  /** Grow the SET list, the arguments and the position counter field by field. */
  method BuildUpdate(p: Patch) returns (set_: seq<Fragment>, args: seq<Value>, argPos: nat)
    ensures Builds(set_, args, argPos, p)
    ensures set_ == [] ==> p == Patch(None, None, None, None, None, None, None, None)
  {
    set_, args, argPos := BuildFirstHalf(p);
    set_, args, argPos := SetColumn(set_, args, argPos, Location, Texts(p.location), p, 4);
    set_, args, argPos := SetColumn(set_, args, argPos, EndAt, Instants(p.endAt), p, 5);
    set_, args, argPos := SetCapacity(set_, args, argPos, p);
    var status := if p.status.Some? then Some(State(p.status.value)) else None;
    set_, args, argPos := SetColumn(set_, args, argPos, Status, status, p, 7);
    assert Only(p, 8) == p;
  }

  /** On the seat columns, the built query is the update transaction of the seat model. */
  lemma OverriddenIsThePatchedSeat(tickets: map<Id, Seats.Ticket>, e: Id, row: Row, p: Patch)
    ensures Overridden(row, p, Seats.Held(tickets, e)).seat
            == Seats.Patched(tickets, e, row.seat, Seats.EventPatch(p.startsAt, p.endAt, p.total, p.status))
  {
  }

  datatype UpdateError = NotFound | CheckViolation

  /** UPDATE events SET ... WHERE id = $argPos RETURNING ...: the row written, or why nothing was. */
  function Execute(rows: map<Id, Row>, set_: seq<Fragment>, args: seq<Value>, argPos: nat, held: nat)
    : Result<(Id, Row), UpdateError>
  {
    match Argument(args, argPos)
    case Some(Uuid(id)) =>
      if id !in rows then Err(NotFound) else (
        match Interpret(set_, args, rows[id], held)
        case Some(row) => if row.seat.total < 1 then Err(CheckViolation) else Ok((id, row))
        case None => Err(CheckViolation))
    case _ => Err(CheckViolation)
  }

  /** The part of a patch that touches the seat columns. */
  function SeatPatch(p: Patch): Seats.EventPatch {
    Seats.EventPatch(p.startsAt, p.endAt, p.total, p.status)
  }

  function SeatColumns(rows: map<Id, Row>): map<Id, Seats.Event> {
    map e | e in rows :: rows[e].seat
  }

  lemma OverrideIsUpdateTx(rows: map<Id, Row>, tickets: map<Id, Seats.Ticket>, id: Id, p: Patch)
    ensures var before := Seats.DB(SeatColumns(rows), tickets);
            Seats.UpdateTx(before, id, SeatPatch(p))
            == if id !in rows || (p.total.Some? && p.total.value < 1) then before
               else Seats.DB(SeatColumns(rows[id := Overridden(rows[id], p, Seats.Held(tickets, id))]), tickets)
  {
    if id in rows {
      var row := Overridden(rows[id], p, Seats.Held(tickets, id));
      OverriddenIsThePatchedSeat(tickets, id, rows[id], p);
      assert SeatColumns(rows[id := row]) == SeatColumns(rows)[id := row.seat];
    }
  }

  class Table {
    var rows: map<Id, Row>
    var tickets: map<Id, Seats.Ticket>

    ghost predicate Valid()
      reads this
    {
      forall e <- rows :: rows[e].seat.total >= 1
    }

    /** The seat tables within this one. */
    ghost function SeatTables(): Seats.DB
      reads this
    {
      Seats.DB(SeatColumns(rows), tickets)
    }

    constructor ()
      ensures Valid() && rows == map[] && tickets == map[]
    {
      rows, tickets := map[], map[];
    }

    /**
     * The patched row, with the held tickets counted by the query; refused for a missing event or
     * a capacity below one. On the seat columns this is the update transaction of the seat model.
     */
    method Update(id: Id, p: Patch) returns (updated: Result<Row, UpdateError>)
      requires Valid()
      modifies this`rows
      ensures Valid()
      ensures updated == if id !in old(rows) then Err(NotFound)
                         else if p.total.Some? && p.total.value < 1 then Err(CheckViolation)
                         else Ok(Overridden(old(rows)[id], p, Seats.Held(tickets, id)))
      ensures updated.Ok? ==>
                var was, now := old(rows)[id], updated.value;
                var taken := |Seats.SeatsTaken(old(SeatTables()), id)|;
                && now.title == (if p.title.Some? then p.title.value else was.title)
                && now.description == (if p.description.Some? then p.description.value else was.description)
                && now.cover == (if p.cover.Some? then p.cover.value else was.cover)
                && now.location == (if p.location.Some? then p.location.value else was.location)
                && now.seat.startsAt == (if p.startsAt.Some? then p.startsAt.value else was.seat.startsAt)
                && now.seat.endAt == (if p.endAt.Some? then p.endAt else was.seat.endAt)
                && now.seat.status == (if p.status.Some? then p.status.value else was.seat.status)
                && now.seat.total == (if p.total.Some? then p.total.value else was.seat.total)
                && now.seat.available == (if p.total.None? then was.seat.available
                                          else if p.total.value > taken then p.total.value - taken else 0)
                && now.seat.moderation == was.seat.moderation && now.seat.organizer == was.seat.organizer
      ensures rows == if updated.Ok? then old(rows)[id := updated.value] else old(rows)
      ensures SeatTables() == Seats.UpdateTx(old(SeatTables()), id, SeatPatch(p))
    {
      OverrideIsUpdateTx(rows, tickets, id, p);
      assert Seats.HeldBy(tickets, id) == Seats.SeatsTaken(SeatTables(), id);
      var set_, args, argPos := BuildUpdate(p);
      if |set_| == 0 {
        assert id in rows ==> rows[id := rows[id]] == rows;
        return if id in rows then Ok(rows[id]) else Err(NotFound);
      }
      var held := Seats.Held(tickets, id);
      if id in rows { LaterArgumentsChangeNothing(set_, args, Uuid(id), rows[id], held); }
      args := args + [Uuid(id)];
      var written := Execute(rows, set_, args, argPos, held);
      if written.Err? { return Err(written.error); }
      rows := rows[written.value.0 := written.value.1];
      return Ok(written.value.1);
    }
  }

  // ----- List -----

  datatype Filter = Filter(
    query: string, startsAfter: Option<Time>, organizer: Option<Id>, moderation: Option<string>,
    startsBefore: Option<Time>, requireApproved: bool, limit: int, offset: int)

  datatype Condition =
    | Always | ApprovedOnly | OrganizerIs(pos: nat) | ModerationIs(pos: nat)
    | TitleLike(pos: nat) | StartsFrom(pos: nat) | StartsUntil(pos: nat)

  function Placeholder(c: Condition): Option<nat> {
    if c.Always? || c.ApprovedOnly? then None else Some(c.pos)
  }

  /** Unicode White_Space, as strings.TrimSpace reads it. */
  predicate IsSpace(c: char) {
    var n := c as int;
    || 0x09 <= n <= 0x0D || n == 0x20 || n == 0x85 || n == 0xA0 || n == 0x1680 || 0x2000 <= n <= 0x200A
    || n == 0x2028 || n == 0x2029 || n == 0x202F || n == 0x205F || n == 0x3000
  }

  function TrimLeft(s: string): string {
    if s != "" && IsSpace(s[0]) then TrimLeft(s[1..]) else s
  }

  function TrimRight(s: string): string {
    if s != "" && IsSpace(s[|s| - 1]) then TrimRight(s[..|s| - 1]) else s
  }

  function TrimSpace(s: string): string {
    TrimRight(TrimLeft(s))
  }

  lemma {:induction false} TrimmedLeft(s: string) returns (a: string)
    ensures s == a + TrimLeft(s) && forall c <- a :: IsSpace(c)
    ensures TrimLeft(s) != "" ==> !IsSpace(TrimLeft(s)[0])
  {
    if s != "" && IsSpace(s[0]) {
      var rest := TrimmedLeft(s[1..]);
      a := [s[0]] + rest;
    } else {
      a := "";
    }
  }

  lemma {:induction false} TrimmedRight(s: string) returns (b: string)
    ensures s == TrimRight(s) + b && forall c <- b :: IsSpace(c)
    ensures TrimRight(s) != "" ==> TrimRight(s)[0] == s[0] && !IsSpace(TrimRight(s)[|TrimRight(s)| - 1])
  {
    if s != "" && IsSpace(s[|s| - 1]) {
      var rest := TrimmedRight(s[..|s| - 1]);
      b := rest + [s[|s| - 1]];
    } else {
      b := "";
    }
  }

  /** Trimming removes white space at both ends and nothing else. */
  lemma TrimSpaceTrims(s: string) returns (a: string, b: string)
    ensures s == a + TrimSpace(s) + b && (forall c <- a + b :: IsSpace(c))
    ensures var t := TrimSpace(s); t != "" ==> !IsSpace(t[0]) && !IsSpace(t[|t| - 1])
  {
    a := TrimmedLeft(s);
    b := TrimmedRight(TrimLeft(s));
  }

  function ModerationText(m: Seats.Moderation): string {
    match m case Pending => "pending" case Approved => "approved" case Rejected => "rejected"
  }

  /** One WHERE condition; `ilike` is the database's case-insensitive match. */
  function Evaluate(c: Condition, args: seq<Value>, row: Row, ilike: (string, string) -> bool): bool {
    match c
    case Always => true
    case ApprovedOnly => row.seat.moderation == Seats.Approved
    case OrganizerIs(pos) =>
      (match Argument(args, pos) case Some(Uuid(id)) => row.seat.organizer == Some(id) case _ => false)
    case ModerationIs(pos) =>
      (match Argument(args, pos) case Some(Text(s)) => ModerationText(row.seat.moderation) == s case _ => false)
    case TitleLike(pos) => (match Argument(args, pos) case Some(Text(s)) => ilike(row.title, s) case _ => false)
    case StartsFrom(pos) => (match Argument(args, pos) case Some(Instant(t)) => row.seat.startsAt >= t case _ => false)
    case StartsUntil(pos) => (match Argument(args, pos) case Some(Instant(t)) => row.seat.startsAt <= t case _ => false)
  }

  function AllOf(where_: seq<Condition>, args: seq<Value>, row: Row, ilike: (string, string) -> bool): bool {
    where_ == [] || (AllOf(where_[..|where_| - 1], args, row, ilike)
        && Evaluate(where_[|where_| - 1], args, row, ilike))
  }

  /** The filter itself, with no query in between. */
  predicate Matches(f: Filter, row: Row, ilike: (string, string) -> bool) {
    && (f.requireApproved ==> row.seat.moderation == Seats.Approved)
    && (f.organizer.Some? ==> row.seat.organizer == f.organizer)
    && (f.moderation.Some? && TrimSpace(f.moderation.value) != "" ==>
        ModerationText(row.seat.moderation) == TrimSpace(f.moderation.value))
    && (TrimSpace(f.query) != "" ==> ilike(row.title, "%" + TrimSpace(f.query) + "%"))
    && (f.startsAfter.Some? ==> row.seat.startsAt >= f.startsAfter.value)
    && (f.startsBefore.Some? ==> row.seat.startsAt <= f.startsBefore.value)
  }

  function Places(where_: seq<Condition>): seq<nat> {
    if where_ == [] then [] else
    var last := Placeholder(where_[|where_| - 1]);
    Places(where_[..|where_| - 1]) + if last.Some? then [last.value] else []
  }

  /** The conditions so far number their placeholders 1..n and mean the filter `f`. */
  ghost predicate Selects(where_: seq<Condition>, args: seq<Value>, argPos: nat, f: Filter) {
    && argPos == |args| + 1
    && Places(where_) == UpTo(|args|)
    && (forall i | 0 <= i < |where_| && Placeholder(where_[i]).Some? :: 1 <= Placeholder(where_[i]).value <= |args|)
    && (forall row, ilike :: AllOf(where_, args, row, ilike) <==> Matches(f, row, ilike))
  }

  lemma {:induction false} LaterArgumentsSelectTheSame(where_: seq<Condition>, args: seq<Value>, v: Value, row: Row,
        ilike: (string, string) -> bool)
    requires forall i | 0 <= i < |where_| && Placeholder(where_[i]).Some? :: 1 <= Placeholder(where_[i]).value <= |args|
    ensures AllOf(where_, args + [v], row, ilike) <==> AllOf(where_, args, row, ilike)
  {
    if where_ == [] {
    } else {
      LaterArgumentsSelectTheSame(where_[..|where_| - 1], args, v, row, ilike);
      assert Placeholder(where_[|where_| - 1]).Some? ==> 1 <= Placeholder(where_[|where_| - 1]).value <= |args|;
    }
  }

  /** One more condition with its own argument. */
  lemma OneMoreCondition(where_: seq<Condition>, args: seq<Value>, argPos: nat, f: Filter, c: Condition, v: Value,
        g: Filter)
    requires Selects(where_, args, argPos, f) && Placeholder(c) == Some(argPos)
    requires forall row, ilike ::
               Matches(g, row, ilike) <==> Matches(f, row, ilike) && Evaluate(c, args + [v], row, ilike)
    ensures Selects(where_ + [c], args + [v], argPos + 1, g)
  {
    var w := where_ + [c];
    assert w[..|w| - 1] == where_;
    assert UpTo(|args| + 1) == UpTo(|args|) + [argPos];
    forall row, ilike ensures AllOf(w, args + [v], row, ilike) <==> Matches(g, row, ilike) {
      LaterArgumentsSelectTheSame(where_, args, v, row, ilike);
    }
  }

  /** The first `n` conditions of a filter, in the order the builder visits them. */
  function Part(f: Filter, n: nat): Filter {
    f.(requireApproved := f.requireApproved && n >= 1,
       organizer := if n >= 2 then f.organizer else None,
       moderation := if n >= 3 then f.moderation else None,
       query := if n >= 4 then f.query else "",
       startsAfter := if n >= 5 then f.startsAfter else None,
       startsBefore := if n >= 6 then f.startsBefore else None)
  }

  /** One more condition without an argument. */
  lemma OneMorePlainCondition(where_: seq<Condition>, args: seq<Value>, argPos: nat, f: Filter, c: Condition, g: Filter)
    requires Selects(where_, args, argPos, f) && Placeholder(c).None?
    requires forall row, ilike :: Matches(g, row, ilike) <==> Matches(f, row, ilike) && Evaluate(c, args, row, ilike)
    ensures Selects(where_ + [c], args, argPos, g)
  {
    var w := where_ + [c];
    assert w[..|w| - 1] == where_;
    assert Places(w) == Places(where_);
    forall row, ilike ensures AllOf(w, args, row, ilike) <==> Matches(g, row, ilike) {
    }
  }

  lemma AlwaysSelects(f: Filter)
    ensures Selects([Always], [], 1, Part(f, 0))
  {
    assert [Always][..0] == [] && UpTo(0) == [];
    assert Places([Always]) == [];
  }

  lemma StartSelects(f: Filter)
    ensures Selects(if f.requireApproved then [Always] + [ApprovedOnly] else [Always], [], 1, Part(f, 1))
  {
    AlwaysSelects(f);
    if f.requireApproved {
      OneMorePlainCondition([Always], [], 1, Part(f, 0), ApprovedOnly, Part(f, 1));
    } else {
      assert Part(f, 1) == Part(f, 0);
    }
  }

  /** Approval, organizer and moderation status. */
  method BuildWho(f: Filter) returns (where_: seq<Condition>, args: seq<Value>, argPos: nat)
    ensures Selects(where_, args, argPos, Part(f, 3))
  {
    where_, args, argPos := [Always], [], 1;
    if f.requireApproved {
      where_ := where_ + [ApprovedOnly];
    }
    StartSelects(f);
    if f.organizer.Some? {
      OneMoreCondition(where_, args, argPos, Part(f, 1), OrganizerIs(argPos), Uuid(f.organizer.value), Part(f, 2));
      where_, args, argPos := where_ + [OrganizerIs(argPos)], args + [Uuid(f.organizer.value)], argPos + 1;
    }
    assert Selects(where_, args, argPos, Part(f, 2));
    if f.moderation.Some? && TrimSpace(f.moderation.value) != "" {
      var m := TrimSpace(f.moderation.value);
      OneMoreCondition(where_, args, argPos, Part(f, 2), ModerationIs(argPos), Text(m), Part(f, 3));
      where_, args, argPos := where_ + [ModerationIs(argPos)], args + [Text(m)], argPos + 1;
    }
    assert Selects(where_, args, argPos, Part(f, 3));
  }

  /** Then the title search. */
  method BuildWhat(f: Filter) returns (where_: seq<Condition>, args: seq<Value>, argPos: nat)
    ensures Selects(where_, args, argPos, Part(f, 4))
  {
    where_, args, argPos := BuildWho(f);
    var query := TrimSpace(f.query);
    if query != "" {
      var pattern := "%" + query + "%";
      OneMoreCondition(where_, args, argPos, Part(f, 3), TitleLike(argPos), Text(pattern), Part(f, 4));
      where_, args, argPos := where_ + [TitleLike(argPos)], args + [Text(pattern)], argPos + 1;
    }
    assert Selects(where_, args, argPos, Part(f, 4));
  }

  /** The WHERE list and its arguments: placeholders 1..n, together meaning exactly the filter. */
  method BuildList(f: Filter) returns (where_: seq<Condition>, args: seq<Value>, argPos: nat)
    ensures Selects(where_, args, argPos, f)
  {
    where_, args, argPos := BuildWhat(f);
    if f.startsAfter.Some? {
      OneMoreCondition(where_, args, argPos, Part(f, 4), StartsFrom(argPos), Instant(f.startsAfter.value), Part(f, 5));
      where_, args, argPos := where_ + [StartsFrom(argPos)], args + [Instant(f.startsAfter.value)], argPos + 1;
    }
    assert Selects(where_, args, argPos, Part(f, 5));
    if f.startsBefore.Some? {
      OneMoreCondition(where_, args, argPos, Part(f, 5), StartsUntil(argPos), Instant(f.startsBefore.value),
          Part(f, 6));
      where_, args, argPos := where_ + [StartsUntil(argPos)], args + [Instant(f.startsBefore.value)], argPos + 1;
    }
    assert Selects(where_, args, argPos, Part(f, 6));
    assert Part(f, 6) == f;
  }

  // ----- running the list query -----

  function Keep(rows: seq<Row>, p: Row -> bool): seq<Row> {
    if rows == [] then [] else (if p(rows[0]) then [rows[0]] else []) + Keep(rows[1..], p)
  }

  lemma {:induction false} KeepSame(rows: seq<Row>, p: Row -> bool, q: Row -> bool)
    requires forall r :: p(r) == q(r)
    ensures Keep(rows, p) == Keep(rows, q)
  {
    if rows == [] {
    } else {
      KeepSame(rows[1..], p, q);
    }
  }

  ghost predicate LatestFirst(rows: seq<Row>) {
    forall i, j | 0 <= i < j < |rows| :: rows[i].seat.startsAt >= rows[j].seat.startsAt
  }

  function InsertByStart(r: Row, rows: seq<Row>): seq<Row> {
    if rows == [] || r.seat.startsAt >= rows[0].seat.startsAt then [r] + rows
    else [rows[0]] + InsertByStart(r, rows[1..])
  }

  /** ORDER BY starts_at DESC; events that start together come in one of their possible orders. */
  function ByStart(rows: seq<Row>): seq<Row> {
    if rows == [] then [] else InsertByStart(rows[0], ByStart(rows[1..]))
  }

  lemma {:induction false} InsertedIsThere(r: Row, rows: seq<Row>, x: Row)
    requires x in InsertByStart(r, rows)
    ensures x == r || x in rows
  {
    if rows == [] || r.seat.startsAt >= rows[0].seat.startsAt {
    } else if x != rows[0] {
      InsertedIsThere(r, rows[1..], x);
    }
  }

  lemma {:induction false} InsertedIsOrdered(r: Row, rows: seq<Row>)
    requires LatestFirst(rows)
    ensures LatestFirst(InsertByStart(r, rows))
  {
    if rows == [] || r.seat.startsAt >= rows[0].seat.startsAt {
    } else {
      var rest := InsertByStart(r, rows[1..]);
      InsertedIsOrdered(r, rows[1..]);
      forall k | 0 <= k < |rest| ensures rest[k].seat.startsAt <= rows[0].seat.startsAt {
        InsertedIsThere(r, rows[1..], rest[k]);
      }
    }
  }

  lemma {:induction false} InsertedOnce(r: Row, rows: seq<Row>)
    ensures multiset(InsertByStart(r, rows)) == multiset(rows) + multiset{r}
  {
    if rows == [] || r.seat.startsAt >= rows[0].seat.startsAt {
    } else {
      InsertedOnce(r, rows[1..]);
      assert rows == [rows[0]] + rows[1..];
    }
  }

  lemma {:induction false} ByStartOrders(rows: seq<Row>)
    ensures LatestFirst(ByStart(rows)) && multiset(ByStart(rows)) == multiset(rows)
  {
    if rows == [] {
    } else {
      ByStartOrders(rows[1..]);
      InsertedIsOrdered(rows[0], ByStart(rows[1..]));
      InsertedOnce(rows[0], ByStart(rows[1..]));
      assert rows == [rows[0]] + rows[1..];
    }
  }

  /** OFFSET, then LIMIT. */
  function Page(rows: seq<Row>, limit: int, offset: int): seq<Row>
    requires limit >= 0 && offset >= 0
  {
    var rest := if offset <= |rows| then rows[offset..] else [];
    if limit <= |rest| then rest[..limit] else rest
  }

  function SelectRows(rows: seq<Row>, where_: seq<Condition>, args: seq<Value>, limitPos: nat, offsetPos: nat,
        ilike: (string, string) -> bool): Option<seq<Row>>
  {
    match (Argument(args, limitPos), Argument(args, offsetPos))
    case (Some(Number(limit)), Some(Number(offset))) =>
      if limit < 0 || offset < 0 then None
      else Some(Page(ByStart(Keep(rows, r => AllOf(where_, args, r, ilike))), limit, offset))
    case _ => None
  }

  lemma {:induction false} KeepCounts(rows: seq<Row>, p: Row -> bool, r: Row)
    ensures multiset(Keep(rows, p))[r] == if p(r) then multiset(rows)[r] else 0
  {
    if rows == [] {
    } else {
      KeepCounts(rows[1..], p, r);
      assert rows == [rows[0]] + rows[1..];
    }
  }

  /** What a filter asks for, condition by condition. */
  predicate Wanted(f: Filter, row: Row, ilike: (string, string) -> bool) {
    var q, m := TrimSpace(f.query), if f.moderation.Some? then TrimSpace(f.moderation.value) else "";
    && (f.requireApproved ==> row.seat.moderation == Seats.Approved)
    && (f.organizer.Some? ==> row.seat.organizer == Some(f.organizer.value))
    && (m != "" ==> m == match row.seat.moderation
                         case Pending => "pending" case Approved => "approved" case Rejected => "rejected")
    && (q != "" ==> ilike(row.title, "%" + q + "%"))
    && (f.startsAfter.Some? ==> f.startsAfter.value <= row.seat.startsAt)
    && (f.startsBefore.Some? ==> row.seat.startsAt <= f.startsBefore.value)
  }

  /** The wanted rows of the table, each as often as it is there, latest start first. */
  ghost predicate Arranges(ordered: seq<Row>, rows: seq<Row>, f: Filter, ilike: (string, string) -> bool) {
    && (forall i, j | 0 <= i < j < |ordered| :: ordered[i].seat.startsAt >= ordered[j].seat.startsAt)
    && (forall r :: multiset(ordered)[r] == if Wanted(f, r, ilike) then multiset(rows)[r] else 0)
  }

  /** At most `limit` rows from position `offset` on. */
  ghost predicate PageOf(page: seq<Row>, ordered: seq<Row>, limit: int, offset: int) {
    && |page| == Least(limit, if offset < |ordered| then |ordered| - offset else 0)
    && forall k | 0 <= k < |page| :: 0 <= offset + k < |ordered| && page[k] == ordered[offset + k]
  }

  function Least(a: int, b: int): int {
    if a <= b then a else b
  }

  lemma WantedIsMatches(f: Filter, row: Row, ilike: (string, string) -> bool)
    ensures Wanted(f, row, ilike) <==> Matches(f, row, ilike)
  {
  }

  function Matching(rows: seq<Row>, f: Filter, ilike: (string, string) -> bool): seq<Row> {
    ByStart(Keep(rows, r => Matches(f, r, ilike)))
  }

  lemma MatchingIsArranged(rows: seq<Row>, f: Filter, ilike: (string, string) -> bool)
    ensures Arranges(Matching(rows, f, ilike), rows, f, ilike)
  {
    var p := r => Matches(f, r, ilike);
    ByStartOrders(Keep(rows, p));
    forall r: Row
      ensures multiset(Matching(rows, f, ilike))[r] == if Wanted(f, r, ilike) then multiset(rows)[r] else 0
    {
      KeepCounts(rows, p, r);
      WantedIsMatches(f, r, ilike);
    }
  }

  lemma PageIsPageOf(ordered: seq<Row>, limit: int, offset: int)
    requires limit >= 0 && offset >= 0
    ensures PageOf(Page(ordered, limit, offset), ordered, limit, offset)
  {
  }

  /** The built query, run with its limit and offset, takes that page of the matching rows. */
  lemma SelectsPage(rows: seq<Row>, where_: seq<Condition>, args: seq<Value>, argPos: nat, f: Filter,
      limit: int, offset: int, ilike: (string, string) -> bool)
    requires Selects(where_, args, argPos, f) && limit >= 0 && offset >= 0
    ensures SelectRows(rows, where_, args + [Number(limit), Number(offset)], argPos, argPos + 1, ilike)
            == Some(Page(Matching(rows, f, ilike), limit, offset))
  {
    var all := args + [Number(limit), Number(offset)];
    PagingArgumentsSelectTheSame(where_, args, Number(limit), Number(offset), f, ilike);
    KeepSame(rows, r => AllOf(where_, all, r, ilike), r => Matches(f, r, ilike));
  }

  /** A page of the wanted events, latest start first, whatever order the table is in. */
  method List(rows: seq<Row>, f: Filter, ilike: (string, string) -> bool) returns (page: Option<seq<Row>>)
    ensures page.Some?
    ensures exists ordered | Arranges(ordered, rows, f, ilike) ::
              PageOf(page.value, ordered, if f.limit <= 0 then 20 else f.limit, if f.offset < 0 then 0 else f.offset)
  {
    var limit, offset := f.limit, f.offset;
    if limit <= 0 { limit := 20; }
    if offset < 0 { offset := 0; }
    var where_, args, argPos := BuildList(f);
    SelectsPage(rows, where_, args, argPos, f, limit, offset, ilike);
    args := args + [Number(limit), Number(offset)];
    page := SelectRows(rows, where_, args, argPos, argPos + 1, ilike);
    MatchingIsArranged(rows, f, ilike);
    PageIsPageOf(Matching(rows, f, ilike), limit, offset);
  }

  /** LIMIT and OFFSET take the next two placeholders without disturbing the others. */
  lemma PagingArgumentsSelectTheSame(where_: seq<Condition>, args: seq<Value>, v: Value, w: Value, f: Filter,
        ilike: (string, string) -> bool)
    requires Selects(where_, args, |args| + 1, f)
    ensures forall row :: AllOf(where_, args + [v, w], row, ilike) <==> Matches(f, row, ilike)
  {
    assert args + [v, w] == args + [v] + [w];
    forall row ensures AllOf(where_, args + [v, w], row, ilike) <==> Matches(f, row, ilike) {
      LaterArgumentsSelectTheSame(where_, args, v, row, ilike);
      LaterArgumentsSelectTheSame(where_, args + [v], w, row, ilike);
    }
  }
}
