/**
 * The fixed-window rate limiter: INCR a per-key counter, start its expiry on the
 * first hit, reject once the count passes the limit.
 */
module RateLimiter {
  import opened Common

  datatype Counter = Absent | Live(count: int, expiresAt: Time)

  /** The counter that a request at `now` meets and leaves: INCR, then EXPIRE if the result is 1. */
  function Hit(c: Counter, now: Time, window: int): Counter {
    var current := if c.Absent? || now >= c.expiresAt then 1 else c.count + 1;
    if current == 1 then Live(1, now + window) else Live(current, c.expiresAt)
  }

  class Limiter {
    const limit: int
    const window: int
    var counter: Counter

    constructor (limit: int, window: int)
      ensures this.limit == limit && this.window == window && counter == Absent
    {
      this.limit, this.window := limit, window;
      counter := Absent;
    }

    /** One request. Without the counter store every request passes and nothing is counted. */
    method Handle(now: Time, reachable: bool) returns (admitted: bool)
      modifies this`counter
      ensures reachable ==> counter == Hit(old(counter), now, window) && (admitted <==> counter.count <= limit)
      ensures !reachable ==> admitted && counter == old(counter)
    {
      if !reachable { return true; }
      if counter.Live? && now >= counter.expiresAt {
        counter := Absent;
      }
      var current := 1;
      if counter.Live? { current := counter.count + 1; }
      if current == 1 {
        counter := Live(1, now + window);
      } else {
        counter := Live(current, counter.expiresAt);
      }
      return !(current > limit);
    }

    /** A whole timeline of requests, answered one by one. */
    method Serve(ts: seq<Time>) returns (answers: seq<bool>)
      modifies this`counter
      ensures |answers| == |ts|
      ensures forall i | 0 <= i < |ts| :: answers[i] == (After(old(counter), ts[..i + 1], window).count <= limit)
      ensures counter == After(old(counter), ts, window)
      ensures forall from, to :: Yes(ts, answers, from, to) == Admitted(old(counter), ts, window, limit, from, to)
    {
      ghost var was := counter;
      answers := [];
      for i := 0 to |ts|
        invariant |answers| == i && counter == After(old(counter), ts[..i], window)
        invariant forall k | 0 <= k < i :: answers[k] == (After(old(counter), ts[..k + 1], window).count <= limit)
      {
        assert ts[..i + 1][..i] == ts[..i];
        var a := Handle(ts[i], true);
        answers := answers + [a];
      }
      assert ts[..|ts|] == ts;
      forall from, to ensures Yes(ts, answers, from, to) == Admitted(was, ts, window, limit, from, to) {
        AnswersAreAdmissions(was, ts, answers, window, limit, from, to);
      }
    }
  }

  // ----- timelines -----

  function After(c: Counter, ts: seq<Time>, window: int): (r: Counter)
    ensures ts != [] ==> r.Live?
  {
    if ts == [] then c else Hit(After(c, ts[..|ts| - 1], window), ts[|ts| - 1], window)
  }

  ghost predicate InOrder(ts: seq<Time>) {
    forall i, j | 0 <= i < j < |ts| :: ts[i] <= ts[j]
  }

  /** Requests admitted with a time in [from, to). */
  function Admitted(c: Counter, ts: seq<Time>, window: int, limit: int, from: Time, to: Time): nat
    decreases |ts|
  {
    if ts == [] then 0 else
    var c' := Hit(c, ts[0], window);
    (if from <= ts[0] < to && c'.count <= limit then 1 else 0) + Admitted(c', ts[1..], window, limit, from, to)
  }

  /** Requests with a time in [from, to) that were answered with admission. */
  function Yes(ts: seq<Time>, answers: seq<bool>, from: Time, to: Time): nat
    requires |answers| == |ts|
  {
    if ts == [] then 0 else (if from <= ts[0] < to && answers[0] then 1 else 0) + Yes(ts[1..], answers[1..], from, to)
  }

  /** The counter history can be read from either end. */
  lemma {:induction false} AfterFirst(c: Counter, ts: seq<Time>, window: int)
    requires ts != []
    ensures After(c, ts, window) == After(Hit(c, ts[0], window), ts[1..], window)
    decreases |ts|
  {
    if |ts| == 1 {
    } else {
      var front := ts[..|ts| - 1];
      AfterFirst(c, front, window);
      assert ts[1..][..|ts| - 2] == front[1..];
    }
  }

  /** What the bounds count as admitted are the requests that the limiter lets through. */
  lemma {:induction false} AnswersAreAdmissions(
      c: Counter, ts: seq<Time>, answers: seq<bool>, window: int, limit: int, from: Time, to: Time)
    requires |answers| == |ts|
    requires forall i | 0 <= i < |ts| :: answers[i] == (After(c, ts[..i + 1], window).count <= limit)
    ensures Yes(ts, answers, from, to) == Admitted(c, ts, window, limit, from, to)
    decreases |ts|
  {
    if ts == [] {
    } else {
      var c' := Hit(c, ts[0], window);
      forall i | 0 <= i < |ts| - 1 ensures answers[1..][i] == (After(c', ts[1..][..i + 1], window).count <= limit) {
        AfterFirst(c, ts[..i + 2], window);
        assert ts[..i + 2][1..] == ts[1..][..i + 1];
      }
      AnswersAreAdmissions(c', ts[1..], answers[1..], window, limit, from, to);
      assert ts[..1] == [ts[0]] && After(c, [ts[0]], window) == c' by { AfterFirst(c, [ts[0]], window); }
    }
  }

  /** Requests with a time in [from, to). */
  function Arrived(ts: seq<Time>, from: Time, to: Time): nat {
    if ts == [] then 0 else (if from <= ts[0] < to then 1 else 0) + Arrived(ts[1..], from, to)
  }

  function Least(a: int, b: int): int {
    if a <= b then a else b
  }

  function AtLeastZero(a: int): int {
    if a > 0 then a else 0
  }

  lemma {:induction false} NothingTooLate(c: Counter, ts: seq<Time>, window: int, limit: int, from: Time, to: Time)
    requires forall i | 0 <= i < |ts| :: ts[i] >= to
    ensures Admitted(c, ts, window, limit, from, to) == 0 && Arrived(ts, from, to) == 0
    decreases |ts|
  {
    if ts == [] {
    } else {
      NothingTooLate(Hit(c, ts[0], window), ts[1..], window, limit, from, to);
    }
  }

  /** While a window is live, exactly its next `limit - count` requests are admitted. */
  lemma {:induction false} RestOfWindow(c: Counter, ts: seq<Time>, window: int, limit: int, from: Time, to: Time)
    requires c.Live? && c.count >= 1 && InOrder(ts) && to <= c.expiresAt
    requires forall i | 0 <= i < |ts| :: ts[i] >= from
    ensures Admitted(c, ts, window, limit, from, to) == Least(AtLeastZero(limit - c.count), Arrived(ts, from, to))
    decreases |ts|
  {
    if ts == [] {
    } else {
      if ts[0] >= to {
        NothingTooLate(c, ts, window, limit, from, to);
      } else {
        RestOfWindow(Hit(c, ts[0], window), ts[1..], window, limit, from, to);
      }
    }
  }

  /** A window admits exactly the first `limit` requests that arrive in it. */
  lemma WindowAdmitsFirstLimit(c: Counter, ts: seq<Time>, window: int, limit: int)
    requires window > 0 && ts != [] && InOrder(ts)
    requires c.Absent? || ts[0] >= c.expiresAt
    ensures Admitted(c, ts, window, limit, ts[0], ts[0] + window)
            == Least(AtLeastZero(limit), Arrived(ts, ts[0], ts[0] + window))
  {
    RestOfWindow(Hit(c, ts[0], window), ts[1..], window, limit, ts[0], ts[0] + window);
  }

  /** Requests inside a live window, rejected or not, never move its end. */
  lemma {:induction false} WindowNeverExtended(c: Counter, ts: seq<Time>, window: int)
    requires c.Live? && c.count >= 1 && forall i | 0 <= i < |ts| :: ts[i] < c.expiresAt
    ensures After(c, ts, window) == Live(c.count + |ts|, c.expiresAt)
  {
    if ts == [] {
    } else {
      WindowNeverExtended(c, ts[..|ts| - 1], window);
    }
  }

  function Bound(limit: int): int {
    if limit >= 1 then 2 * limit - 1 else 0
  }

  lemma {:induction false} SpillOver(c: Counter, ts: seq<Time>, window: int, limit: int, from: Time)
    requires window > 0 && c.Live? && c.count >= 1 && InOrder(ts)
    requires forall i | 0 <= i < |ts| :: ts[i] >= from
    ensures Admitted(c, ts, window, limit, from, from + window) <= AtLeastZero(limit - c.count) + AtLeastZero(limit)
    decreases |ts|
  {
    if ts == [] {
    } else {
      var to := from + window;
      if ts[0] >= to {
        NothingTooLate(c, ts, window, limit, from, to);
      } else if ts[0] < c.expiresAt {
        SpillOver(Hit(c, ts[0], window), ts[1..], window, limit, from);
      } else {
        RestOfWindow(Hit(c, ts[0], window), ts[1..], window, limit, from, to);
      }
    }
  }

  /**
   * However the windows fall, any interval as long as one window sees at most
   * 2 * limit - 1 admissions (none if the limit is not positive).
   */
  lemma {:induction false} AnyIntervalIsBounded(c: Counter, ts: seq<Time>, window: int, limit: int, from: Time)
    requires window > 0 && InOrder(ts) && (c.Live? ==> c.count >= 1)
    ensures Admitted(c, ts, window, limit, from, from + window) <= Bound(limit)
    decreases |ts|
  {
    if ts == [] {
    } else {
      var c' := Hit(c, ts[0], window);
      if ts[0] < from {
        AnyIntervalIsBounded(c', ts[1..], window, limit, from);
      } else if c.Live? {
        SpillOver(c, ts, window, limit, from);
      } else if ts[0] < from + window {
        RestOfWindow(c', ts[1..], window, limit, from, from + window);
      } else {
        NothingTooLate(c, ts, window, limit, from, from + window);
      }
    }
  }

  // ----- the bound is reached, so the limiter is not a sliding window -----

  function Repeat(t: Time, n: nat): seq<Time> {
    seq(n, _ => t)
  }

  lemma {:induction false} BurstAdmitted(c: Counter, t: Time, n: nat, rest: seq<Time>, window: int, limit: int,
        from: Time, to: Time)
    requires c.Live? && c.count >= 1 && t < c.expiresAt && c.count + n <= limit && from <= t < to
    ensures Admitted(c, Repeat(t, n) + rest, window, limit, from, to)
            == n + Admitted(Live(c.count + n, c.expiresAt), rest, window, limit, from, to)
    decreases n
  {
    if n == 0 {
      assert Repeat(t, 0) + rest == rest;
    } else {
      assert (Repeat(t, n) + rest)[1..] == Repeat(t, n - 1) + rest;
      BurstAdmitted(Hit(c, t, window), t, n - 1, rest, window, limit, from, to);
    }
  }

  /** One early request, then a full burst on each side of the window's end. */
  function Burst(window: int, limit: int): seq<Time>
    requires limit >= 1
  {
    [0] + (Repeat(window - 1, limit - 1) + (Repeat(window, limit) + []))
  }

  lemma BurstInOrder(window: int, limit: int)
    requires window >= 2 && limit >= 1
    ensures InOrder(Burst(window, limit))
  {
    var ts := Burst(window, limit);
    forall i | 0 <= i < |ts| ensures ts[i] == if i == 0 then 0 else if i < limit then window - 1 else window {
    }
  }

  /** For every limit and every window of at least two units some interval of one window admits 2 * limit - 1. */
  lemma BoundIsReached(window: int, limit: int)
    requires window >= 2 && limit >= 1
    ensures InOrder(Burst(window, limit))
    ensures Admitted(Absent, Burst(window, limit), window, limit, window - 1, (window - 1) + window) == 2 * limit - 1
  {
    var from, to := window - 1, (window - 1) + window;
    var second := Repeat(window, limit) + [];
    BurstInOrder(window, limit);
    assert Burst(window, limit)[1..] == Repeat(window - 1, limit - 1) + second;
    BurstAdmitted(Live(1, window), window - 1, limit - 1, second, window, limit, from, to);
    assert second[0] == window && second[1..] == Repeat(window, limit - 1) + [];
    BurstAdmitted(Live(1, window + window), window, limit - 1, [], window, limit, from, to);
    assert Admitted(Live(limit, window), second, window, limit, from, to) == limit;
  }

  // ----- when the window slides after all -----

  /** Requests admitted in the interval of one window's length that starts at `from`. */
  function AdmittedFrom(ts: seq<Time>, window: int, limit: int, from: Time): nat {
    Admitted(Absent, ts, window, limit, from, from + window)
  }

  /** The documented promise: no interval of one window's length admits more than `limit` requests. */
  ghost predicate Slides(window: int, limit: int) {
    forall ts: seq<Time>, from: Time | InOrder(ts) :: AdmittedFrom(ts, window, limit, from) <= AtLeastZero(limit)
  }

  lemma {:induction false} OneUnitIsOneWindow(c: Counter, ts: seq<Time>, limit: int, from: Time)
    requires InOrder(ts) && (c.Live? ==> c.count >= 1)
    ensures Admitted(c, ts, 1, limit, from, from + 1) <= AtLeastZero(limit)
    decreases |ts|
  {
    if ts == [] {
    } else if ts[0] < from {
      OneUnitIsOneWindow(Hit(c, ts[0], 1), ts[1..], limit, from);
    } else if ts[0] >= from + 1 {
      NothingTooLate(c, ts, 1, limit, from, from + 1);
    } else if c.Live? && ts[0] < c.expiresAt {
      RestOfWindow(c, ts, 1, limit, from, from + 1);
    } else {
      RestOfWindow(Hit(c, ts[0], 1), ts[1..], 1, limit, from, from + 1);
    }
  }

  /** The limit holds in every interval of one window exactly when it is at most one, or the window one clock unit. */
  lemma SlidesIff(window: int, limit: int)
    requires window > 0
    ensures Slides(window, limit) <==> limit <= 1 || window == 1
  {
    if limit <= 1 || window == 1 {
      forall ts: seq<Time>, from: Time | InOrder(ts)
        ensures AdmittedFrom(ts, window, limit, from) <= AtLeastZero(limit)
      {
        AnyIntervalIsBounded(Absent, ts, window, limit, from);
        if window == 1 { OneUnitIsOneWindow(Absent, ts, limit, from); }
      }
    } else {
      BoundIsReached(window, limit);
      assert AdmittedFrom(Burst(window, limit), window, limit, window - 1) > limit;
    }
  }
}
