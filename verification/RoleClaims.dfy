/** Roles in token claims: printing, reading back, comparing. */
module RoleClaims {
  import opened Common

  type Role = string

  const STUDENT: Role := "student"
  const ORGANIZER: Role := "organizer"
  const ADMIN: Role := "admin"

  predicate Known(r: Role) {
    r == STUDENT || r == ORGANIZER || r == ADMIN
  }

  function Elements(s: seq<Role>): set<Role> {
    set r | r in s
  }

  ghost predicate NoDuplicates(s: seq<Role>) {
    forall i, j | 0 <= i < j < |s| :: s[i] != s[j]
  }

  lemma NoElements(s: seq<Role>)
    ensures s == [] <==> Elements(s) == {}
  {
    assert s != [] ==> s[0] in Elements(s);
  }

  // ----- the order of role names -----

  /** Byte order on strings. */
  predicate Less(a: string, b: string) {
    if b == "" then false
    else if a == "" then true
    else if a[0] != b[0] then a[0] < b[0]
    else Less(a[1..], b[1..])
  }

  lemma {:induction false} LessIsTotal(a: string, b: string)
    ensures Less(a, b) || a == b || Less(b, a)
    ensures !(Less(a, b) && Less(b, a)) && (a == b ==> !Less(a, b))
    decreases |a|
  {
    if a != "" && b != "" && a[0] == b[0] {
      LessIsTotal(a[1..], b[1..]);
      assert a == [a[0]] + a[1..] && b == [b[0]] + b[1..];
    }
  }

  lemma {:induction false} LessIsTransitive(a: string, b: string, c: string)
    requires Less(a, b) && Less(b, c)
    ensures Less(a, c)
    decreases |a|
  {
    if a != "" && a[0] == b[0] == c[0] {
      LessIsTransitive(a[1..], b[1..], c[1..]);
    }
  }

  ghost predicate StrictlySorted(s: seq<Role>) {
    forall i, j | 0 <= i < j < |s| :: Less(s[i], s[j])
  }

  /** A strictly sorted list is determined by its elements, so it does not matter which sort produced it. */
  lemma {:induction false} StrictlySortedIsUnique(a: seq<Role>, b: seq<Role>)
    requires StrictlySorted(a) && StrictlySorted(b) && Elements(a) == Elements(b)
    ensures a == b
  {
    NoElements(a);
    NoElements(b);
    if a != [] {
      FirstIsLeast(a, b);
      TailElements(a);
      TailElements(b);
      StrictlySortedIsUnique(a[1..], b[1..]);
    }
  }

  lemma FirstIsLeast(a: seq<Role>, b: seq<Role>)
    requires StrictlySorted(a) && StrictlySorted(b) && Elements(a) == Elements(b) && a != [] && b != []
    ensures a[0] == b[0]
  {
    assert a[0] in Elements(b) && b[0] in Elements(a);
    var i :| 0 <= i < |b| && b[i] == a[0];
    var j :| 0 <= j < |a| && a[j] == b[0];
    LessIsTotal(a[0], b[0]);
  }

  lemma TailElements(a: seq<Role>)
    requires StrictlySorted(a) && a != []
    ensures Elements(a[1..]) == Elements(a) - {a[0]}
  {
    LessIsTotal(a[0], a[0]);
    forall r | r in Elements(a) - {a[0]} ensures r in Elements(a[1..]) {
      var i :| 0 <= i < |a| && a[i] == r;
      assert a[1..][i - 1] == r;
    }
  }

  // ----- the library sort -----

  function InsertSorted(r: Role, s: seq<Role>): seq<Role> {
    if s == [] || Less(r, s[0]) then [r] + s else [s[0]] + InsertSorted(r, s[1..])
  }

  /** slices.SortFunc by cmpString; any correct sort gives this list (StrictlySortedIsUnique). */
  function Sorted(s: seq<Role>): seq<Role> {
    if s == [] then [] else InsertSorted(s[0], Sorted(s[1..]))
  }

  lemma {:induction false} InsertSortedSorts(r: Role, s: seq<Role>)
    requires StrictlySorted(s) && r !in s
    ensures StrictlySorted(InsertSorted(r, s))
    ensures Elements(InsertSorted(r, s)) == Elements(s) + {r}
  {
    if s == [] {
    } else if Less(r, s[0]) {
      forall j | 0 < j < |s| ensures Less(r, s[j]) { LessIsTransitive(r, s[0], s[j]); }
      assert Elements([r] + s) == Elements(s) + {r};
    } else {
      LessIsTotal(r, s[0]);
      var rest := InsertSorted(r, s[1..]);
      InsertSortedSorts(r, s[1..]);
      forall k | 0 <= k < |rest| ensures Less(s[0], rest[k]) {
        assert rest[k] in Elements(s[1..]) + {r};
        if rest[k] != r {
          var i :| 0 <= i < |s[1..]| && s[1..][i] == rest[k];
          assert Less(s[0], s[i + 1]);
        }
      }
      assert Elements(s) == Elements(s[1..]) + {s[0]} by { assert s == [s[0]] + s[1..]; }
      assert Elements([s[0]] + rest) == {s[0]} + Elements(rest);
    }
  }

  lemma {:induction false} SortedSorts(s: seq<Role>)
    requires NoDuplicates(s)
    ensures StrictlySorted(Sorted(s)) && Elements(Sorted(s)) == Elements(s)
  {
    if s == [] {
    } else {
      SortedSorts(s[1..]);
      assert s[0] !in Elements(s[1..]);
      InsertSortedSorts(s[0], Sorted(s[1..]));
      assert Elements(s) == Elements(s[1..]) + {s[0]} by { assert s == [s[0]] + s[1..]; }
    }
  }

  // ----- the claim functions -----

  /** The sorted list of distinct roles: strictly sorted, with exactly the given elements. */
  method DedupeRolesSorted(roles: seq<Role>) returns (out: seq<Role>)
    ensures StrictlySorted(out) && Elements(out) == Elements(roles)
  {
    if |roles| <= 1 { return roles; }
    var seen: set<Role> := {};
    var uniq: seq<Role> := [];
    for i := 0 to |roles|
      invariant seen == Elements(uniq) == Elements(roles[..i])
      invariant NoDuplicates(uniq)
    {
      var r := roles[i];
      assert roles[..i + 1] == roles[..i] + [r];
      assert Elements(roles[..i + 1]) == Elements(roles[..i]) + {r};
      if r in seen { continue; }
      seen := seen + {r};
      assert Elements(uniq + [r]) == Elements(uniq) + {r};
      uniq := uniq + [r];
    }
    assert roles[..|roles|] == roles;
    SortedSorts(uniq);
    return Sorted(uniq);
  }

  method RolesToStrings(roles: seq<Role>) returns (s: seq<string>)
    ensures StrictlySorted(s) && Elements(s) == Elements(roles)
  {
    if |roles| == 0 { return []; }
    s := DedupeRolesSorted(roles);
  }

  /** A token for every role lists them in the order of their names. */
  lemma RoleOrder()
    ensures StrictlySorted(["admin", "organizer", "student"])
  {
  }

  datatype ClaimError = InvalidRole | MissingRoles

  /** The `roles` claim wins; the legacy `role` claim is read only when it is absent. */
  method EffectiveRolesFromClaims(roles: seq<string>, legacy: Role) returns (r: Result<seq<Role>, ClaimError>)
    ensures r.Ok? <==>
              if roles != [] then forall s <- roles :: s in {"student", "organizer", "admin"}
              else legacy in {"student", "organizer", "admin"}
    ensures r.Ok? ==> StrictlySorted(r.value) && Elements(r.value) == if roles != [] then Elements(roles) else {legacy}
    ensures r.Err? ==> r.error == if roles == [] && legacy == "" then MissingRoles else InvalidRole
  {
    var out: seq<Role> := [];
    if |roles| > 0 {
      for i := 0 to |roles|
        invariant out == roles[..i] && forall s <- roles[..i] :: Known(s)
      {
        if !Known(roles[i]) {
          assert roles[i] in roles;
          return Err(InvalidRole);
        }
        out := out + [roles[i]];
      }
      assert roles[..|roles|] == roles;
    } else if legacy != "" {
      if !Known(legacy) { return Err(InvalidRole); }
      out := [legacy];
    }
    ghost var listed := out;
    out := DedupeRolesSorted(out);
    NoElements(listed);
    NoElements(out);
    if |out| == 0 { return Err(MissingRoles); }
    return Ok(out);
  }

  /** The most powerful known role of a set, if any. */
  function Highest(roles: set<Role>): Role {
    if ADMIN in roles then ADMIN else if ORGANIZER in roles then ORGANIZER else if STUDENT in roles then STUDENT else ""
  }

  method PrimaryRole(roles: seq<Role>) returns (r: Role)
    ensures r == Highest(Elements(roles))
    ensures r == if "admin" in roles then "admin" else if "organizer" in roles then "organizer"
                 else if "student" in roles then "student" else ""
  {
    var have: set<Role> := {};
    for i := 0 to |roles|
      invariant have == Elements(roles[..i])
    {
      assert roles[..i + 1] == roles[..i] + [roles[i]];
      have := have + {roles[i]};
    }
    assert roles[..|roles|] == roles;
    var picks := [ADMIN, ORGANIZER, STUDENT];
    for i := 0 to |picks|
      invariant forall k | 0 <= k < i :: picks[k] !in have
    {
      assert (i >= 1 ==> picks[0] !in have) && (i >= 2 ==> picks[1] !in have);
      if picks[i] in have { return picks[i]; }
    }
    assert picks[0] !in have && picks[1] !in have && picks[2] !in have;
    return "";
  }

  function Tally(m: map<Role, int>, r: Role): int {
    if r in m then m[r] else 0
  }

  /** `m` counts the roles of `a` less those of `b`. */
  ghost predicate Counts(m: map<Role, int>, a: seq<Role>, b: seq<Role>) {
    forall r :: Tally(m, r) + multiset(b)[r] == multiset(a)[r]
  }

  lemma CountOneMore(m: map<Role, int>, s: seq<Role>, i: nat)
    requires i < |s| && Counts(m, s[..i], [])
    ensures Counts(m[s[i] := Tally(m, s[i]) + 1], s[..i + 1], [])
  {
    assert s[..i + 1] == s[..i] + [s[i]];
  }

  lemma CountOneLess(m: map<Role, int>, a: seq<Role>, s: seq<Role>, i: nat)
    requires i < |s| && Counts(m, a, s[..i])
    ensures Counts(m[s[i] := Tally(m, s[i]) - 1], a, s[..i + 1])
    ensures multiset(s[..i + 1])[s[i]] <= multiset(s)[s[i]]
  {
    assert s[..i + 1] == s[..i] + [s[i]];
    assert s == s[..i + 1] + s[i + 1..];
  }

  /** Multiset equality: repetitions count, although the callers speak of sets. */
  method RolesEqual(a: seq<Role>, b: seq<Role>) returns (equal: bool)
    ensures equal <==> multiset(a) == multiset(b)
  {
    if |a| != |b| {
      assert |multiset(a)| == |a| && |multiset(b)| == |b|;
      return false;
    }
    var ma: map<Role, int> := map[];
    for i := 0 to |a|
      invariant Counts(ma, a[..i], [])
    {
      CountOneMore(ma, a, i);
      ma := ma[a[i] := Tally(ma, a[i]) + 1];
    }
    assert a[..|a|] == a && b[..0] == [];
    for i := 0 to |b|
      invariant Counts(ma, a, b[..i])
    {
      CountOneLess(ma, a, b, i);
      ma := ma[b[i] := Tally(ma, b[i]) - 1];
      if ma[b[i]] < 0 {
        assert multiset(a)[b[i]] < multiset(b)[b[i]] by {
          assert Tally(ma, b[i]) + multiset(b[..i + 1])[b[i]] == multiset(a)[b[i]];
        }
        return false;
      }
    }
    assert b[..|b|] == b;
    var keys := ma.Keys;
    while keys != {}
      invariant keys <= ma.Keys && forall r | r in ma.Keys - keys :: Tally(ma, r) == 0
    {
      var r :| r in keys;
      if ma[r] != 0 {
        assert multiset(a)[r] != multiset(b)[r] by { assert Tally(ma, r) + multiset(b)[r] == multiset(a)[r]; }
        return false;
      }
      keys := keys - {r};
    }
    forall r: Role ensures multiset(a)[r] == multiset(b)[r] {
      assert Tally(ma, r) + multiset(b)[r] == multiset(a)[r];
      assert r in ma ==> r in ma.Keys - keys;
    }
    return true;
  }

  // ----- round trip -----

  lemma {:induction false} NoDuplicatesCounts(s: seq<Role>)
    ensures NoDuplicates(s) <==> forall r :: multiset(s)[r] <= 1
  {
    if s == [] {
    } else {
      NoDuplicatesCounts(s[1..]);
      assert s == [s[0]] + s[1..];
      assert multiset(s) == multiset{s[0]} + multiset(s[1..]);
      if NoDuplicates(s) {
        assert s[0] !in s[1..];
        assert NoDuplicates(s[1..]);
      } else if forall r :: multiset(s)[r] <= 1 {
        assert multiset(s)[s[0]] <= 1;
        assert s[0] !in multiset(s[1..]);
        assert forall r :: multiset(s[1..])[r] <= multiset(s)[r];
      }
    }
  }

  /** Against a duplicate-free list, multiset equality asks for the same set and no repetition. */
  lemma SameMultisetIff(a: seq<Role>, b: seq<Role>)
    requires NoDuplicates(a)
    ensures multiset(a) == multiset(b) <==> Elements(a) == Elements(b) && NoDuplicates(b)
  {
    NoDuplicatesCounts(a);
    NoDuplicatesCounts(b);
    if multiset(a) == multiset(b) {
      assert forall r :: r in a <==> r in multiset(a);
      assert forall r :: r in b <==> r in multiset(b);
    } else if Elements(a) == Elements(b) && NoDuplicates(b) {
      forall r: Role ensures multiset(a)[r] == multiset(b)[r] {
        assert r in multiset(a) <==> r in Elements(a);
        assert r in multiset(b) <==> r in Elements(b);
      }
    }
  }

  /** Multiset equality is not set equality: these two lists hold the same roles and are refused. */
  lemma RepeatedRoleIsRefused()
    ensures Elements([STUDENT, STUDENT]) == Elements([STUDENT])
    ensures multiset([STUDENT, STUDENT]) != multiset([STUDENT])
  {
    assert multiset([STUDENT, STUDENT])[STUDENT] == 2;
  }

  /**
   * Issue a token for roles `a`, then refresh it when the user has active roles `b`.
   * The comparison accepts exactly when every role of `a` is known and `b` lists the
   * same set without repetition, in whatever order either list arrived.
   */
  method RefreshAccepts(a: seq<Role>, legacy: Role, b: seq<Role>) returns (accepted: bool)
    ensures accepted <==>
              if a != [] then (forall r <- a :: Known(r)) && Elements(a) == Elements(b) && NoDuplicates(b)
              else Known(legacy) && b == [legacy]
  {
    var claim := RolesToStrings(a);
    NoElements(claim);
    NoElements(a);
    assert (forall s <- claim :: Known(s)) <==> (forall s <- Elements(claim) :: Known(s));
    assert (forall s <- a :: Known(s)) <==> (forall s <- Elements(a) :: Known(s));
    var read := EffectiveRolesFromClaims(claim, legacy);
    if read.Err? { return false; }
    assert NoDuplicates(read.value) by {
      forall i, j | 0 <= i < j < |read.value| ensures read.value[i] != read.value[j] {
        LessIsTotal(read.value[i], read.value[i]);
      }
    }
    accepted := RolesEqual(read.value, b);
    SameMultisetIff(read.value, b);
    if a == [] {
      assert Elements(read.value) == Elements([legacy]);
      assert Elements(b) == {legacy} && NoDuplicates(b) <==> b == [legacy] by { SingletonList(b, legacy); }
    }
  }

  lemma SingletonList(b: seq<Role>, r: Role)
    ensures Elements(b) == {r} && NoDuplicates(b) <==> b == [r]
  {
    NoElements(b);
    assert b != [] ==> b[0] in Elements(b);
    assert |b| > 1 ==> b[1] in Elements(b) && (NoDuplicates(b) ==> b[0] != b[1]);
  }
}
