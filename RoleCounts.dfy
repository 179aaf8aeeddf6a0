/** The `roleCounts` dictionary: how many times each role was applied for. In the view it is a
    plain JavaScript object filled by a `reduce`; its keys keep the order in which they were
    first assigned, and that order later decides the pie chart's colours. */
module RoleCounts {
  import opened Sequences
  import opened Applicants

  /** A JavaScript object used as a dictionary from role to count: its keys in insertion order
      and its entries. */
  datatype Counts = Counts(keys: seq<string>, count: map<string, nat>)

  /** The key order lists every entry of the dictionary exactly once. */
  predicate Valid(c: Counts) {
    && NoDup(c.keys)
    && (forall k :: k in c.keys ==> k in c.count)
    && (forall k :: k in c.count ==> k in c.keys)
  }

  /** `acc[role]`, where a missing key reads as `undefined` and `undefined || 0` is 0. */
  function ValueOf(count: map<string, nat>, role: string): nat {
    if role in count then count[role] else 0
  }

  /** One step of the reduce: `acc[role] = (acc[role] || 0) + 1`. Assigning to an existing key
      keeps its position; a new key goes to the end of the key order. */
  function Bump(acc: Counts, role: string): Counts {
    if role in acc.count then Counts(acc.keys, acc.count[role := acc.count[role] + 1])
    else Counts(acc.keys + [role], acc.count[role := 1])
  }

  /** A step raises the visited role's entry by one, leaves every other entry alone, and keeps
      the key order listing every entry exactly once. */
  lemma BumpKeepsValid(acc: Counts, role: string)
    requires Valid(acc)
    ensures Valid(Bump(acc, role))
    ensures ValueOf(Bump(acc, role).count, role) == ValueOf(acc.count, role) + 1
    ensures forall k :: k != role ==> ValueOf(Bump(acc, role).count, k) == ValueOf(acc.count, k)
  {
  }

  /** The dictionary the reduce has built after visiting `roles`, starting from `{}`. */
  function Tally(roles: seq<string>): Counts {
    if roles == [] then Counts([], map[])
    else Bump(Tally(roles[..|roles| - 1]), roles[|roles| - 1])
  }

  /** Whatever roles are visited, the key order lists every entry exactly once. */
  lemma {:induction false} TallyValid(roles: seq<string>)
    ensures Valid(Tally(roles))
  {
    if roles != [] {
      TallyValid(roles[..|roles| - 1]);
      BumpKeepsValid(Tally(roles[..|roles| - 1]), roles[|roles| - 1]);
    }
  }

  /** Visiting one more role performs one more step of the reduce. */
  lemma TallySnoc(roles: seq<string>, role: string)
    ensures Tally(roles + [role]) == Bump(Tally(roles), role)
  {
    assert (roles + [role])[..|roles|] == roles;
  }

  /** The dictionary's keys are the distinct roles in order of first occurrence, and each role's
      entry is its number of occurrences, at least 1; a role that never occurs has no key. */
  lemma {:induction false} TallyCountsOccurrences(roles: seq<string>)
    ensures Tally(roles).keys == Distinct(roles)
    ensures forall role :: role in Tally(roles).count <==> role in roles
    ensures forall role :: role in Tally(roles).count ==>
      Tally(roles).count[role] == multiset(roles)[role] >= 1
  {
    if roles != [] {
      var prefix, last := roles[..|roles| - 1], roles[|roles| - 1];
      assert roles == prefix + [last];
      TallyCountsOccurrences(prefix);
      TallyValid(prefix);
    }
  }

  /** The sum of the entries of `count` named by `keys`. */
  function SumOver(keys: seq<string>, count: map<string, nat>): nat {
    if keys == [] then 0
    else SumOver(keys[..|keys| - 1], count) + ValueOf(count, keys[|keys| - 1])
  }

  lemma {:induction false} SumOverFrame(keys: seq<string>, m: map<string, nat>, m': map<string, nat>)
    requires forall k :: k in keys ==> ValueOf(m, k) == ValueOf(m', k)
    ensures SumOver(keys, m) == SumOver(keys, m')
  {
    if keys != [] {
      SumOverFrame(keys[..|keys| - 1], m, m');
    }
  }

  lemma {:induction false} SumOverIncrement(keys: seq<string>, m: map<string, nat>, m': map<string, nat>, role: string)
    requires NoDup(keys) && role in keys
    requires ValueOf(m', role) == ValueOf(m, role) + 1
    requires forall k :: k != role ==> ValueOf(m', k) == ValueOf(m, k)
    ensures SumOver(keys, m') == SumOver(keys, m) + 1
  {
    var prefix, last := keys[..|keys| - 1], keys[|keys| - 1];
    assert keys == prefix + [last];
    if last == role {
      SumOverFrame(prefix, m, m');
    } else {
      SumOverIncrement(prefix, m, m', role);
    }
  }

  /** The entries of the finished dictionary add up to the number of roles visited. */
  lemma {:induction false} TallySum(roles: seq<string>)
    ensures SumOver(Tally(roles).keys, Tally(roles).count) == |roles|
  {
    if roles != [] {
      var prefix, last := roles[..|roles| - 1], roles[|roles| - 1];
      var acc := Tally(prefix);
      TallySum(prefix);
      TallyValid(prefix);
      BumpKeepsValid(acc, last);
      if last in acc.count {
        SumOverIncrement(acc.keys, acc.count, Tally(roles).count, last);
      } else {
        SumOverFrame(acc.keys, acc.count, Tally(roles).count);
      }
    }
  }

  /** `applicantsData.flatMap(a => a.roles).reduce(..., {})`, written as the loop that the
      reduce performs, rebinding the accumulator dictionary at each step. */
  method CountRoles(apps: seq<Applicant>) returns (c: Counts)
    ensures c == Tally(Flatten(apps))
    ensures Valid(c)
    ensures c.keys == DistinctRoles(apps)
    ensures forall role :: role in c.count <==> exists a :: a in apps && role in a.roles
    ensures forall role :: role in c.count ==> c.count[role] == multiset(Flatten(apps))[role] >= 1
    ensures SumOver(c.keys, c.count) == |Flatten(apps)|
  {
    var roles := Flatten(apps);
    var keys: seq<string> := [];
    var count: map<string, nat> := map[];
    var i := 0;
    while i < |roles|
      invariant 0 <= i <= |roles|
      invariant Counts(keys, count) == Tally(roles[..i])
    {
      var role := roles[i];
      assert roles[..i + 1] == roles[..i] + [role];
      if role in count {
        count := count[role := count[role] + 1];
      } else {
        keys := keys + [role];
        count := count[role := 1];
      }
      i := i + 1;
    }
    assert roles[..i] == roles;
    c := Counts(keys, count);
    TallyValid(roles);
    TallyCountsOccurrences(roles);
    TallySum(roles);
  }

  /** The dictionary built from the view's own applicant list: four roles in discovery order,
      applied for twice, twice, once and once. */
  lemma TallyOfApplicantsData()
    ensures var se, da, pm, ux := "Software Engineer", "Data Analyst", "Product Manager", "UX Designer";
      Tally(Flatten(ApplicantsData)) == Counts([se, da, pm, ux], map[se := 2, da := 2, pm := 1, ux := 1])
  {
    var se, da, pm, ux := "Software Engineer", "Data Analyst", "Product Manager", "UX Designer";
    assert |se| == 17 && |da| == 12 && |pm| == 15 && |ux| == 11;
    ApplicantsDataRoles();
    TallyOfPattern(se, da, pm, ux);
  }

  /** The role cards of the view's own applicant list, in discovery order. */
  lemma DistinctRolesOfApplicantsData()
    ensures DistinctRoles(ApplicantsData) == ["Software Engineer", "Data Analyst", "Product Manager", "UX Designer"]
  {
    TallyOfApplicantsData();
    TallyCountsOccurrences(Flatten(ApplicantsData));
  }

  /** Four distinct roles met in the order a, b, a, c, b, d. */
  lemma TallyOfPattern(a: string, b: string, c: string, d: string)
    requires a != b && a != c && a != d && b != c && b != d && c != d
    ensures Tally([a, b, a, c, b, d]) == Counts([a, b, c, d], map[a := 2, b := 2, c := 1, d := 1])
  {
    var s1 := [a];
    var s2 := s1 + [b];
    var s3 := s2 + [a];
    var s4 := s3 + [c];
    var s5 := s4 + [b];
    var s6 := s5 + [d];
    TallySnoc([], a);
    assert [] + [a] == s1;
    TallySnoc(s1, b);
    TallySnoc(s2, a);
    TallySnoc(s3, c);
    TallySnoc(s4, b);
    TallySnoc(s5, d);
    assert s6 == [a, b, a, c, b, d];
  }
}
