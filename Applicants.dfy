/** The applicant list of the job-applicants view and the pure queries made over it:
    every applied-for role, the distinct roles in discovery order, and the applicants under one role. */
module Applicants {
  import opened Sequences

  /** One applicant: a name and the roles the applicant applied for, in the order given. */
  datatype Applicant = Applicant(name: string, roles: seq<string>)

  /** The hardcoded applicant list the view renders. */
  const ApplicantsData: seq<Applicant> := [
    Applicant("Alice Johnson", ["Software Engineer", "Data Analyst"]),
    Applicant("Bob Smith", ["Software Engineer", "Product Manager"]),
    Applicant("Charlie Brown", ["Data Analyst", "UX Designer"])
  ]

  /** `apps.flatMap(a => a.roles)`: every applicant's roles, applicant by applicant. */
  function Flatten(apps: seq<Applicant>): (r: seq<string>)
    ensures forall role :: role in r <==> exists a :: a in apps && role in a.roles
  {
    if apps == [] then []
    else
      var rest := Flatten(apps[1..]);
      assert forall a :: a in apps[1..] ==> a in apps;
      assert forall a :: a in apps ==> a == apps[0] || a in apps[1..];
      apps[0].roles + rest
  }

  /** `[...new Set(apps.flatMap(a => a.roles))]`: the roles that head the role cards. */
  function DistinctRoles(apps: seq<Applicant>): (r: seq<string>)
    ensures NoDup(r)
    ensures forall role :: role in r <==> role in Flatten(apps)
    ensures forall role :: role in r <==> exists a :: a in apps && role in a.roles
    ensures forall i, j :: 0 <= i < j < |r| ==>
      FirstIndex(Flatten(apps), r[i]) < FirstIndex(Flatten(apps), r[j])
  {
    var roles := Flatten(apps);
    var r := Distinct(roles);
    forall i, j | 0 <= i < j < |r|
      ensures FirstIndex(roles, r[i]) < FirstIndex(roles, r[j])
    {
      DistinctInDiscoveryOrder(roles, i, j);
    }
    r
  }

  /** `apps.filter(a => a.roles.includes(role))`: the applicants listed on the card of `role`,
      in list order. An unknown role gives the empty list. */
  function ApplicantsFor(apps: seq<Applicant>, role: string): seq<Applicant> {
    if apps == [] then []
    else if role in apps[0].roles then [apps[0]] + ApplicantsFor(apps[1..], role)
    else ApplicantsFor(apps[1..], role)
  }

  /** The card of `role` lists exactly the applicants whose roles include `role`. */
  lemma {:induction false} ApplicantsForMembers(apps: seq<Applicant>, role: string)
    ensures forall a :: a in ApplicantsFor(apps, role) <==> a in apps && role in a.roles
  {
    if apps != [] {
      assert apps == [apps[0]] + apps[1..];
      ApplicantsForMembers(apps[1..], role);
    }
  }

  /** The listed applicants keep their relative order from the applicant list. */
  lemma {:induction false} ApplicantsForIsSubsequence(apps: seq<Applicant>, role: string)
    ensures IsSubsequence(ApplicantsFor(apps, role), apps)
  {
    if apps != [] {
      var rest := ApplicantsFor(apps[1..], role);
      ApplicantsForIsSubsequence(apps[1..], role);
      if role in apps[0].roles {
        assert ([apps[0]] + rest)[1..] == rest;
      }
    }
  }

  /** The filter keeps every matching applicant as often as the list holds it and drops every
      other applicant. */
  lemma {:induction false} ApplicantsForMultiplicity(apps: seq<Applicant>, role: string, a: Applicant)
    ensures multiset(ApplicantsFor(apps, role))[a] == if role in a.roles then multiset(apps)[a] else 0
  {
    if apps != [] {
      assert apps == [apps[0]] + apps[1..];
      ApplicantsForMultiplicity(apps[1..], role, a);
    }
  }

  /** Every applicant who applied for at least one role is listed on some role card. */
  lemma ApplicantListedSomewhere(apps: seq<Applicant>, a: Applicant)
    requires a in apps && a.roles != []
    ensures exists role :: role in DistinctRoles(apps) && a in ApplicantsFor(apps, role)
  {
    var role := a.roles[0];
    assert role in DistinctRoles(apps);
    ApplicantsForMembers(apps, role);
  }

  /** The roles of the view's own applicant list, applicant by applicant. */
  lemma ApplicantsDataRoles()
    ensures Flatten(ApplicantsData) ==
      ["Software Engineer", "Data Analyst", "Software Engineer", "Product Manager", "Data Analyst", "UX Designer"]
  {
    assert Flatten(ApplicantsData[2..]) == ["Data Analyst", "UX Designer"];
    assert Flatten(ApplicantsData[1..]) == ["Software Engineer", "Product Manager", "Data Analyst", "UX Designer"];
  }
}
