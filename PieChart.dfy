/** The series handed to the role-distribution pie chart: one slice per key of `roleCounts`,
    coloured from a four-entry palette taken in rotation. */
module PieChart {
  import opened Sequences
  import opened Applicants
  import opened RoleCounts

  /** The palette `COLORS`. */
  const Colors: seq<string> := ["#7D3C98", "#9B59B6", "#BB8FCE", "#D2B4DE"]

  /** One `{ name, value, fill }` entry of `pieData`. */
  datatype Slice = Slice(name: string, value: nat, fill: string)

  /** `Object.keys(roleCounts).map((role, index) => ({ name: role, value: roleCounts[role],
      fill: COLORS[index % COLORS.length] }))`. Object.keys lists only keys that have an entry,
      so the fallback 0 of `ValueOf` is never reached on a valid dictionary. */
  function PieData(c: Counts): (r: seq<Slice>)
    ensures |r| == |c.keys|
    ensures forall i :: 0 <= i < |r| ==> r[i].name == c.keys[i] && r[i].value == ValueOf(c.count, r[i].name)
    ensures forall i :: 0 <= i < |r| ==> r[i].fill in Colors
  {
    seq(|c.keys|, i requires 0 <= i < |c.keys| =>
      Slice(c.keys[i], ValueOf(c.count, c.keys[i]), Colors[i % |Colors|]))
  }

  /** The palette is taken in rotation: the first four slices get the four colours in order,
      and every later slice has the colour of the slice four places before it. */
  lemma PieFillsRotate(c: Counts, i: nat)
    requires i < |c.keys|
    ensures i < 4 ==> PieData(c)[i].fill == Colors[i]
    ensures 4 <= i ==> PieData(c)[i].fill == PieData(c)[i - 4].fill
  {
  }

  /** The total of the slices' values. */
  function TotalValue(slices: seq<Slice>): nat {
    if slices == [] then 0 else TotalValue(slices[..|slices| - 1]) + slices[|slices| - 1].value
  }

  /** The chart's total is the sum of the dictionary's entries. */
  lemma {:induction false} TotalValueIsSum(c: Counts)
    ensures TotalValue(PieData(c)) == SumOver(c.keys, c.count)
    decreases |c.keys|
  {
    if c.keys != [] {
      var prefix := Counts(c.keys[..|c.keys| - 1], c.count);
      assert PieData(c)[..|c.keys| - 1] == PieData(prefix);
      TotalValueIsSum(prefix);
    }
  }

  /** The pie series built from the applicant list: one slice per distinct role, in discovery
      order, with no role twice; each value is that role's number of applications; the values
      add up to the number of applications; every fill is a palette colour. */
  lemma PieDataOfApplicants(apps: seq<Applicant>)
    ensures var r := PieData(Tally(Flatten(apps)));
      && |r| == |DistinctRoles(apps)|
      && (forall i :: 0 <= i < |r| ==> r[i].name == DistinctRoles(apps)[i])
      && (forall i :: 0 <= i < |r| ==> r[i].value == multiset(Flatten(apps))[r[i].name] >= 1)
      && (forall i :: 0 <= i < |r| ==> r[i].fill in Colors)
      && TotalValue(r) == |Flatten(apps)|
  {
    var roles := Flatten(apps);
    var c := Tally(roles);
    TallyValid(roles);
    TallyCountsOccurrences(roles);
    assert c.keys == DistinctRoles(apps);
    var r := PieData(c);
    forall i | 0 <= i < |r|
      ensures r[i].value == multiset(roles)[r[i].name] >= 1
    {
      assert r[i].name in c.count;
    }
    TallySum(roles);
    TotalValueIsSum(c);
  }

  /** On the view's own applicant list the chart shows four roles, in discovery order, with
      two, two, one and one applications, coloured with the four palette entries in order. */
  lemma ApplicantsDataChart()
    ensures PieData(Tally(Flatten(ApplicantsData))) == [
      Slice("Software Engineer", 2, "#7D3C98"),
      Slice("Data Analyst", 2, "#9B59B6"),
      Slice("Product Manager", 1, "#BB8FCE"),
      Slice("UX Designer", 1, "#D2B4DE")
    ]
  {
    var se, da, pm, ux := "Software Engineer", "Data Analyst", "Product Manager", "UX Designer";
    TallyOfApplicantsData();
    var c := Counts([se, da, pm, ux], map[se := 2, da := 2, pm := 1, ux := 1]);
    assert PieData(c)[0] == Slice(se, 2, "#7D3C98");
    assert PieData(c)[1] == Slice(da, 2, "#9B59B6");
    assert PieData(c)[2] == Slice(pm, 1, "#BB8FCE");
    assert PieData(c)[3] == Slice(ux, 1, "#D2B4DE");
  }
}
