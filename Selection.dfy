/** The view's one piece of state, the set of selected applicant names, and how it decides each
    applicant row on the role cards: a selected name is struck through and greyed, and only an
    unselected name offers a Select button. Selection is by name and shared by every card. */
module Selection {
  import opened Sequences
  import opened Applicants
  import opened RoleCounts

  /** `(prev) => new Set(prev).add(name)`: the state updater run by `handleSelectApplicant`.
      It builds a new set from the previous one, so nothing is removed. */
  function WithSelected(prev: set<string>, name: string): (next: set<string>)
    ensures name in next
    ensures prev <= next
    ensures forall other :: other in next && other != name ==> other in prev
  {
    prev + {name}
  }

  /** Selecting a name that is already selected leaves the selection as it was. */
  lemma SelectIdempotent(prev: set<string>, name: string)
    requires name in prev
    ensures WithSelected(prev, name) == prev
  {
  }

  /** Selecting the same names in either order gives the same selection. */
  lemma SelectCommutes(prev: set<string>, n1: string, n2: string)
    ensures WithSelected(WithSelected(prev, n1), n2) == WithSelected(WithSelected(prev, n2), n1)
  {
  }

  /** What a row shows for one applicant: the name, its text decoration and colour, and whether
      the Select button is present. */
  datatype ApplicantRow = ApplicantRow(name: string, textDecoration: string, color: string, showSelect: bool)

  /** The row of applicant `a` under the current selection: the three `selectedApplicants.has`
      tests agree, so a row is either struck, grey and without a button, or plain, black and
      with one. */
  function RowFor(a: Applicant, selected: set<string>): (row: ApplicantRow)
    ensures row.name == a.name
    ensures row.showSelect <==> a.name !in selected
    ensures !row.showSelect ==> row.textDecoration == "line-through" && row.color == "gray.400"
    ensures row.showSelect <==> row.textDecoration == "none"
    ensures row.showSelect <==> row.color == "black"
  {
    var isSelected := a.name in selected;
    ApplicantRow(
      a.name,
      if isSelected then "line-through" else "none",
      if isSelected then "gray.400" else "black",
      !isSelected)
  }

  /** One role card: the role heading and the rows of the applicants who applied for it. */
  datatype RoleCard = RoleCard(role: string, rows: seq<ApplicantRow>)

  /** The rows of the card for `role`: the applicants who applied for it, in list order. */
  function CardRows(apps: seq<Applicant>, role: string, selected: set<string>): (rows: seq<ApplicantRow>)
    ensures |rows| == |ApplicantsFor(apps, role)|
    ensures forall i :: 0 <= i < |rows| ==> rows[i].name == ApplicantsFor(apps, role)[i].name
  {
    var listed := ApplicantsFor(apps, role);
    seq(|listed|, i requires 0 <= i < |listed| => RowFor(listed[i], selected))
  }

  /** The applicant list: one card per distinct role, in discovery order. */
  function RoleCards(apps: seq<Applicant>, selected: set<string>): (cards: seq<RoleCard>)
    ensures |cards| == |DistinctRoles(apps)|
    ensures forall i :: 0 <= i < |cards| ==> cards[i].role == DistinctRoles(apps)[i]
  {
    var roles := DistinctRoles(apps);
    seq(|roles|, i requires 0 <= i < |roles| => RoleCard(roles[i], CardRows(apps, roles[i], selected)))
  }

  /** A card's rows are exactly the rows of the applicants who applied for its role. */
  lemma CardListsApplicants(apps: seq<Applicant>, role: string, selected: set<string>)
    ensures forall row :: row in CardRows(apps, role, selected) <==>
      exists a :: a in apps && role in a.roles && row == RowFor(a, selected)
  {
    var listed := ApplicantsFor(apps, role);
    var rows := CardRows(apps, role, selected);
    ApplicantsForMembers(apps, role);
    forall row | row in rows
      ensures exists a :: a in apps && role in a.roles && row == RowFor(a, selected)
    {
      var k :| 0 <= k < |rows| && rows[k] == row;
      assert listed[k] in listed;
    }
    forall a | a in apps && role in a.roles
      ensures RowFor(a, selected) in rows
    {
      var k :| 0 <= k < |listed| && listed[k] == a;
      assert rows[k] == RowFor(a, selected);
    }
  }

  /** Selection is global by name: once a name is selected, every row with that name, on every
      card, is struck through and has no Select button; an unselected name keeps its button
      everywhere. */
  lemma SelectionIsGlobalByName(apps: seq<Applicant>, selected: set<string>, name: string)
    ensures forall card, row :: card in RoleCards(apps, selected) && row in card.rows && row.name == name ==>
      (row.showSelect <==> name !in selected) && (row.textDecoration == "line-through" <==> name in selected)
  {
    var cards := RoleCards(apps, selected);
    forall card, row | card in cards && row in card.rows && row.name == name
      ensures (row.showSelect <==> name !in selected) && (row.textDecoration == "line-through" <==> name in selected)
    {
      var i :| 0 <= i < |cards| && cards[i] == card;
      var j :| 0 <= j < |card.rows| && card.rows[j] == row;
      assert row == RowFor(ApplicantsFor(apps, DistinctRoles(apps)[i])[j], selected);
    }
  }

  /** Selecting a name changes no card's role list or applicant list and no row of any other
      name; only the rows carrying that name change. */
  lemma SelectChangesOnlyThatName(apps: seq<Applicant>, selected: set<string>, name: string)
    ensures var before, after := RoleCards(apps, selected), RoleCards(apps, WithSelected(selected, name));
      && |after| == |before|
      && forall i :: 0 <= i < |before| ==>
        && after[i].role == before[i].role
        && |after[i].rows| == |before[i].rows|
        && forall j :: 0 <= j < |before[i].rows| && before[i].rows[j].name != name ==>
          after[i].rows[j] == before[i].rows[j]
  {
  }

  /** The state of the job-applicants view: the names selected so far. */
  class JobApplicantsVisualizer {
    var selectedApplicants: set<string>

    /** `useState(new Set())`: nothing is selected at first. */
    constructor()
      ensures selectedApplicants == {}
    {
      selectedApplicants := {};
    }

    /** `selectedApplicants.has(name)`: the test that decides every row carrying `name`, on
        every card of the current view (see `SelectionIsGlobalByName`). */
    function IsSelected(name: string): bool
      reads this
    {
      name in selectedApplicants
    }

    /** What the applicant list currently shows: the four role cards of the hardcoded list,
        in discovery order. */
    function View(): (v: seq<RoleCard>)
      reads this
      ensures |v| == 4
      ensures v[0].role == "Software Engineer" && v[1].role == "Data Analyst"
      ensures v[2].role == "Product Manager" && v[3].role == "UX Designer"
    {
      DistinctRolesOfApplicantsData();
      RoleCards(ApplicantsData, selectedApplicants)
    }

    /** `handleSelectApplicant(name)` without its toast: the selection becomes a copy of the
        previous one with `name` added, and every row with that name loses its Select button. */
    method HandleSelectApplicant(name: string)
      modifies this
      ensures selectedApplicants == WithSelected(old(selectedApplicants), name)
      ensures IsSelected(name)
      ensures forall other :: old(IsSelected(other)) ==> IsSelected(other)
      ensures forall card, row :: card in View() && row in card.rows && row.name == name ==> !row.showSelect
    {
      selectedApplicants := WithSelected(selectedApplicants, name);
      SelectionIsGlobalByName(ApplicantsData, selectedApplicants, name);
    }
  }

  /** The cards of the view's own applicant list: Software Engineer lists Alice and Bob, Data
      Analyst lists Alice and Charlie, Product Manager lists Bob and UX Designer lists Charlie. */
  lemma ApplicantsDataCards()
    ensures var se, da, pm, ux := "Software Engineer", "Data Analyst", "Product Manager", "UX Designer";
      var alice, bob, charlie := ApplicantsData[0], ApplicantsData[1], ApplicantsData[2];
      && DistinctRoles(ApplicantsData) == [se, da, pm, ux]
      && ApplicantsFor(ApplicantsData, se) == [alice, bob]
      && ApplicantsFor(ApplicantsData, da) == [alice, charlie]
      && ApplicantsFor(ApplicantsData, pm) == [bob]
      && ApplicantsFor(ApplicantsData, ux) == [charlie]
  {
    var se, da, pm, ux := "Software Engineer", "Data Analyst", "Product Manager", "UX Designer";
    assert |se| == 17 && |da| == 12 && |pm| == 15 && |ux| == 11;
    DistinctRolesOfApplicantsData();
    CardsOfPattern(ApplicantsData[0], ApplicantsData[1], ApplicantsData[2], se, da, pm, ux);
  }

  /** Three applicants applying for a and b, a and c, b and d, with four distinct roles. */
  lemma CardsOfPattern(x: Applicant, y: Applicant, z: Applicant, a: string, b: string, c: string, d: string)
    requires a != b && a != c && a != d && b != c && b != d && c != d
    requires x.roles == [a, b] && y.roles == [a, c] && z.roles == [b, d]
    ensures ApplicantsFor([x, y, z], a) == [x, y]
    ensures ApplicantsFor([x, y, z], b) == [x, z]
    ensures ApplicantsFor([x, y, z], c) == [y]
    ensures ApplicantsFor([x, y, z], d) == [z]
  {
    ApplicantsForOfThree(x, y, z, a);
    ApplicantsForOfThree(x, y, z, b);
    ApplicantsForOfThree(x, y, z, c);
    ApplicantsForOfThree(x, y, z, d);
  }

  lemma ApplicantsForOfThree(x: Applicant, y: Applicant, z: Applicant, role: string)
    ensures ApplicantsFor([x, y, z], role) ==
      (if role in x.roles then [x] else []) +
      (if role in y.roles then [y] else []) +
      (if role in z.roles then [z] else [])
  {
    ApplicantsForCons(z, [], role);
    assert [z] + [] == [z];
    ApplicantsForCons(y, [z], role);
    assert [y] + [z] == [y, z];
    ApplicantsForCons(x, [y, z], role);
    assert [x] + [y, z] == [x, y, z];
  }

  lemma ApplicantsForCons(a: Applicant, rest: seq<Applicant>, role: string)
    ensures ApplicantsFor([a] + rest, role) == (if role in a.roles then [a] else []) + ApplicantsFor(rest, role)
  {
    assert ([a] + rest)[1..] == rest;
  }

  /** Selecting Bob Smith on one card hides his Select button on both cards that list him
      (Software Engineer and Product Manager), while Alice Johnson, listed beside him, can still
      be selected. */
  method SelectBobScenario() returns (engineerRows: seq<ApplicantRow>, managerRows: seq<ApplicantRow>)
    ensures |engineerRows| == 2 && |managerRows| == 1
    ensures engineerRows[0].name == "Alice Johnson" && engineerRows[0].showSelect
    ensures engineerRows[1].name == "Bob Smith" && !engineerRows[1].showSelect
    ensures engineerRows[1].textDecoration == "line-through"
    ensures managerRows[0].name == "Bob Smith" && !managerRows[0].showSelect
  {
    var view := new JobApplicantsVisualizer();
    view.HandleSelectApplicant("Bob Smith");
    var selected := view.selectedApplicants;
    assert selected == {"Bob Smith"};
    BobSelectedRows(selected);
    var cards := view.View();
    assert cards == RoleCards(ApplicantsData, selected);
    engineerRows, managerRows := cards[0].rows, cards[2].rows;
  }

  /** The Software Engineer and Product Manager cards once only Bob Smith is selected. */
  lemma BobSelectedRows(selected: set<string>)
    requires selected == {"Bob Smith"}
    ensures var cards := RoleCards(ApplicantsData, selected);
      && |cards| == 4
      && cards[0].rows == [RowFor(ApplicantsData[0], selected), RowFor(ApplicantsData[1], selected)]
      && cards[2].rows == [RowFor(ApplicantsData[1], selected)]
      && ApplicantsData[0].name !in selected && ApplicantsData[1].name in selected
  {
    ApplicantsDataCards();
    assert |"Alice Johnson"| == 13 && |"Bob Smith"| == 9;
  }
}
