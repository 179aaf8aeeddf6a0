# Job applicants view: a Dafny model

This project models the data logic of `JobApplicantsVisualizer` in `src/App.js` of the
ctc-delibs repository. That React view shows a hardcoded list of three applicants. Each
applicant has a name and the roles the applicant applied for. The view shows:

- one card per distinct role, in the order roles are first met, listing the applicants who
  applied for that role;
- a Select button beside every applicant whose name is not yet selected; a selected name is
  struck through and greyed on every card;
- a pie chart of how many applications each role received, coloured from a four-colour
  palette taken in rotation.

The model lifts that logic out of the JSX:

- `Sequences`: duplicate-free sequences, subsequences and first occurrences, plus
  `Distinct`, the first-occurrence deduplication that `[...new Set(xs)]` performs.
- `Applicants`: the `Applicant` datatype and the hardcoded list (`ApplicantsData`).
  `Flatten` is the `flatMap` of roles, `DistinctRoles` the card headings, and `ApplicantsFor`
  the per-role `filter`.
- `RoleCounts`: the `roleCounts` dictionary. A JavaScript object keeps its keys in insertion
  order, and that order later picks the pie colours. So the dictionary is modelled as
  `Counts(keys, count)`: the key order plus the entries. `Bump` is one step of the `reduce`.
  `Tally` is the dictionary after a whole run. `CountRoles` is the reduce as a loop that
  rebinds the accumulator at each step, proved against `Tally`.
- `PieChart`: the palette `Colors`, the `Slice` records and `PieData`, the `pieData` series.
- `Selection`: the selection state, as the class `JobApplicantsVisualizer` with the field
  `selectedApplicants: set<string>`. `WithSelected` is the state updater that
  `handleSelectApplicant` passes to React. `RowFor`, `CardRows` and `RoleCards` give what each
  row shows: strike-through, colour and whether the Select button is present.

The applicant list is a constant. Selection is one global set of applicant names, shared by
every role card. There is no unselect.

## Model

| member | source | states |
|---|---|---|
| `Sequences.Distinct` | src/App.js:62 | `[...new Set(s)]` has no duplicates and holds exactly the elements of `s` |
| `Sequences.DistinctInDiscoveryOrder` | src/App.js:62 | the deduplicated elements appear in the order of their first occurrence in `s` |
| `Applicants.Flatten` | src/App.js:38 | a role occurs in the flattened list iff some applicant lists it |
| `Applicants.DistinctRoles` | src/App.js:61-62 | the card roles have no duplicates and are exactly the roles some applicant lists, ordered by first occurrence in the flattened list |
| `Applicants.ApplicantsFor` | src/App.js:80-83 | the per-role `filter`, a definition; its properties are stated by `ApplicantsForMembers`, `ApplicantsForIsSubsequence` and `ApplicantsForMultiplicity` |
| `Applicants.ApplicantsForMembers` | src/App.js:80-83 | a role's card lists an applicant iff the applicant is in the list and its roles include the role; an unknown role lists nobody |
| `Applicants.ApplicantsForIsSubsequence` | src/App.js:80-83 | the applicants under a role are a subsequence of the applicant list, in its order |
| `Applicants.ApplicantsForMultiplicity` | src/App.js:80-83 | the filter keeps each matching applicant as many times as the list holds it and drops every other applicant |
| `Applicants.ApplicantListedSomewhere` | src/App.js:61-83 | every applicant with a non-empty roles list appears under at least one card role |
| `Applicants.ApplicantsDataRoles` | src/App.js:15-19 | the flattened roles of the hardcoded list, applicant by applicant |
| `RoleCounts.Bump` | src/App.js:40 | one reduce step `acc[role] = (acc[role] \|\| 0) + 1`, a definition; its properties are stated by `BumpKeepsValid` |
| `RoleCounts.Tally` | src/App.js:37-42 | the dictionary after the whole reduce, a definition; its properties are stated by `TallyValid`, `TallyCountsOccurrences` and `TallySum`, and `CountRoles` is proved equal to it |
| `RoleCounts.BumpKeepsValid` | src/App.js:40 | one reduce step raises the visited role's entry by one, leaves every other entry alone, and keeps each key listed exactly once in the key order |
| `RoleCounts.TallyValid` | src/App.js:39-42 | after any run of the reduce, the key order lists each entry exactly once |
| `RoleCounts.TallyCountsOccurrences` | src/App.js:37-42 | the keys are the distinct roles in first-occurrence order; a role has a key iff it occurs; its entry is its number of occurrences, at least 1 |
| `RoleCounts.TallySum` | src/App.js:37-42 | the entries add up to the length of the flattened roles list |
| `RoleCounts.CountRoles` | src/App.js:37-42 | the loop, rebinding the accumulator at each step, builds the reduce's dictionary: keys equal the card roles, counts equal occurrence counts (at least 1), entries sum to the number of applications |
| `RoleCounts.TallyOfApplicantsData` | src/App.js:15-19 | on the hardcoded list: four keys in discovery order with counts 2, 2, 1, 1 |
| `RoleCounts.DistinctRolesOfApplicantsData` | src/App.js:61-62 | on the hardcoded list the cards are Software Engineer, Data Analyst, Product Manager, UX Designer |
| `PieChart.PieData` | src/App.js:44-48 | one slice per dictionary key, in key order, named by the key, valued by its entry, filled with a palette colour |
| `PieChart.PieFillsRotate` | src/App.js:21 | the first four slices take the four palette colours in order; each later slice repeats the colour four places before it (`index % COLORS.length`) |
| `PieChart.TotalValueIsSum` | src/App.js:44-48 | the slices' values add up to the sum of the dictionary's entries |
| `PieChart.PieDataOfApplicants` | src/App.js:37-48 | built from an applicant list, the series has one slice per distinct role in discovery order, values equal occurrence counts (at least 1), and values total the number of applications |
| `PieChart.ApplicantsDataChart` | src/App.js:44-48 | on the hardcoded list the chart is Software Engineer 2, Data Analyst 2, Product Manager 1, UX Designer 1, in the palette's four colours |
| `Selection.WithSelected` | src/App.js:28 | the updater adds the name, keeps every previously selected name, and adds nothing else |
| `Selection.SelectIdempotent` | src/App.js:28 | selecting an already selected name leaves the set unchanged |
| `Selection.SelectCommutes` | src/App.js:28 | two selections give the same set in either order |
| `Selection.RowFor` | src/App.js:90-122 | a row shows the Select button iff its name is not selected; a row without the button is struck through and grey; a row with it is undecorated and black |
| `Selection.CardRows` | src/App.js:80-124 | one row per applicant listed under the role, in filter order, carrying that applicant's name; which rows these are is stated by `CardListsApplicants` |
| `Selection.RoleCards` | src/App.js:61-128 | one card per distinct role, in discovery order, headed by that role; their rows are stated by `CardListsApplicants` and `SelectionIsGlobalByName` |
| `Selection.CardListsApplicants` | src/App.js:80-124 | a card's rows are exactly the rows of the applicants whose roles include the card's role |
| `Selection.SelectionIsGlobalByName` | src/App.js:92-122 | on every card, a row's Select button is shown iff its name is unselected, and it is struck through iff its name is selected |
| `Selection.SelectChangesOnlyThatName` | src/App.js:27-28 | selecting a name changes no card's role or row count and no row of any other name |
| `Selection.ApplicantsDataCards` | src/App.js:61-83 | on the hardcoded list the cards list Alice and Bob, Alice and Charlie, Bob, and Charlie |
| `Selection.SelectBobScenario` | src/App.js:108-122 | after selecting Bob Smith, his rows on the Software Engineer and Product Manager cards have no Select button and his Software Engineer row is struck through, while Alice Johnson's row keeps its button |
| `Selection.JobApplicantsVisualizer.IsSelected` | src/App.js:92-108 | `selectedApplicants.has(name)`, a definition; what it decides on every card is stated by `SelectionIsGlobalByName` |
| `Selection.JobApplicantsVisualizer.View` | src/App.js:61-128 | the current applicant list shows four cards: Software Engineer, Data Analyst, Product Manager, UX Designer |
| `Selection.JobApplicantsVisualizer.constructor` | src/App.js:24 | the selection starts empty |
| `Selection.JobApplicantsVisualizer.HandleSelectApplicant` | src/App.js:27-28 | the new selection is the old one plus the name; no name is removed; every row with that name, on every card, loses its Select button |

## Left out

- JSX layout and Chakra UI styling (`src/App.js:50-157`). The only parts kept are the three
  attributes that depend on the selection: text decoration, text colour and the Select button.
- The toast that `handleSelectApplicant` raises (`src/App.js:29-34`). It is a side effect through
  a UI hook, so `HandleSelectApplicant` models only the state update.
- The recharts components and slice geometry (`src/App.js:135-153`). This is floating-point
  layout in a foreign library. Only the `pieData` series is modelled.
- React's `useState` scheduling and re-rendering. The state is a field of a class, and one call
  of `HandleSelectApplicant` applies the update at once.
- HandleSelectApplicant: the source always stores a fresh `Set` object, so React sees a new
  reference even when the name was already selected. Dafny sets are values, so the model keeps
  the contents and not object identity.
- React `key` props (`key={role}`, `key={applicant.name}`). Duplicate applicant names would
  give duplicate keys; the model does not represent keys.
- JavaScript object key order for integer-like role names. Such keys are listed first, in
  numeric order. The model assumes role names are not integer-like, so key order is insertion
  order.
- Role names that are `Object.prototype` properties (`constructor`, `toString`, `__proto__`).
  In `roleCounts` these read an inherited value instead of `undefined`. The model treats every
  role name as an ordinary key. The hardcoded list contains no such name.
