# Split-a-bill widget: a Dafny model

This project models the state machine of a small expense-sharing widget. The widget keeps a list of friends with running balances and lets the user select one friend. It has a form that splits a bill with the selected friend and a form that adds a friend. All of the logic lives in the event handlers of `src/App.jsx`. Here it is separated from the markup:

- `friends.dfy`, module `Friends`: the values and pure computations. These are the friend record, the payer, the per-id balance update, the selection toggle, the split delta, the expense clamp, the new-friend record and the three-way balance message. The lemmas that relate them are here too.
- `components.dfy`, module `Components`: the three components whose state the handlers change through setters. They are classes `App` (`friends`, `showAddUser`, `activeFriend`), `FormAddFriend` (`name`, `image`) and `FormSplitBill` (`bill`, `userExpense`, `payer`). Each handler is a method whose `ensures` gives the whole new state. Three client methods at the end replay concrete sessions.

Modelling choices:

- Amounts and balances are `int`. An empty numeric field is 0, so the submit guard "`bill` or `userExpense` is falsy" becomes "either is 0".
- The payer is `You | TheFriend`, not a string comparison.
- Only one expense input is editable at a time, the one belonging to the payer. Both inputs write `userExpense`. So `userExpense` is the user's expense when the user pays and the friend's expense when the friend pays. `SplitDelta` is tied to an independent accounting definition: what the user paid minus the user's own share.
- The generated id is a parameter of `FormAddFriend.HandleSubmit`. The initial registry is a parameter of the `App` constructor.
- Id uniqueness is not assumed. `App.Consistent()` states it, together with "the selection is in the registry", as a hypothesis that the `App` handlers and both form submits are proved to preserve.
- The add-friend button only flips `showAddUser` (`src/App.jsx:43`, `:102`). It does not clear the selection, and `App.ToggleAddPanel` follows the code.

## Model

| member | source | states |
|---|---|---|
| `Friends.ApplySplit` | src/App.jsx:21-26 | the registry keeps its length and order; every entry with the given id becomes that entry with `balance + delta`; every other entry is unchanged |
| `Friends.ApplySplitUnknownId` | src/App.jsx:22-26 | a split for an id that no entry carries leaves the registry equal to the old one |
| `Friends.ApplySplitKeepsIds` | src/App.jsx:22-26 | a split leaves the set of ids present unchanged and keeps unique ids unique |
| `Friends.ApplySplitTotal` | src/App.jsx:21-26 | the sum of all balances moves by `delta` times the number of entries carrying the id |
| `Friends.CountIdUnique` | src/App.jsx:23 | with unique ids an id is carried by exactly one entry if present, by none otherwise |
| `Friends.ApplySplitTotalUnique` | src/App.jsx:20-27 | with unique ids and the id present, a split moves the sum of balances by exactly `delta` |
| `Friends.AppendKeepsUniqueIds` | src/App.jsx:11 | appending a record with a fresh id keeps ids unique and adds exactly that id |
| `Friends.IsActive` | src/App.jsx:72 | an entry is highlighted exactly when a friend is selected and its id equals the entry's id; the same test decides the toggle at line 16 |
| `Friends.Toggle` | src/App.jsx:16 | the new selection is none or the clicked friend, and it selects that friend (by id) exactly when the old one did not |
| `Friends.ActiveMarks` | src/App.jsx:59-72 | one highlight flag per entry, true exactly when the entry's id is the selected friend's id |
| `Friends.ActiveMarksAtMostOne` | src/App.jsx:72-75 | with unique ids no two entries are highlighted, and one is when the selected id is in the registry |
| `Friends.SplitDelta` | src/App.jsx:163 | the delta is what the user paid minus the user's share, and equally the friend's share minus what the friend paid |
| `Friends.SplitDeltaOpposite` | src/App.jsx:163 | for the same entries the two payers give exactly opposite deltas |
| `Friends.SplitDeltaSign` | src/App.jsx:163 | with an entry between 0 and the bill, the delta is non-negative when the user pays and non-positive when the friend pays |
| `Friends.SplitAllowed` | src/App.jsx:162 | a split is submitted only when neither the bill nor the expense is empty or 0 |
| `Friends.ClampExpense` | src/App.jsx:182-188 | the field becomes the entry when it is at most the bill, otherwise keeps its value; a field within the bill stays within it |
| `Friends.AddAllowed` | src/App.jsx:115 | a friend is added only when neither the name nor the image URL is empty |
| `Friends.DefaultImage` | src/App.jsx:110 | the avatar URL the add-friend form starts from, and is reset to at line 127 |
| `Friends.NewFriend` | src/App.jsx:117-123 | the new record has the given id and name, balance 0, and an image that is the template followed by `?=` and the id |
| `Friends.NewFriendImagesDistinct` | src/App.jsx:121 | two records built from the same template have equal images only when their ids are equal |
| `Friends.StatusLines` | src/App.jsx:79-91 | exactly one balance line is shown: you-owe iff balance < 0 (amount \|balance\|), owes-you iff balance > 0, even iff balance == 0 |
| `Components.App.constructor` | src/App.jsx:6-8 | the registry is the initial list, the add panel is closed and nothing is selected |
| `Components.App.HandleAddFriend` | src/App.jsx:10-13 | the registry is the old one with the record appended, the panel is closed, the selection is unchanged; a fresh id preserves `Consistent()` |
| `Components.App.HandleActiveFriend` | src/App.jsx:15-18 | the selection is toggled, a different friend replaces the old selection directly, the panel is closed and the registry is unchanged |
| `Components.App.HandleSplitBill` | src/App.jsx:20-30 | the registry is updated by id with `value`, the selection is cleared, the panel flag is untouched; under `Consistent()` the total balance moves by `value` |
| `Components.App.ToggleAddPanel` | src/App.jsx:102 | the panel flag is negated; registry and selection are unchanged |
| `Components.FormAddFriend.constructor` | src/App.jsx:109-110 | the name starts empty and the image at the default URL |
| `Components.FormAddFriend.SetName` | src/App.jsx:137 | the name field takes the typed value |
| `Components.FormAddFriend.SetImage` | src/App.jsx:144 | the image field takes the typed value |
| `Components.FormAddFriend.HandleSubmit` | src/App.jsx:112-129 | with name or image empty nothing changes; otherwise the registry grows by exactly the new record, the panel closes, the selection stays, and the fields reset to "" and the default URL; a fresh id preserves `Consistent()` |
| `Components.FormSplitBill.constructor` | src/App.jsx:155-157 | bill and expense start empty (0) and the user is the payer |
| `Components.FormSplitBill.SetBill` | src/App.jsx:174 | the bill takes the typed value, and the expense is not re-clamped |
| `Components.FormSplitBill.SetUserExpense` | src/App.jsx:182-188 | the expense is the clamped edit (the same handler is at lines 199-205): within the current bill or else unchanged |
| `Components.FormSplitBill.SetPayer` | src/App.jsx:212 | the payer takes the chosen value and the amounts stay |
| `Components.FormSplitBill.HandleSubmit` | src/App.jsx:159-164 | with bill or expense 0 the app is unchanged; otherwise the selected entry's balance moves by the split delta and the selection is cleared; `Consistent()` is preserved |
| `Components.SplitScenario` | src/App.jsx:15-30 | selecting a friend with balance -7 and splitting a 20 bill with expense 8, the user paying, gives balance 5, leaves the other friend alone and clears the selection |
| `Components.StaleExpenseScenario` | src/App.jsx:174-188 | an expense of 40 accepted on a bill of 50 survives lowering the bill to 30, and the user-paid split then lowers the balance by 10 |
| `Components.FormScenario` | src/App.jsx:112-129 | an edit to 60 on a bill of 50 leaves the expense at 10; adding "Ann" with a template gives balance 0 and image template + `?=` + id |

## Left out

- Rendering: JSX markup, CSS classes, the `<img>`, `<select>` and `Button` components. They are presentation. Only the `!showAddUser` toggle, the `isActive` flag and the balance lines (`StatusLines`) are modelled.
- `crypto.randomUUID()`: a foreign call. The id is a parameter, and its freshness appears only as the hypothesis of `App.Consistent()`.
- The `initialFriends` fixture from `./Friends`: that file is not part of this model. The initial registry is a constructor parameter.
- JavaScript number coercion and floating point: `Number(...)`, `''` against `0`, and `NaN` as a falsy value. Amounts are integers and an empty field is 0.
- The payer select stores a friend's name, and the code checks `payer === 'you'`. A friend literally named `you`, or a payer name left over from a previously selected friend, is not modelled. The payer is a two-valued choice.
- React lifecycle: draft fields discarded when a form unmounts, hooks called after the early `return` at line 153, and the stale `activeFriend` object snapshot. Only the selected id is used by the split.
- `Components.App.HandleSplitBill` and `Components.FormSplitBill.HandleSubmit` require a selection. The split form is not rendered without one (line 153), and `handleSplitBill` would dereference `null`.
