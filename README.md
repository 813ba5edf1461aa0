# Parking dashboard business rules, in Dafny

A parking-lot dashboard has three screens:
- a registration form for incoming vehicles;
- an active-session board listing parked and completed sessions, with a time-out action;
- a history ledger with search, sort, totals and delete.

This project models the rules those screens apply to parking sessions and proves properties of them.

The rules modelled:
- **Billing**: 20 per started hour, never negative.
- **Duration display**: `N/A`, `Invalid`, `Hh Mm` or `Mm`.
- **History ledger**: the four-field case-insensitive search, the stable sort on one of four columns in either direction, the header/footer/export totals, and the local delete with its one-row confirmation.
- **Active-session board**: the status tabs combined with the search, the open/completed counts, per-vehicle-type counts, the completed-revenue total, and the time-out modal.
- **Registration form**: the validator with its field-to-message object, single-field edits, the submit path that resets the form, and the slot picker that disables occupied slots.

Modelling conventions:
- A session is the datatype `Sessions.Session`. Every field but the id is optional.
- Times are integer milliseconds. `None` stands for every value the code treats as false: missing, `null`, or `""`.
- Pure derivations (`filter`, `reduce`, `sort`, the validators) are functions, with lemmas about them.
- Component state that event handlers overwrite is a class with one field per state variable: `HistoryList.Ledger`, `TransactionList.Board` and `TransactionForm.Registration`. Each handler is a method whose postcondition gives the whole new state.
- Remote calls (create, update, list, delete, the occupied-slot list) are not modelled. Their outcome is a parameter of the method that awaits them: a `bool` for success, or an `Option` holding the fetched data.

Files:
- `text.dfy`: ASCII case mapping, ECMAScript `trim`, `includes`, decimal formatting, string `<`.
- `sessions.dfy`: the session record and `filter` with its lemmas.
- `billing.dfy`: revenue and duration.
- `history_list.dfy`, `transaction_list.dfy`, `transaction_form.dfy`: one module per screen.

## Model

| member | source | states |
|---|---|---|
| Text.UpperCharFacts | src/components/TransactionForm.jsx:51-52 | Upper-casing maps a-z to A-Z, returns A-Z and digits unchanged, and never yields a lower-case letter |
| Text.TrimStartFacts | src/components/TransactionForm.jsx:42-47 | trimStart leaves a suffix that is empty or starts with a non-space; everything dropped is white space |
| Text.TrimEndFacts | src/components/TransactionForm.jsx:42-47 | trimEnd leaves a prefix that is empty or ends with a non-space; everything dropped is white space |
| Text.TrimEmptyIff | src/components/TransactionForm.jsx:42-47 | `s.trim()` is empty exactly when every character of `s` is white space |
| Text.ContainsIff | src/components/HistoryList.jsx:76-81 | `hay.includes(needle)` holds exactly when `needle` occurs at some index of `hay` |
| Text.ContainsEmpty | src/components/HistoryList.jsx:76-81 | The empty search term is included in every string |
| Text.NatToString | src/components/HistoryList.jsx:114-117 | The decimal text of a number is non-empty and all digits |
| Text.NatToStringRoundTrip | src/components/HistoryList.jsx:114-117 | The decimal text of a number reads back to that number |
| Text.StrLessIrreflexive | src/components/HistoryList.jsx:83-92 | String `<` never holds between a string and itself |
| Text.StrLessTransitive | src/components/HistoryList.jsx:83-92 | String `<` is transitive |
| Text.StrLessTotal | src/components/HistoryList.jsx:83-92 | Of two different strings one is `<` the other |
| Sessions.Filter | src/components/TransactionList.jsx:82-83 | A filter result is no longer than its input and holds exactly the input elements that pass |
| Sessions.FilterFacts | src/components/HistoryList.jsx:76-81 | A filter keeps order (subsequence) and keeps every copy of a passing element and none of a failing one |
| Sessions.FilterCommutes | src/components/HistoryList.jsx:60 | Two filters give the same result in either order |
| Sessions.FilterPartition | src/components/TransactionList.jsx:82-83 | Filters by complementary predicates split the list: the sizes add up to its length |
| Sessions.FilterCongruent | src/components/TransactionList.jsx:69-80 | Predicates that agree on every element filter alike |
| Sessions.FilterAll | src/components/TransactionList.jsx:69-80 | Filtering by a predicate every element passes returns the list unchanged |
| Sessions.FilterCount | src/components/TransactionList.jsx:82-83 | The length of a filter result is the number of positions whose element passes |
| Billing.BilledHours | src/components/HistoryList.jsx:125 | `Math.ceil(d / 3600000)`: the least h with d <= h hours |
| Billing.Revenue | src/components/HistoryList.jsx:120-128 | Revenue is never negative, is a multiple of 20, and is 0 when either time is missing |
| Billing.RevenueOfInterval | src/components/HistoryList.jsx:125-127 | For an interval d, revenue is 0 if d <= 0 and otherwise 20 per started hour |
| Billing.RevenueMonotone | src/components/HistoryList.jsx:125-127 | With the entry fixed, a later exit never costs less |
| Billing.RevenueOfWholeAndPartialHours | src/components/HistoryList.jsx:125-127 | Exactly k hours cost 20k; any further part of an hour costs exactly 20 more |
| Billing.TotalRevenue | src/components/HistoryList.jsx:130-132 | The header total is never negative and is a multiple of 20 |
| Billing.TotalRevenuePermutation | src/components/HistoryList.jsx:355-357 | A total does not depend on the order of the sessions |
| Billing.TotalRevenueOfCompleted | src/components/TransactionList.jsx:61-67 | Summing over completed sessions only equals summing over all, since open sessions are charged 0 |
| Billing.DurationOf | src/components/HistoryList.jsx:102-113 | N/A exactly when a time is missing and Invalid exactly when exit < entry; otherwise whole hours and minutes (< 60) that bound the interval from below to the minute |
| Billing.Show | src/components/HistoryList.jsx:114-117 | The duration text is never empty and ends in `m` exactly when it shows elapsed time, so it is never confused with N/A or Invalid |
| Billing.CalculateDuration | src/components/HistoryList.jsx:102-118 | The text shown for two times reads back to the duration of the interval between them |
| Billing.ShowRoundTrip | src/components/HistoryList.jsx:114-117 | The duration text ("Hh Mm", "Mm", "N/A", "Invalid") reads back to the duration shown, so the display is unambiguous |
| Billing.TwoAndAHalfHours | src/components/HistoryList.jsx:102-128 | 08:00 to 10:30 shows "2h 30m" and is charged 60 |
| HistoryList.FilteredHistory | src/components/HistoryList.jsx:76-81 | The search keeps order and keeps a session (every copy) exactly when its owner, vehicle, plate or slot contains the term, case-insensitively; absent fields never match |
| HistoryList.MatchesSearch | src/components/HistoryList.jsx:76-81 | A session with none of owner, vehicle, plate and slot never matches; FieldMatchesIff gives each field's match |
| HistoryList.EmptySearch | src/components/HistoryList.jsx:76-81 | An empty search keeps exactly the sessions with at least one of the four fields |
| HistoryList.FieldMatchesIff | src/components/HistoryList.jsx:76-81 | A field matches exactly when it is present and the lower-cased term occurs in it lower-cased |
| HistoryList.KeyLessOrder | src/components/HistoryList.jsx:83-92 | The key order the comparator uses is a strict total order |
| HistoryList.Compare | src/components/HistoryList.jsx:83-92 | The comparator answers -1, 0 or 1; CompareFacts states when each is given |
| HistoryList.CompareFacts | src/components/HistoryList.jsx:83-92 | The comparator returns 0 exactly on equal keys, is antisymmetric, and is <= 0 exactly when the pair is in the chosen direction |
| HistoryList.InOrderTransitive | src/components/HistoryList.jsx:83-92 | "May stand before" is transitive in either direction |
| HistoryList.Insert | src/components/HistoryList.jsx:83-92 | Inserting one session adds exactly that session to the multiset |
| HistoryList.InsertSorted | src/components/HistoryList.jsx:83-92 | Inserting into a sorted sequence keeps it sorted |
| HistoryList.SortSessions | src/components/HistoryList.jsx:83-92 | The sorted copy is a permutation of its input, with keys non-decreasing (asc) or non-increasing (desc) between neighbours |
| HistoryList.InsertKeepsTies | src/components/HistoryList.jsx:83-92 | Insertion never reorders sessions that share a key |
| HistoryList.SortIsStable | src/components/HistoryList.jsx:83-92 | For every key, the sessions with that key come out in the order they went in |
| HistoryList.SortedPairs | src/components/HistoryList.jsx:83-92 | In a sorted sequence every earlier session may stand before every later one |
| HistoryList.ReverseSorted | src/components/HistoryList.jsx:83-92 | Reading an ascending arrangement backwards gives a descending one |
| HistoryList.SortedUnique | src/components/HistoryList.jsx:83-92 | With distinct keys a multiset has only one sorted arrangement |
| HistoryList.DescendingIsReversedAscending | src/components/HistoryList.jsx:83-92 | With distinct keys the descending order is the ascending order reversed |
| HistoryList.SortedHistory | src/components/HistoryList.jsx:83-92 | The rows on screen are a rearrangement of the search result, ordered on the chosen column in the chosen direction |
| HistoryList.VisibleTotals | src/components/HistoryList.jsx:750-756 | The footer and export count is at most the number of sessions, and their revenue lies between 0 and the header total |
| HistoryList.VisibleTotalsOfFiltered | src/components/HistoryList.jsx:750-756 | The footer and export count and revenue over the sorted rows equal those over the filtered rows |
| HistoryList.FilteredRevenueAtMostTotal | src/components/HistoryList.jsx:130-132 | Any filtered revenue is at most the header total over the whole history |
| HistoryList.RemoveId | src/components/HistoryList.jsx:60 | After removal no session has the id; the rest keep their order and every copy |
| HistoryList.RemoveIdThenSearch | src/components/HistoryList.jsx:60 | Deleting then searching shows the same rows as searching then deleting |
| HistoryList.RemovedIdNotShown | src/components/HistoryList.jsx:55-74 | After a delete no visible row, under any search and sort, has the deleted id |
| HistoryList.Ledger.constructor | src/components/HistoryList.jsx:6-15 | Empty history, empty search, sort by exit time descending, nothing armed, no error |
| HistoryList.Ledger.LoadHistory | src/components/HistoryList.jsx:21-33 | A successful load replaces the history and clears the error; a failed one keeps the list and sets the load error |
| HistoryList.Ledger.SetSearchTerm | src/components/HistoryList.jsx:526 | Only the search term changes |
| HistoryList.Ledger.SetSortBy | src/components/HistoryList.jsx:532-541 | Only the sort column changes |
| HistoryList.Ledger.ToggleSortOrder | src/components/HistoryList.jsx:544 | The direction flips; nothing else changes |
| HistoryList.Ledger.ArmDelete | src/components/HistoryList.jsx:726-728 | Exactly the chosen row shows the confirmation; nothing else changes |
| HistoryList.Ledger.CancelDelete | src/components/HistoryList.jsx:718-720 | No row shows the confirmation; nothing else changes |
| HistoryList.Ledger.HandleDeleteLocal | src/components/HistoryList.jsx:55-74 | History loses every session with the id, the rest in order; no visible row has it; confirmation, busy marker and error are cleared; view controls unchanged |
| HistoryList.AtMostOneArmed | src/components/HistoryList.jsx:708-734 | At most one id is armed for deletion; every row with that id shows the confirmation |
| TransactionList.CalculateTotalRevenue | src/components/TransactionList.jsx:61-67 | The board's revenue over completed sessions equals the revenue of all sessions |
| TransactionList.SearchAgreesWithHistory | src/components/TransactionList.jsx:74-77 | When owner, vehicle and plate are present, the board searches exactly as the history ledger does |
| TransactionList.SearchOutcome | src/components/TransactionList.jsx:74-77 | The board's search throws only on a session missing owner, vehicle or plate, and whenever it answers it answers as the history ledger's search |
| TransactionList.FilteredTransactions | src/components/TransactionList.jsx:69-80 | Rendering fails exactly when a session lacks a field the search reads unguarded; otherwise the result is the sessions passing both the tab and the search, in order |
| TransactionList.FilteredTransactionsFacts | src/components/TransactionList.jsx:69-80 | Whenever the board renders, it shows an order-preserving subsequence holding every copy of each session kept by tab and search, and no other |
| TransactionList.ActiveCount | src/components/TransactionList.jsx:82 | The active count is the number of sessions without an exit time |
| TransactionList.CompletedCount | src/components/TransactionList.jsx:83 | The completed count is the number of sessions with an exit time |
| TransactionList.CountsPartition | src/components/TransactionList.jsx:82-83 | Active count + completed count = number of sessions |
| TransactionList.EmptySearchTabs | src/components/TransactionList.jsx:69-83 | With an empty search, whenever every session has an owner, All shows everything, and Active and Completed show exactly the sessions their badges count |
| TransactionList.VehicleTypeCount | src/components/TransactionList.jsx:94-96 | The count for a type is the number of sessions whose type is exactly that string |
| TransactionList.BikesCard | src/components/TransactionList.jsx:206 | The Bikes card (bike count + e-bike count) is the number of sessions that are either |
| TransactionList.Board.constructor | src/components/TransactionList.jsx:5-11 | No sessions, tab All, empty search, modal closed with nothing selected; every handler keeps the modal either closed or open on a selected session |
| TransactionList.Board.LoadTransactions | src/components/TransactionList.jsx:17-27 | A successful load replaces the list; a failed one keeps it |
| TransactionList.Board.SetActiveFilter | src/components/TransactionList.jsx:219-235 | Only the tab changes |
| TransactionList.Board.SetSearchTerm | src/components/TransactionList.jsx:126 | Only the search term changes |
| TransactionList.Board.OpenModal | src/components/TransactionList.jsx:29-33 | The modal opens on the session, with its exit time pre-filled (empty when it has none) |
| TransactionList.Board.EditExitTime | src/components/TransactionList.jsx:481 | Only the exit-time field changes |
| TransactionList.Board.CancelModal | src/components/TransactionList.jsx:491-493 | Only `isOpen` changes, to closed; nothing is sent |
| TransactionList.Board.HandleUpdate | src/components/TransactionList.jsx:35-47 | Nothing is sent when no session is selected; otherwise the selected session is sent with only its exit time replaced; the modal closes only on success, and the list is replaced only when the update and the reload both succeed |
| TransactionForm.Form.With | src/components/TransactionForm.jsx:33 | Setting one field leaves every other field as it was |
| TransactionForm.PlateValid | src/components/TransactionForm.jsx:51-52 | A valid plate has six characters; PlateValidIff characterises it completely |
| TransactionForm.PlateValidIff | src/components/TransactionForm.jsx:51-54 | A plate passes exactly when it is six characters: three ASCII letters of either case, then three digits |
| TransactionForm.PlateAcceptsLowerCase | src/components/TransactionForm.jsx:51-54 | "abc123" passes |
| TransactionForm.PlateAcceptsUpperCase | src/components/TransactionForm.jsx:51-54 | "ABC123" passes |
| TransactionForm.PlatesRejected | src/components/TransactionForm.jsx:51-54 | "AB123", "ABC12", "ABC1234", "12ABC3" and "ABCDEF" fail |
| TransactionForm.Errors.With | src/components/TransactionForm.jsx:35 | Setting one field's message leaves every other field's entry as it was |
| TransactionForm.ErrorsFor | src/components/TransactionForm.jsx:39-61 | The error object the rules give for a form; ErrorsForMessages states which entries it holds |
| TransactionForm.ErrorsForMessages | src/components/TransactionForm.jsx:39-61 | The error object holds a field's message exactly when that field's rule fails, and shows it exactly then |
| TransactionForm.EmptyFormFailsEveryRule | src/components/TransactionForm.jsx:73-80 | The reset form fails every rule, so a second submit straight after a successful one sends nothing |
| TransactionForm.ValidateAcceptsIff | src/components/TransactionForm.jsx:39-63 | Validation passes exactly when both names hold a non-space character, the type, entry time and slot are non-empty, and the plate matches |
| TransactionForm.AllSlotsShape | src/components/TransactionForm.jsx:98-104 | The slots are the 25 pairs A1..E5, row by row |
| TransactionForm.AllSlotsDistinct | src/components/TransactionForm.jsx:98-104 | Each slot name reads back to its own position, so no slot is offered twice |
| TransactionForm.SlotOptions | src/components/TransactionForm.jsx:360-368 | One option per slot, in order, disabled exactly when the slot is occupied |
| TransactionForm.SelectableSlots | src/components/TransactionForm.jsx:360-368 | A slot can be picked exactly when it is offered and not occupied |
| TransactionForm.Registration.Options | src/components/TransactionForm.jsx:360-368 | The picker offers the 25 slots in order, each disabled exactly when it is in the occupied list |
| TransactionForm.Registration.constructor | src/components/TransactionForm.jsx:5-15 | Empty form, no errors, no occupied slots |
| TransactionForm.Registration.LoadSlots | src/components/TransactionForm.jsx:20-30 | A successful slot request replaces the occupied list; a failed one keeps it |
| TransactionForm.Registration.Validate | src/components/TransactionForm.jsx:39-64 | The error object is replaced by the one the rules give for the form, and the result is true exactly when it has no key |
| TransactionForm.Registration.HandleChange | src/components/TransactionForm.jsx:32-37 | Only the named field changes; its message is blanked if one was shown and no other entry changes; no key is added or removed |
| TransactionForm.Registration.HandleSubmit | src/components/TransactionForm.jsx:66-96 | Nothing is sent unless validation passes; what is sent is the form; after a successful create the form is empty, errors are cleared, and the slots are re-fetched |

## Left out

- src/components/services/api.js and src/App.js are not part of this model. Each remote call's outcome is a parameter of the method that awaits it.
- Date parsing and locale formatting: `new Date(string)` and `toLocaleString`. Times are integer milliseconds. A date string that does not parse, which would turn revenue into NaN and the duration into "NaNm", is not modelled.
- The sort compares the raw field values. For times these are ISO date strings, compared as strings; the model compares the milliseconds they stand for, which agree for timestamps written in one fixed format.
- HistoryList.KeyLess: the JavaScript comparator reports a missing key (undefined) as equal to every other key, which is not a consistent order. The model puts missing keys first instead.
- Text.StrLess: compares characters by code point; JavaScript compares UTF-16 code units. The two differ only for characters outside the Basic Multilingual Plane.
- Text.Lower and Text.Upper: case mapping covers ASCII letters only. Full Unicode case mapping is not modelled.
- Anything that reads the wall clock is not modelled: the "so far" duration of open sessions, the time-out estimate, and generated-on stamps.
- The average-duration stat and the rounded minute display use floating-point division and `Math.round`, and are not modelled.
- Not modelled: receipt and PDF generation, `window.open`, printing, `alert`, `console`, `setTimeout`, the success banner, the focus highlight, the loading and submitting flags, the `onAdded` callback, and click-outside listeners.
- The detached remote delete in `handleDeleteLocal` and its late error banner are asynchronous and are not modelled. Neither is `handleDeleteTransaction`, which the screen never calls.
- The "N of 25 slots occupied" line shows the raw length of the fetched list and is not modelled.
- Each asynchronous handler is modelled as one atomic step that takes the remote answer as a parameter. Interleavings are not modelled: two list requests in flight whose answers arrive out of order, or an edit made while a submit is pending.
- Three rules a reader might expect are not enforced by the code, and the model follows the code:
  - The vehicle type is not checked against the five offered types, only for being non-empty (`ValidateAcceptsIff`).
  - An occupied slot is not refused by validation. Any non-empty slot passes, and only the picker disables occupied options (`SlotOptions`).
  - The board does fail on an absent field: its search reads owner, vehicle and plate without a guard, and `FilteredTransactions` returns `None` when the search reaches a missing one.
- HistoryList.DescendingIsReversedAscending: proved only for distinct keys. With tied keys the stable sort keeps tied sessions in input order in both directions, so the descending order is not the exact reverse of the ascending one.
