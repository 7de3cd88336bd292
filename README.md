# AcademicRecord leveling engine and record store, in Dafny

AcademicRecord is a single-page tracker of research papers. Each paper record carries:

- a venue tier (A, B, C or Other);
- a stage (Target, Writing, Submitted, Accepted or Rejected);
- a review result (Pending, Accepted, Rejected or Revision).

Accepted papers earn points by tier. The point total is placed on a quadratic level curve and shown as a level, an XP bucket and a progress bar, and the level is also named by a rank ladder.

The logic is written inline in two entry components that duplicate each other:

- `index.tsx` asks for confirmation in a dialog before deletes and before moves to Submitted or Rejected;
- `App.tsx` asks the browser before deletes and applies status changes at once.

The project models:

- **Types** (`types.dfy`): the record types of `types.ts`.
- **Records** (`records.dfy`): the list operations both components run on their ordered list of records:
  - filter, the id-keyed map, find;
  - the status-to-result rule, the form merge;
  - the tab view and the per-status counts;
  - an optional id-uniqueness invariant that every operation preserves.
- **LevelCurve** (`level_curve.dfy`): the level as the source computes it, `max(0, floor((-5 + sqrt(25 + 20 T)) / 10))`. It is taken over exact integers with an exact integer square root. It is proved to be the unique level `L` with `5 L (L+1) <= T < 5 (L+1) (L+2)`, and to be monotone.
- **Progression** (`progression.dfy`): the record the engine returns: level, in-level XP `currentXp` out of `requiredXp = 10 (L+1)`, and progress in percent.
- **Leveling** (`leveling.dfy`):
  - both point folds, the early-return callback of `index.tsx` and the else-if callback of `App.tsx`, each proved equal to one reference sum;
  - the properties of that sum;
  - how delete and status change move it.
- **Graduation** (`graduation.dfy`): the rank ladder of `getRankName`, the bar-width clamp and the "next tier" label.
- **Card** (`card.dfy`): the card's status-change buttons as a transition relation, the verdict label, its colour and the corner icon.
- **ConfirmingApp** (`confirming_app.dfy`): the component of `index.tsx` as a class. It holds the records, the tab, the form state and a pending-confirmation field. The dialog is a state machine: idle, then awaiting a delete or status change, then committed or cancelled.
- **PlainApp** (`plain_app.dfy`): the component of `App.tsx` as a class. The user's answer to the browser's confirmation box is a boolean parameter.

Records are kept most-recently-created first, and the components replace the whole list on every change. The classes hold the list as a `seq` field that each method reassigns.

## Model

| member | source | states |
|---|---|---|
| Records.Filter | index.tsx:198 | `filter` keeps exactly the elements satisfying the predicate, each as often as in the input, and drops at least one element when one fails the predicate |
| Records.FilterConcat | App.tsx:80 | filtering distributes over concatenation, so the kept elements stay in their relative order |
| Records.ReplaceById | index.tsx:157-166 | the id-keyed `map` keeps the length and rewrites exactly the records carrying the id, leaving every other index as it was |
| Records.Find | index.tsx:130-131 | `find` returns nothing exactly when no record carries the id, and otherwise the first record that does |
| Records.ResultAfter | index.tsx:162 | moving to Accepted or Rejected sets the matching result, any other move keeps the old one, so a status change never introduces Pending or Revision |
| Records.ResultAfterIdempotent | App.tsx:69 | applying the same status change twice derives the same result as applying it once |
| Records.WithStatus | index.tsx:159-163 | a status change sets the status; the result becomes Accepted or Rejected for those statuses and is kept otherwise; no other field changes |
| Records.UpdateStatus | App.tsx:64-73 | the list after a status change has the same length; records with the id are rewritten by the status rule and the others are untouched |
| Records.Merge | index.tsx:117 | `{ ...p, ...data }` takes every form field from the submitted data and keeps the record's `id` and `createdAt` |
| Records.MergeOwnFieldsIsIdentity | components/PaperModal.tsx:29-41 | submitting a record's own fields (the form pre-filled for an edit) leaves it unchanged |
| Records.NewRecord | index.tsx:120-124 | a new record carries the submitted fields, the supplied id and the supplied timestamp |
| Records.MergeEdit | App.tsx:29-31 | an edit keeps the length, merges the data into every record with the edited id, keeps their `id` and `createdAt`, and leaves other records untouched |
| Records.RemoveId | index.tsx:149 | after a delete, the remaining records are exactly those without the id, each as often as before; the list shrinks when the id was present |
| Records.RemoveUnknownIdIsNoOp | App.tsx:54 | deleting an id no record carries returns the list unchanged |
| Records.RemoveIdKeepsOrder | index.tsx:149 | deletion distributes over concatenation, so the survivors keep their order |
| Records.ByStatus | index.tsx:230-232 | a tab shows exactly the records in that status, each as often as in the list |
| Records.ByStatusKeepsOrder | App.tsx:79-81 | the tab view distributes over concatenation, so it lists records in store order |
| Records.Stats | index.tsx:222-228 | each counter is the length of its tab's filter, and the five counters add up to the number of records |
| Records.StatusCountsCoverAll | App.tsx:112-120 | the five status filters split the list: their lengths add up to its length |
| Records.UpdateStatusKeepsUniqueIds | index.tsx:157-166 | a status change keeps ids pairwise distinct |
| Records.MergeEditKeepsUniqueIds | App.tsx:30 | an edit keeps ids pairwise distinct |
| Records.RemoveIdKeepsUniqueIds | App.tsx:54 | a delete keeps ids pairwise distinct |
| Records.PrependFreshKeepsUniqueIds | index.tsx:120-125 | prepending a record whose id is not yet in the list keeps ids pairwise distinct |
| LevelCurve.Cumulative | index.tsx:208 | reaching level L costs at least 10 L points in total; each level costs 10 more than the one before |
| LevelCurve.CumulativeClosedForm | index.tsx:208 | the points at the start of level L are `5 L (L+1)` |
| LevelCurve.CumulativeMonotone | index.tsx:208 | a higher level never starts at fewer points |
| LevelCurve.ISqrt | index.tsx:206 | the square root is the exact integer floor: `r^2 <= n < (r+1)^2` |
| LevelCurve.Level | index.tsx:206-207 | the computed level satisfies `5 L (L+1) <= T < 5 (L+1) (L+2)`: the total lies in that level's bracket |
| LevelCurve.LevelUnique | index.tsx:206-207 | the level is the only one whose bracket holds the total |
| LevelCurve.LevelIsLargest | index.tsx:206-207 | the level is the largest L with `5 L (L+1) <= T` |
| LevelCurve.LevelMonotone | index.tsx:206-207 | more points never give a lower level |
| LevelCurve.LevelIsSqrtFloor | index.tsx:206 | `(10 L + 5)^2 <= 25 + 20 T < (10 L + 15)^2`, the square-root bracket behind the closed form |
| Progression.LevelAtThreshold | index.tsx:206-208 | a total of exactly `5 L (L+1)` points is level L |
| Progression.LevelBelowThreshold | index.tsx:206-208 | one point short of level L+1 is still level L |
| Progression.Percent | index.tsx:211 | `x / d * 100` lies in [0, 100) and satisfies `p * d == 100 x` |
| Progression.FromTotal | index.tsx:206-219 | the engine reports the total, its level, `requiredXp = 10 (L+1) >= 10`, `currentXp = T - 5 L (L+1)` with `0 <= currentXp < requiredXp`, and progress in [0, 100) |
| Progression.LevelExamples | index.tsx:206-207 | totals 0 and 9 are level 0, 10 is level 1 and 125 is level 4 |
| Progression.WorkedExample | index.tsx:197-219 | 125 points are level 4 with 25 of 50 XP |
| Progression.PercentExamples | index.tsx:211 | 0 of 10 is 0 %, 9 of 10 is 90 %, 0 of 20 is 0 % and 25 of 50 is 50 % |
| Leveling.TierPoints | index.tsx:200-203 | a tier's reward is a multiple of 5 between 5 and 50 |
| Leveling.Reduce | index.tsx:199-204 | `reduce` is a left fold: the empty list gives the start value, and the last record is folded in on top of the fold of all the others |
| Leveling.EarlyReturnScore | index.tsx:199-204 | the early-return callback adds exactly the tier reward of the record to the accumulator |
| Leveling.ElseIfScore | App.tsx:86-93 | the else-if callback adds exactly the tier reward of the record to the accumulator |
| Leveling.ReduceIsTierSum | index.tsx:199-204 | a left fold whose callback adds the tier reward computes the start value plus the sum of the rewards |
| Leveling.TierSumOfAccepted | index.tsx:198-204 | summing rewards over the accepted records equals the reference total, which counts only accepted records |
| Leveling.TotalPointsEarlyReturn | index.tsx:198-204 | the filter-then-fold total with early returns equals the reference sum of the rewards of accepted records |
| Leveling.TotalPointsElseIf | App.tsx:84-93 | the filter-then-fold total with the else-if chain equals the same reference sum |
| Leveling.PointsConcat | index.tsx:199 | the total of a concatenation is the sum of the totals |
| Leveling.PointsMultipleOfFive | index.tsx:199-204 | the total is a multiple of 5 |
| Leveling.PointsWithoutAccepted | index.tsx:198 | an empty list, or one with no accepted record, totals 0 |
| Leveling.PointsOrderIndependent | index.tsx:198-204 | two lists holding the same records in any order have the same total |
| Leveling.PointsByTier | index.tsx:199-204 | the total is 50 per accepted A paper, 25 per B, 10 per C and 5 per other venue |
| Leveling.LevelingEarlyReturn | index.tsx:197-220 | the archive component reports exactly the engine data of the reference total: that total, its level, `currentXp` in [0, `requiredXp`), `requiredXp = 10 (L+1)` and progress in [0, 100) |
| Leveling.LevelingElseIf | App.tsx:83-110 | the plain component reports exactly the engine data of the reference total, with the same level, XP bound and progress |
| Leveling.CopiesAgree | App.tsx:86-93 | the two copies of the engine return the same data for every record list |
| Leveling.DeleteDeductsPoints | index.tsx:137-149 | with unique ids, deleting a record deducts exactly its contribution: its tier reward when accepted, nothing otherwise |
| Leveling.StatusChangePoints | index.tsx:157-166 | with unique ids, a status change moves the total by the record's new contribution minus its old one |
| Graduation.MinLevel | components/GraduationProgress.tsx:22-29 | only Apprentice starts at level 0 |
| Graduation.RankName | components/GraduationProgress.tsx:22-29 | Apprentice below level 2, Seeker for 2 to 4, Ascetic for 5 to 9, Gatekeeper for 10 to 19, Grandmaster for 20 to 39, Divine from 40; each rank holds for exactly its range |
| Graduation.RankIsHighestReached | components/GraduationProgress.tsx:22-29 | the rank of a level is the highest rank whose lowest level has been reached |
| Graduation.RankMonotone | components/GraduationProgress.tsx:22-29 | a higher level never gives a lower rank |
| Graduation.RankSurjective | components/GraduationProgress.tsx:22-29 | every rank is the rank of its lowest level, so none is unreachable |
| Graduation.LevelAtLeast | index.tsx:206-207 | the level reaches m exactly when the total reaches `5 m (m+1)` |
| Graduation.RankOfTotal | components/GraduationProgress.tsx:45 | the rank shown for a total is at least r exactly when the total has reached the points of r's lowest level |
| Graduation.BarWidth | components/GraduationProgress.tsx:63 | the bar width never exceeds 100 or the progress, and equals one of them |
| Graduation.BarShowsEngineProgress | components/GraduationProgress.tsx:63 | the clamp never cuts the engine's progress, which stays in [0, 100) |
| Graduation.NextTier | components/GraduationProgress.tsx:87 | the next tier is above the current level |
| Graduation.NextTierAfterMissingXp | components/GraduationProgress.tsx:75-87 | adding the missing `requiredXp - currentXp` points lands exactly on the next tier, and one point fewer stays on the current level |
| Card.OfferedTransitions | components/PaperCard.tsx:75-111 | Submit is offered exactly to Writing papers, Reject exactly to Submitted papers, Accept exactly to papers neither Accepted nor Rejected; nothing is offered without a handler; no button repeats |
| Card.TerminalOffersNothing | components/PaperCard.tsx:75-104 | a card offers no status change exactly when it has no handler or its paper is Accepted or Rejected |
| Card.OffersOfOpenStatus | components/PaperCard.tsx:75-104 | a Target paper is offered only Accept, a Writing paper Submit then Accept, a Submitted paper Reject then Accept |
| Card.Stage | components/PaperCard.tsx:75-104 | the workflow stage is highest exactly for the terminal statuses |
| Card.OffersMoveForward | components/PaperCard.tsx:75-104 | every offered transition moves to a strictly later stage, so none returns to the current status |
| Card.VerdictOf | components/PaperCard.tsx:159 | the verdict is Ascended exactly for Accepted papers, Banished exactly for Rejected ones, and otherwise the recorded result |
| Card.ResultColour | components/PaperCard.tsx:25-33 | a Rejected status always gives the abyss red; otherwise Emerald, Red, Orange and Slate correspond exactly to an accepted, rejected, revision and pending result |
| Card.StatusChangeShownOnCard | components/PaperCard.tsx:158-159 | after accepting, a card shows Ascended in Emerald; after rejecting, Banished in abyss red; other moves keep the verdict colour of a card not already rejected |
| Card.TierIcon | components/PaperCard.tsx:16-23 | the icon is the Other icon exactly for tiers besides A, B and C, and is never the rejected icon |
| Card.TierIconInjective | components/PaperCard.tsx:16-23 | distinct tiers have distinct icons |
| Card.CardIcon | components/PaperCard.tsx:67 | the rejected icon is shown exactly for Rejected papers, the tier icon otherwise |
| ConfirmingApp.App.constructor | index.tsx:82-107 | the component starts from the saved records on the Accepted tab, with the form closed, nothing selected and the dialog idle |
| ConfirmingApp.App.DisplayedPapers | index.tsx:230-232 | the displayed records are the tab filter of the store: exactly the records in the active tab's status, each as often as stored and in store order |
| ConfirmingApp.App.SelectTab | index.tsx:296 | clicking a tab selects it and changes nothing else |
| ConfirmingApp.App.OpenNew | index.tsx:308 | the add button opens an empty form |
| ConfirmingApp.App.StartEditing | index.tsx:322 | a card's edit button opens the form on that record |
| ConfirmingApp.App.CloseModal | index.tsx:344 | closing the form hides it and keeps the edit selection |
| ConfirmingApp.App.SubmitForm | index.tsx:115-127 | an edit merges the data into the records with the edited id and clears the selection; a new record is prepended in the current tab's status; fresh ids keep ids unique; the form closes |
| ConfirmingApp.App.RequestDelete | index.tsx:129-153 | a delete of a missing id does nothing; otherwise it waits for confirmation, in the danger tone for an accepted record and the warning tone otherwise; the records do not change |
| ConfirmingApp.App.RequestStatusChange | index.tsx:155-195 | moves to Rejected (danger) and Submitted (info) wait for confirmation with the records unchanged; other moves apply at once and select the new status's tab |
| ConfirmingApp.App.Confirm | index.tsx:143-194 | confirming removes every record with the pending id, or applies the pending status change and selects its tab; the dialog returns to idle; unique ids stay unique |
| ConfirmingApp.App.Cancel | index.tsx:113 | cancelling returns the dialog to idle and leaves the records and tab as they were |
| PlainApp.App.constructor | App.tsx:10-22 | the component starts from the saved records on the Accepted tab with the form closed |
| PlainApp.App.FilteredPapers | App.tsx:79-81 | the listed records are the tab filter of the store: exactly the records in the active tab's status, each as often as stored and in store order |
| PlainApp.App.SelectTab | App.tsx:170 | clicking a tab selects it and changes nothing else |
| PlainApp.App.OpenNew | App.tsx:122-125 | the add buttons open an empty form |
| PlainApp.App.StartEditing | App.tsx:58-61 | a card's edit button opens the form on that record |
| PlainApp.App.CloseModal | App.tsx:248-251 | closing the form hides it and forgets the edit selection |
| PlainApp.App.SubmitForm | App.tsx:28-40 | an edit merges the data into the records with the edited id; a new record is prepended in the current tab's status; fresh ids keep ids unique; the form closes with nothing selected |
| PlainApp.App.DeletePaper | App.tsx:42-56 | a missing id asks nothing and changes nothing; otherwise the question depends on the status, and the records with the id are removed exactly when the user agrees |
| PlainApp.App.UpdatePaperStatus | App.tsx:63-77 | a status change applies at once to every record with the id and selects the new status's tab |

## Left out

- Rendering, CSS classes, themes, the tier labels and styles of `constants.tsx`, and the text of dialog titles and messages. The dialog's tone and the choice of browser question are kept.
- Loading from and saving to `localStorage`, and `JSON.parse`. Each component starts from an arbitrary list given to its constructor.
- Id and timestamp generation (`Math.random`, `Date.now`). They are parameters of `SubmitForm`.
  - The source does not make ids unique: they are random strings.
  - The model does not require unique ids. `UniqueIds` is an optional invariant that every operation keeps when the supplied id is fresh.
- `window.confirm` in `App.tsx`: the user's answer is the `userConfirms` parameter of `PlainApp.App.DeletePaper`.
- The dialog's `onConfirm` closures: they are the `PendingAction` datatype.
  - A confirm with no dialog open is a no-op, since no confirm button is rendered then.
  - A second request replaces the pending action, as a second `setConfirmState` does.
- The dialog's title and message strings, and closing it keeping the old title, message and callback: the model returns to `Idle`.
- Floating point:
  - The level uses an exact integer square root, so it is exact at every total. A JavaScript `Math.sqrt` may differ from it at very large totals.
  - Progress is an exact `real`.
  - The `isNaN` guards are unreachable, since the denominator is at least 10. They are not modelled as a branch.
- Negative totals: the total is a `nat`, since the fold only adds positive rewards. For a negative total the code would give NaN, since `Math.max(0, NaN)` is NaN; no reachable input has one.
- The 200 ms `setTimeout` that animates the bar, and `toFixed` formatting. `Graduation.BarWidth` is applied to the progress itself rather than to the animated copy, which starts at 0.
- The rank labels' text: `Graduation.Rank` names the six ranks.
- The paper form itself (`components/PaperModal.tsx`). Its one rule is that an edit keeps the record's status and a new record takes the current tab's status. This is a precondition of `SubmitForm`, which also requires the form to be open.
- `Card.TierIcon`: the source's `default` branch also catches tier values outside the enumeration. The model's tier type is closed, so `default` is the Other tier.
