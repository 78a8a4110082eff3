# Dhikr counter tally store, in Dafny

This project models the tally store of a single-screen dhikr counter, the React Native
component `App` in `App.js`. The app counts repeated recitations of six fixed phrases (the
entries of `ADHKAR_LIST`). For each phrase it keeps a lifetime total (`totalCounts`) and a
current-session count (`currentCounts`), and one phrase is selected at a time (`selectedDhikr`).

- `adhkar.dfy`, module `Adhkar`: the six phrases as the datatype `Dhikr`, their Arabic text,
  the list order `AdhkarList`, and the `ADHKAR_LIST.includes` check as `Parse`. It also holds
  `ZeroCounts`, the `forEach` loop that builds an all-zero count object.
- `statistics.dfy`, module `Statistics`: the read-only figures of `calculateStatistics`.
  `Reduce` is the `reduce` fold over `Object.values`. `MostUsed` is the most-used loop with its
  strict `>`. Lemmas relate both to the plain sum and to the earliest maximum (`FirstMaximum`).
- `store.dfy`, module `Store`: the class `App` with the three state fields and the operations
  `IncrementCounter`, `ResetCurrentCounter`, `ClearAllData`, `HandleDhikrChange`,
  `LoadSelectedDhikr` and `CalculateStatistics`.

`Valid()` states that both count objects hold an entry for every phrase. Every operation
keeps it. `CurrentWithinTotal()` states that no session count exceeds its total. It holds
initially, and increment, reset and clear keep it.

The count objects are modelled as `map<Dhikr, nat>`. Their keys are created in list order, and
spreading an object keeps that order. So `Object.values` yields the counts in `AdhkarList`
order, and that is how `Values` lists them.

Confirmation dialogs (`window.confirm`, `Alert.alert`) become the parameter `confirmed` of
`ResetCurrentCounter` and `ClearAllData`. Both dialog paths apply the same update.

`handleDhikrChange` checks nothing; its only caller is the picker, whose items are exactly
`ADHKAR_LIST` (App.js:369-383), so the model takes a `Dhikr`.

## Model

| member | source | states |
|---|---|---|
| Adhkar.AdhkarListComplete | App.js:33-40 | the list has six entries, none repeated, and every phrase is in it |
| Adhkar.TextInjective | App.js:33-40 | different phrases have different texts, so a text is a usable key |
| Adhkar.Lookup | App.js:128 | `includes` over a list: a hit is in the list with exactly that text; a miss means no entry has that text |
| Adhkar.Parse | App.js:128 | the phrase found for a string has that string as its text; none is found only if no phrase has that text |
| Adhkar.ParseText | App.js:128 | round trip: the text of any phrase parses back to that phrase |
| Adhkar.ZeroCounts | App.js:266-269 | the built object has an entry for every phrase, and every entry is 0 |
| Statistics.Values | App.js:315 | `Object.values` lists one count per key, in key order |
| Statistics.ReduceIsSum | App.js:315-318 | the `reduce` fold from 0 equals the sum of the counts |
| Statistics.SumOverUpdate | App.js:208-217 | changing one key's count by some amount changes the sum over distinct keys by that amount, and a key outside the list leaves it unchanged |
| Statistics.SumAllUpdate | App.js:208-217 | setting one phrase's count to `v` changes the grand total by `v` minus the old count |
| Statistics.SumOverZeroIff | App.js:315-318 | the grand total is 0 exactly when every count is 0 |
| Statistics.CountAtMostSum | App.js:315 | no single count exceeds the grand total |
| Statistics.SumOverMonotone | App.js:315-318 | counts that are pointwise no larger have a total that is no larger |
| Statistics.FirstMaximumUnique | App.js:321-328 | at most one index is the earliest maximum, so the most-used phrase is determined |
| Statistics.MostUsed | App.js:321-328 | the loop returns the earliest phrase in list order whose total is maximal, with a missing entry read as 0, and returns that total |
| Statistics.MaximumAgainstSum | App.js:321-328 | the most-used count is at most the grand total, and is positive exactly when the grand total is |
| Statistics.TieKeepsEarliest | App.js:324 | with totals 5, 5, 3, 3, 3, 3 the first phrase is the earliest maximum and no other index is |
| Store.SelectionAfterLoad | App.js:125-131 | a stored selection is taken only if it is the text of a listed phrase; otherwise the previous selection stays |
| Store.App.constructor | App.js:49-67 | initially the first listed phrase is selected and every total and current count is 0 |
| Store.App.IncrementCounter | App.js:207-217 | the selected phrase's current count and total each grow by 1 and nothing else changes; both grand totals grow by 1; current <= total is preserved |
| Store.App.ResetCurrentCounter | App.js:223-256 | once confirmed, only the selected phrase's current count becomes 0 and the current grand total drops by its old value; totals never change; unconfirmed, nothing changes |
| Store.App.ClearAllData | App.js:261-300 | once confirmed, every total and current count is 0 whatever it was, and so are both grand totals; unconfirmed, nothing changes; the selection stays |
| Store.App.HandleDhikrChange | App.js:305-308 | only the selection changes; every phrase keeps its own counts |
| Store.App.LoadSelectedDhikr | App.js:124-131 | the selection becomes `SelectionAfterLoad` of the previous one and the stored value; the counts are untouched |
| Store.App.CalculateStatistics | App.js:313-336 | `totalAll` and `currentAll` are the sums of all totals and current counts; `mostUsedDhikr` is the earliest maximum and `maxCount` its total; `maxCount` is positive exactly when `totalAll` is; current <= total gives `currentAll` <= `totalAll` |

## Left out

- Animations, styles, the `Dimensions` layout and all JSX rendering (App.js:72-89, 170-205, 340-831): presentation only.
- The confirmation and result dialogs (`window.confirm`, `window.alert`, `Alert.alert`): they become the `confirmed` parameter.
- AsyncStorage reads and writes, JSON encoding and the `useEffect` save triggers (App.js:81-165): asynchronous I/O. Of `loadData` only the check on the stored selection is modelled.
- Loading stored `totalCounts` and `currentCounts` (App.js:111-122): the stored objects replace the state unchecked. They could lack entries or break current <= total. This is why `CurrentWithinTotal` is kept apart from `Valid`.
- Store.App.HandleDhikrChange: takes a `Dhikr`, not an arbitrary string, because its only caller, the picker, offers exactly the listed phrases.
- The percentage shown per phrase (App.js:459): floating-point `Math.round`, display only.
- JavaScript numbers are doubles. Counts above 2^53 would lose precision. The model uses unbounded naturals.
- JavaScript's missing-key `|| 0` in `incrementCounter` (App.js:210) has no effect here, because `Valid` guarantees every entry exists. The total's update on App.js:216 has no such default.
- `storage.web.js` (a try/catch wrapper over `localStorage`), `languages.js` (translation tables), `webpack.config.js` and `copy-assets.js` (build tooling): no logic of the store.
- Streaks, daily history, averages and best-day tracking: not present in `App.js`.
