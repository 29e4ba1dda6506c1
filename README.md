# Golf score tracker: the score store

This project models the score store of a single-page golf score tracker, `app.js`. The app
keeps one array of 18 per-hole stroke counts in a module-level variable. At start-up it loads
the array from one local-storage key (`golf-score-tracker`) and repairs it when it is missing,
unreadable or the wrong shape. A plus or minus click is meant to move one hole's score by one,
never below zero; that intended behaviour is what `ScoreCard.Adjust` models. As written, after k
confirmed new rounds one click moves the score k + 1 times (see Findings). The array is saved after every change. A confirmed "new round" sets every hole back to
zero. The total shown under the holes is the sum of the array.

Everything is in `app.dfy`, module `App`:

- `Stored` is what reading and parsing the storage key produced. The cases are nothing stored,
  a parse failure, a value that is not an array, or an array of integers.
- `StoredScores` and `Saved` are the pure load and save. `Sum` is the total, accumulated from
  hole 1 to hole 18 as `reduce` does. `Adjusted` is one click on one hole.
- `ScoreCard` is the store. It owns `scores: array<int>` and `persisted`, the content of the
  storage key. Its invariant `Valid()` says the array has 18 entries and reloading the storage
  key would give exactly the scores in memory. `Load` is the start-up read. `Adjust` is the
  click handler. `NewRound` is the reset. `Total` is the displayed sum. `RenderHoles` and
  `MinusButtonStates` are the two loops over the holes.

Non-negative scores are not part of `Valid()`, because loading does not check the elements of
a stored array. `Adjust` preserves non-negativity and `NewRound` establishes it.

The app has one player and a fixed 18 holes. It has no player, hole-count, name or export
logic.

## Model

| member | source | states |
|---|---|---|
| `App.Zeros` | app.js:12 | a fresh round has the requested length and every hole at 0 |
| `App.StoredScores` | app.js:4-13 | loading always gives 18 entries; a stored array is returned unchanged exactly when it has 18 entries; anything else (missing, parse failure, non-array, other length) gives 18 zeros |
| `App.Saved` | app.js:15-17 | what is saved is an array, and an 18-entry round loads back identically (save then load is a round trip) |
| `App.SumOfZeros` | app.js:22 | the total of an all-zero round is 0 |
| `App.Sum` | app.js:22 | the `reduce` sum, added from hole 1 to hole 18; non-negative scores give a non-negative total |
| `App.SumUpdate` | app.js:22 | changing one hole moves the total by exactly the change at that hole |
| `App.Adjusted` | app.js:59-60 | the clicked hole becomes max(0, old + delta), so it is never negative; every other hole is unchanged; the length is kept; non-negative scores stay non-negative |
| `App.MinusDisabled` | app.js:65 | the minus-button test `scores[index] === 0` (also at app.js:85) holds exactly when a decrement would leave the scores unchanged |
| `App.AdjustTotal` | app.js:59-66 | after a click the total changes by max(0, old + delta) minus the old score of that hole |
| `App.IncrementRaisesTotal` | app.js:59-66 | a plus click on a non-negative hole raises the total by exactly 1 |
| `App.DecrementLowersTotal` | app.js:59-66 | a minus click lowers the total by 1 when the hole has shots and leaves it unchanged at 0 |
| `App.Repeated` | app.js:53-60 | applying the same click n times keeps the length and every other hole |
| `App.RepeatedAdjustAt` | app.js:59-60 | n clicks of delta on a non-negative hole give max(0, old + n*delta): ten decrements from 0 leave 0 |
| `App.ListenersAfter` | app.js:53-75 | one listener from start-up plus one per new-round re-render, counted step by step, is k + 1 after k new rounds |
| `App.DuplicateListenersMultiplyClicks` | app.js:53-75 | as written, after k new rounds one plus click on a non-negative hole adds k + 1 shots |
| `App.DuplicateListenerExample` | app.js:70-76 | as written, after one new round one plus click on hole 1 at 0 shows 2 |
| `App.ScoreCard.Load` | app.js:4-19 | the in-memory scores are the repaired stored value, and the store invariant holds |
| `App.ScoreCard.Total` | app.js:21-25 | the displayed total, `Sum` of the in-memory scores, is never negative while the scores are non-negative |
| `App.ScoreCard.Adjust` | app.js:56-66 | the array becomes `Adjusted` of the old one in place, is saved, keeps the invariant and non-negativity, and the reported score, minus-disabled flag and total are the new ones, the total moved by the change at that hole |
| `App.ScoreCard.NewRound` | app.js:72-76 | a new array of 18 zeros replaces the old one and is saved; the total is 0 |
| `App.ScoreCard.RenderHoles` | app.js:33-51 | one card per hole, in order, numbered from 1, each showing that hole's score |
| `App.ScoreCard.MinusButtonStates` | app.js:82-87 | a hole's minus button is disabled exactly when its score is 0, that is exactly when a decrement would change nothing |

## Left out

- `sw.js`, the service worker: asynchronous cache install, cleanup and fetch interception over browser APIs, with no state shared with the score store.
- Service-worker registration (app.js:89-93): a fire-and-forget browser call.
- DOM work: card markup, aria labels, `innerHTML`, `querySelector` and `textContent` writes. `RenderHoles` keeps only the hole number and score of each card. `Adjust` and `NewRound` return the values the page shows instead of writing them.
- Event wiring, `confirm` and the NaN guard on parsed `data-hole`/`data-delta` attributes (app.js:53-58, 71-72, 103-107). `ScoreCard.Adjust` takes an already valid hole index and delta.
- `ScoreCard.Adjust` requires `0 <= index < 18`. The source has no range check, but indices only come from the rendered `data-hole` values 0 to 17.
- `localStorage`, `JSON.parse` and `JSON.stringify` are foreign calls. `Stored` stands for their outcome, and stringify then parse is taken as the identity on integer arrays.
- JavaScript number semantics: non-integer or non-numeric stored elements, NaN and floating-point sums. Scores are mathematical integers.
- Minus buttons after a new round: the source re-renders without calling `updateMinusButtons`, which only `init` calls (app.js:99). A click refreshes only the clicked hole's minus button (app.js:64-65). So every other hole's minus button stays enabled at 0 until that hole is clicked or the page reloads. This is presentation only, and a decrement there changes nothing (`App.MinusDisabled`).
- Failed saves: `ScoreCard.Adjust` and `ScoreCard.NewRound` assume every save succeeds. `saveScores` (app.js:16) has no try block. If `localStorage.setItem` throws, the click handler stops after app.js:60. The in-memory score has then changed but storage has not, and the score display, the minus button and the total are not refreshed (app.js:63-66). The new-round handler likewise stops after app.js:73 without re-rendering. The model does not capture this divergence between memory and storage, and `Valid()` (a reload gives back the in-memory scores) relies on the assumption.

## Findings

| source | as written | input that shows it | evidently intended | confidence | as-written member | corrected member |
|---|---|---|---|---|---|---|
| app.js:53 | `renderHoles` adds a new click listener to the same list each time it runs, and a new round runs it again (app.js:75), so one click runs the adjustment once per listener | start the app, confirm one new round, click + on hole 1 (at 0 shots): the hole shows 2 | one click moves the hole by its delta once | high, not executed | `App.DuplicateListenersMultiplyClicks` | `App.ScoreCard.Adjust` |
