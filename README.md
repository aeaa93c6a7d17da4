# Life counter: a verified model of the game screen

This project models the game screen of a browser life-point counter for tabletop games.
Several players share one screen. Each player has a region with a minus area and a plus
area. A tap changes that player's life by one. A press held for 500 ms changes it by five
and makes the following release do nothing. A small indicator (the "snackbar") shows the
running total of that player's recent changes. Changes less than 3 seconds apart add up on
it; after a quieter gap it starts again. The regions are laid out in one or two grid columns.
The first half of the players have their regions turned by 180 degrees so that players
sitting across the table read their own totals upright.

The model has three modules:

- `Layout` (layout.dfy) holds two pure rules: the rotation of each region, and the grid's
  column and row counts.
- `Snackbar` (snackbar.dfy) holds the per-player indicator record, the rule that updates
  it, and the text it shows. It also gives an independent reference definition of the
  running total: the sum of the latest burst of changes in the player's history. The
  update rule is proved to keep the record equal to that reference.
- `Game` (session.dfy) holds the class `Session`, which is the state the page keeps:
  - an array of life totals;
  - the sequence of indicator records;
  - the single long-press flag;
  - the single long-press timer slot.

  Its methods are the page's event handlers. The timers become explicit events
  (`TimerFire`, `HideSnackbar`), and the clock reading becomes an integer parameter `now`.
  The invariant `Valid()` keeps a ghost history of every change made to each player. It
  states that each life total is the starting life plus the sum of that history, and that
  each indicator record summarises its history.

Four behaviours of the code are easy to misread, and the model follows the code in each:

- With five players, the code turns players 0, 1 and 2, because `2 * 2 < 5` (app.js:38-41).
- The code computes the grid's rows as `playerCount / 2` and does not round them
  (app.js:137). See "## Findings".
- When the mouse leaves an area, the code only cancels the long-press timer and applies no
  change (app.js:83, 92).
- The reset handler (app.js:171-178) only hides the game screen. It keeps all game state:
  the life totals, the indicator records, the pending timer and the long-press flag.

## Model

| member | source | states |
|---|---|---|
| `Layout.Rotation` | app.js:37-41 | A region is turned by either 0 or 180 degrees, nothing else |
| `Layout.RotatedExactlyFirstHalf` | app.js:38-41 | With at least two players, player i is turned exactly when i < ceil(playerCount / 2), that is, when 2 * i < playerCount |
| `Layout.FivePlayerRotation` | app.js:38-41 | With five players, indices 0, 1 and 2 are turned and 3 and 4 are not |
| `Layout.CountRotatedPrefix` | app.js:38-41 | Among the first k players, exactly min(k, ceil(playerCount / 2)) are turned |
| `Layout.RotatedHalf` | app.js:38-41 | A game of n >= 2 players has ceil(n / 2) turned regions and floor(n / 2) upright ones |
| `Layout.GameLayout` | app.js:132-138 | The grid has one or two columns, and columns times rows is exactly the player count; the column choice at three players is stated by `LayoutShape`, and the unrounded rows by `FractionalRows` and `FivePlayerLayout` |
| `Layout.LayoutShape` | app.js:132-138 | Up to three players get one column, more get two; columns times rows always equals the player count (rows = playerCount / 2 is not rounded) |
| `Layout.FractionalRows` | app.js:136-137 | As written: every odd player count from five on yields a row count that is not a whole number |
| `Layout.FivePlayerLayout` | app.js:136-137 | As written: five players give two columns and 2.5 rows |
| `Layout.FittedLayout` | app.js:132-138 | Corrected layout: same columns as the code, and the smallest whole number of rows that holds every player |
| `Layout.FittedAgreesWhenWhole` | app.js:132-138 | The written and corrected row counts agree exactly when there are at most three players or an even number of them |
| `Snackbar.Accumulate` | app.js:113-118 | The update stamps the record with the new change's time and shows it; the new total is either the amount alone or the old total plus the amount. Which one applies is stated by `MergeWithinWindow` and `RestartAfterQuiet`, and its equality with the burst sum by `AccumulateExtendsBurst` |
| `Snackbar.MergeWithinWindow` | app.js:113-114 | A change less than 3000 ms after the previous one adds its amount to the shown total; the timestamp becomes the new change's time |
| `Snackbar.RestartAfterQuiet` | app.js:115-118 | A change 3000 ms or more after the previous one shows exactly its own amount; the timestamp becomes the new change's time |
| `Snackbar.FirstChangeShowsAmount` | app.js:113-118 | Starting from the record the start handler creates, the first change shows exactly its own amount at any clock reading, and the indicator is shown |
| `Snackbar.BurstStart` | app.js:113-118 | The latest burst of a non-empty history starts at a valid index and holds at least the latest change |
| `Snackbar.BurstIsMaximalRun` | app.js:113-118 | Inside the latest burst every gap is under 3000 ms, and the gap before it (if any) is at least 3000 ms |
| `Snackbar.FreshSummarisesNothing` | app.js:151-155 | A freshly created record (time 0, total 0) matches the empty history |
| `Snackbar.AccumulateExtendsBurst` | app.js:113-118 | The update keeps a record equal to the reference: after any change, its timestamp is the latest change's time and its total is the sum of the latest burst |
| `Snackbar.Decimal` | app.js:122 | A non-negative integer is printed as a non-empty string of decimal digits without leading zeros; the string is "0" exactly for zero |
| `Snackbar.IntText` | app.js:122 | JavaScript's text for an integer is non-empty and starts with "-" exactly when the integer is negative |
| `Snackbar.SnackbarText` | app.js:122 | The indicator text is non-empty and starts with "+" exactly when the total is positive; the round-trip and sign facts are stated by `SnackbarTextRoundTrip` and `SnackbarTextSign` |
| `Snackbar.DecimalRoundTrip` | app.js:122 | Reading the printed digits back gives the number |
| `Snackbar.SnackbarTextRoundTrip` | app.js:122 | The indicator text (a "+" before a positive total, otherwise the integer with its own sign) reads back as the total it shows |
| `Snackbar.SnackbarTextInjective` | app.js:122 | Different totals show different indicator texts |
| `Snackbar.SnackbarTextSign` | app.js:122 | The text starts with "+" exactly for a positive total and with "-" exactly for a negative one; it is "0" exactly for a zero total |
| `Snackbar.SnackbarTextExamples` | app.js:122 | Totals 1, 2, -1, 0 and -15 show as "+1", "+2", "-1", "0" and "-15" |
| `Game.Session.IndicatorText` | app.js:120-122 | The text player p's indicator shows once it has appeared reads back as that player's running total |
| `Game.FourPlayerExample` | app.js:142-163 | Four players starting at 40: two taps on player 2's plus area one second apart, then a tap on the minus area four seconds later, leave totals 40, 40, 41, 40, and the indicator shows "+1", "+2", then "-1" |
| `Game.Session.constructor` | app.js:22-28 | On page load: no players, no pending timer, no long press recorded, game not started |
| `Game.Session.Start` | app.js:142-163 | Start creates exactly playerCount records, each with time 0 and total 0, and playerCount life totals that all equal the starting life; no timer is left pending; the invariant holds |
| `Game.Session.UpdateSnackbar` | app.js:107-118 | Only player p's record is replaced, by the windowed update; every other record and all other state stay the same |
| `Game.Session.ChangeLife` | app.js:60-64 | Player p's life rises by exactly the amount; every other player's life and record stays the same; p's record gets the windowed update; the change is added to p's history and the invariant is kept |
| `Game.Session.Press` | app.js:66-72 | The press arms the timer for this player and area and clears the long-press flag; no life total or record changes |
| `Game.Session.TimerFire` | app.js:68-71 | If a timer is armed, its player gets five times the tap amount and the flag is set; with no timer, nothing changes; either way, no timer is pending afterwards |
| `Game.Session.Release` | app.js:74-79 | The release cancels the timer; it applies the tap amount to this player exactly when no long press has fired, and otherwise changes nothing |
| `Game.Session.Leave` | app.js:83 | Leaving an area cancels the pending timer and changes no life total, no record and not the flag |
| `Game.Session.HideSnackbar` | app.js:123-127 | The hide timer hides only player p's indicator; the total and timestamp stay the same |
| `Game.Session.Reset` | app.js:171-178 | The reset button only leaves the game screen; life totals, records and the timer slot stay as they were |
| `Game.Session.Tap` | app.js:81-97 | Press followed by release before the timer fires: the timer ends up cancelled and life changes by exactly one step, applied once, to this player only |
| `Game.Session.LongPress` | app.js:66-79 | Press, then the timer fires, then release: life changes by exactly five steps in total, because the release adds nothing, so the one step and the five steps are never both applied |
| `Game.Session.PressThenLeave` | app.js:81-83 | Press, then the mouse leaves the area before the timer fires: no life total or record changes and no timer is left pending |

## Findings

| source | as written | input that shows it | evidently intended | confidence | as-written member | corrected member |
|---|---|---|---|---|---|---|
| app.js:137 | The rows of a two-column grid are `playerCount / 2`, with no rounding | 5 players give `repeat(2.5, 1fr)`; CSS `repeat()` needs a whole number of repetitions | ceil(playerCount / 2) rows, because CSS `repeat()` takes a positive whole number and every region should get a row of equal height | not executed; medium | `Layout.FractionalRows` | `Layout.FittedLayout` |

## Left out

- The DOM is not modelled: element creation, class toggling, the CSS grid and transform strings, and player colours (`playerIndex % 9`). These are presentation only. The model keeps the numbers they are built from.
- Real timers and the clock are not modelled. `setTimeout` and `clearTimeout` become the pending-timer slot and the `TimerFire` event. `Date.now()` becomes the `now` parameter. The 2500 ms hide timer becomes the `shown` flag and the `HideSnackbar` event.
- Multi-touch interleavings are not modelled. In the source, presses on several regions at once share one timer handle and one long-press flag; the next line says what the model does with an overlapping press.
- Game.Session.Press: replaces the pending timer. In the source, a press overwrites the timer handle without cancelling the earlier timer (app.js:67-71), so that timer still fires and applies its five steps. This happens with one pointer too: a second mouse button pressed while the first is held fires `mousedown` again (app.js:81, 90), and a touch that is cancelled gets no `touchend` (there is no `touchcancel` listener), so a new touch within 500 ms orphans the old timer. The model keeps one pending timer and assumes one active press at a time.
- Game.Session.Start: empties the timer slot. In the source, a long-press timer still pending when a new game starts stays alive. When it fires, its closure from the discarded region calls `changeLife`, which calls `updateSnackbar` with the old player index (app.js:63, 108, 120-121). That call reads the new game's player records and regions. So it changes the new game's indicator record for that index, or throws when the index is past the new player count. This case is not modelled.
- Life totals are unbounded integers. The source's numbers are doubles, which lose precision beyond 2^53.
- Parsing of the setup inputs is not modelled. The player count and starting life are taken as already-parsed integers, so a value that does not parse (NaN) is not covered.
- Screen wake-lock requests and releases are not modelled. They are asynchronous platform calls whose failures the source ignores.
- Service-worker registration and sw.js (asset caching and the fetch fallback) are not modelled. They are browser I/O.
