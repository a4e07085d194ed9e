# Cricket scoring engine — a Dafny model

This project models the scoring core of a browser-based cricket scorer.

The heart of the engine is an ordered log of deliveries. From that log it derives:
- the live statistics of the innings in play (`stats`): score, overs, run rates, extras, fall of wickets, partnership and the last six balls;
- each batter's and each bowler's figures;
- which team bats in each innings.

Recording a delivery (`addBall`) is the one step that changes the log. It also rotates the strike and clears the bowler at the end of an over. The user-interface components add three things: the rule that fills or clears the striker, non-striker and bowler slots; a scorecard per innings; and the highlighting of player cards.

Modules, one per part of the program:

- `Common` (common.dfy): optional values (JavaScript `null`/`undefined`), displayed rates, and the decimal printing of numbers that the template literals perform, with its round trip.
- `Ledger` (ledger.dfy): the `Player`, `Match` and `Delivery` records, `find`, `filter` and the sums folded from the log.
- `MatchStats` (matchstats.dfy): the `stats` computation of `store.js`, written as a forward loop and a backward loop, as the source writes it. It is proved against specification functions, and those functions are proved to have the promised properties.
- `PlayerStats` (playerstats.dfy): `getPlayerStats`, which is pure filter/reduce, and `getBowlerStats`, which is a loop.
- `Session` (session.dfy): the store as a class whose fields are the session state. `AddBall` is split into the two halves the source has: building and appending the delivery, then rotating the strike. The module also holds the team-name derivations.
- `Components` (components.dfy): `cardClasses`, `ScorecardView.data`, `selectPlayer`, `handleCardClick` and the `canScore` guard of the scoring pad.
- `Scenarios` (scenarios.dfy): whole sessions recorded through the store, with what the engine then shows.

Representation choices:

- **Player identifiers** are positive, because the store's auto-increment keys start at 1. So a JavaScript truth test on an identifier is the same as checking that it is present.
- **`currentInning || 1`** is modelled as `CurInning`: an absent match, or inning 0, means inning 1.
- **Rates** are a `Rate`: either the fixed text the engine shows when there is nothing to divide by (`"0.00"`, `"0.0"`), or the exact real quotient that the engine would round for display.
- **The durable id** that the persistence layer returns for a new delivery is a parameter of `AddBall` (`storedId`).

Behaviours of the code a reader may not expect, which the model keeps:

- **A wide's cost.** A wide stores `1 + runs` as its wide extra, and the total also adds the bat runs. So a wide off which one run is taken adds 3 to the total, not 2 (`Ledger.TotalSnoc`, `Scenarios.WideWithOneRun`).
- **Bowler wides.** A bowler's `wides` is the sum of the wide extras, not the number of wides. It is at least that number (`PlayerStats.WidesSumAtLeastCount`).
- **Strike rate.** It is shown with one decimal, and its default is `"0.0"`.
- **Missing participants.** Recording a delivery without all three participants is not rejected by `addBall` itself. Only the scoring pad's `canScore` guard prevents it, and it is modelled as the precondition of `Components.Score`.
- **Scorecard extras.** The scorecard reports its extras as zero and its fall of wickets as empty, whatever the log holds.

## Model

| member | source | states |
|---|---|---|
| `Session.Inning1TeamName` | store.js:28 | Present iff there is a match. The toss winner when they chose to bat; otherwise one of home and away other than the toss winner (when the two teams differ). |
| `Session.Inning2TeamName` | store.js:29 | Present iff there is a match; always home or away, and never the first-innings team when the two teams differ. |
| `Session.InningsTeamsPartition` | store.js:28-29 | With two distinct teams and a toss winner among them, each team bats in exactly one innings. The toss winner bats first exactly when they chose to bat. |
| `Ledger.FindPlayer` | store.js:45 | `find`: absent iff no player has the id; otherwise the first player with that id. |
| `Ledger.FilterMembers` | store.js:35 | A filtered log holds exactly the deliveries of the log that satisfy the predicate. |
| `Ledger.TotalDecomposes` | store.js:38-41 | The team total is bat runs plus extras, and the extras total is wide plus no-ball plus byes. |
| `Ledger.LegalCountIsLegalDeliveries` | store.js:42 | The legal-ball count is the number of deliveries marked legal, and is at most the number of deliveries. |
| `Ledger.TotalSnoc` | store.js:39-40 | Appending a delivery adds its team runs to its innings' total; a wide of r bat runs adds 2r+1. |
| `Ledger.LegalCountSnoc` | store.js:42 | Appending a delivery adds one legal ball to its innings exactly when it is legal. |
| `Common.DigitsValueOfNatToString` | store.js:76 | Reading back the printed decimal text of a number gives the number. |
| `Common.JoinNumbersInjective` | store.js:76 | Two numbers printed with a non-digit separator between them can be recovered from the text. |
| `MatchStats.CurInning` | store.js:34 | The innings of `currentInning`, defaulting to 1: never zero; the match's innings when it is set, else 1 (also with no match). |
| `MatchStats.ScoreStringInjective` | store.js:76 | The score text `runs/wickets` determines both runs and wickets. |
| `MatchStats.OverStringInjective` | store.js:57-58 | The overs text `floor(v/6).(v%6)` determines the legal-ball count v. |
| `MatchStats.FowShape` | store.js:43-47 | One fall-of-wicket entry per wicket; entry k is wicket k+1; no score exceeds the total; scores never decrease. |
| `MatchStats.FowEntriesAreWickets` | store.js:43-47 | Every fall-of-wicket entry was recorded at a wicket delivery, with the totals up to and including it. |
| `MatchStats.SinceLastWicket` | store.js:51-55 | The partnership span is a suffix of the innings holding no wicket. Either it is the whole innings or the delivery before it is a wicket. |
| `MatchStats.PartnershipBounds` | store.js:51-55 | Partnership runs are at most the total, and partnership balls at most the legal-ball count. |
| `MatchStats.Label` | store.js:60-63 | With runs > 0 the label is the run count followed by the marks "W", "nb", "wd" in that order (each present iff wicket, no-ball, wide). With no runs it is the marks alone, so it starts with no digit, or "0" when there is no mark. Never empty; "0" iff the ball is scoreless and unmarked. |
| `MatchStats.LabelInjective` | store.js:60-63 | Two balls with the same label have the same bat runs and the same wicket, no-ball and wide marks. |
| `MatchStats.RecentBalls` | store.js:59-65 | The last min(6, n) deliveries, in order, each with its label. |
| `MatchStats.RunRate` | store.js:76 | "0.00" with no legal ball; otherwise rate × balls = 6 × runs. |
| `MatchStats.RequiredRate` | store.js:67-74 | Present iff inning 2 and both the runs to pass the first innings and the balls remaining are positive. It is then positive, and rate × remaining balls = 6 × remaining runs. |
| `MatchStats.ForwardPass` | store.js:38-48 | The forward loop computes the total, wickets, legal balls, extras by category and the fall-of-wicket list of the innings. |
| `MatchStats.PartnershipScan` | store.js:50-55 | The backward loop with `break` computes the runs and legal balls since the last wicket, excluding the wicket ball. |
| `MatchStats.ComputeStats` | store.js:31-77 | Every field of `stats` equals its specification function over the current innings' deliveries; partnership within the totals; one fall-of-wicket entry per wicket. |
| `PlayerStats.GetPlayerStats` | store.js:134-143 | The all-zero figures with "0.0" for no player; balls faced = the number of non-wide deliveries of the innings with that striker, never more than the log; runs = the sum of the bat runs of those balls; all-zero figures on an empty log; the strike rate is that of the runs and balls. See `PlayerStats.BattingSnoc` and `PlayerStats.BattingConsistent` for the per-ball and consistency properties. |
| `PlayerStats.StrikeRate` | store.js:141 | "0.0" with no ball faced; otherwise rate × balls = 100 × runs. |
| `PlayerStats.BattingSnoc` | store.js:136-140 | A new delivery changes a batter's figures iff it is in that innings, with that striker, and not a wide. It then adds one ball, its bat runs, and a four or six; a no-ball counts as a ball faced. |
| `PlayerStats.BoundaryBounds` | store.js:140 | Fours plus sixes are at most the balls faced, and 4·fours + 6·sixes is at most the runs. |
| `PlayerStats.BattingConsistent` | store.js:134-143 | Batting figures, including the all-zero default for no player, are consistent, and the strike rate is "0.0" iff no ball was faced. |
| `PlayerStats.Economy` | store.js:151-152 | "0.00" with no legal ball; otherwise economy × legal balls = 6 × runs conceded. |
| `PlayerStats.GetBowlerStats` | store.js:145-153 | Fixed defaults for no player. Otherwise the runs conceded, wickets, wide extras, overs text, figures text `w-r`, economy and maidens = 0 over the player's deliveries in the innings. |
| `PlayerStats.ConcededExcludesByes` | store.js:149 | Runs conceded plus byes equals the team total of those deliveries. |
| `PlayerStats.WidesSumAtLeastCount` | store.js:149 | Bowler wides = the number of wides + their bat runs, hence at least the number of wides. |
| `Session.Store.constructor` | store.js:12-24 | The initial session: no match, empty log and roster, no participants, normal input mode, toggles off. |
| `Session.Store.AppendDelivery` | store.js:108-120 | The log grows by exactly the new record. The record's over is floor(legal balls before / 6), its wide extra is 1+runs if wide else 0, its no-ball extra is 1 if no-ball else 0, byes = 0, not a wicket, legal iff neither toggle is set, and it carries the back-filled id. |
| `Session.Store.RotateStrike` | store.js:122-129 | The batters swap iff there is a non-striker and the rotation rule holds. The bowler is cleared iff a legal ball completes the over. Distinct batters stay distinct. |
| `Session.Store.AddBall` | store.js:107-132 | One delivery is appended with the fields above and the earlier log is untouched. The strike rotates by the rule, using the legal-ball count after the ball. The bowler is cleared iff a legal ball ends an over. The toggles are reset. The legal-ball count rises by one iff the ball is legal. Distinct batters and a well-formed log are preserved. |
| `Session.SwapsStrikeCases` | store.js:123-125 | The rotation rule `SwapsStrike` in its three cases: a wide or no-ball swaps on odd runs, a legal ball inside the over swaps on odd runs, a legal ball that completes the over swaps on even runs. |
| `Session.OverCompletionParity` | store.js:123-125 | On the ball that completes an over, the batters swap iff the runs are even. |
| `Components.CardClasses` | components.js:27-34 | Striker class iff striker; non-striker class iff not striker and non-striker; bowler class iff neither and an active bowler card. Grey class iff out, placed last; at most one highlight. The text is the classes joined by spaces. |
| `Components.TeamPlayers` | components.js:53 | Exactly the roster's players of the team, never more than the roster; none when there is no team name. |
| `Components.TeamPlayersInRosterOrder` | components.js:53 | The team is the order-preserving subsequence of the roster: entry k is the roster entry at a strictly increasing position, and every roster position of a team player is used, so repeats are kept. |
| `Components.AnyDismisses` | components.js:56 | `some`: true iff a wicket delivery of that innings names the player. |
| `Components.Row` | components.js:54-58 | Status "out" iff dismissed; otherwise "batting" iff balls > 0, else "". Dismissal text is "out"/"not out"; the figures are that innings' batting figures. |
| `Components.Rows` | components.js:54 | One row per team player, in order. |
| `Components.ScorecardData` | components.js:49-61 | Absent iff the innings has no deliveries and is not the first. Otherwise: the innings' batting side; total = the sum of runs+wide+noBall+byes over the innings; overs = floor(legal/6); one row per side player; zero extras and no fall of wickets. |
| `Components.ScorecardAgreesWithLiveScore` | components.js:59-60 | For the innings in play, the scorecard total equals the live total, and its overs are the completed overs of the live legal-ball count. |
| `Components.Selected` | components.js:89-96 | A filled slot is never overwritten. A batter tries the striker slot first, and batters and bowler are independent. A change happens iff a slot can take the player; at most one slot changes, and it then holds the player; the two batters are never the same player. |
| `Components.SelectPlayer` | components.js:89-96 | The store's slots become `Selected` of the old slots. |
| `Components.Cleared` | components.js:82-87 | Nothing changes outside normal mode or for an unknown card. Otherwise the named slot, and only it, is emptied. |
| `Components.HandleCardClick` | components.js:82-87 | The store's slots become `Cleared` of the old slots. |
| `Components.CanScore` | components.js:145 | The pad is enabled iff the striker, the non-striker and the bowler are each the id of some roster player; all three are then present. |
| `Components.Score` | components.js:143-146 | With the pad enabled, the run button records the ball as `addBall` does: the earlier log is untouched and the new record has the fields of `Session.Store.AddBall`. Its striker, non-striker and bowler are all present and on the roster. The strike rotates by `SwapsStrike`, the bowler is cleared iff a legal ball ends an over, the toggles are reset, the legal-ball count rises iff the ball is legal, and distinct batters and a well-formed log are preserved. |
| `Scenarios.RecomputeIsStable` | store.js:31-77 | Computing the statistics twice from the same log gives identical results. |
| `Scenarios.EmptyLedger` | store.js:76 | An empty innings shows "0/0", "0.0", a run rate of "0.00", no required rate, no fall of wickets, no recent balls, and a partnership of 0 runs off 0 balls. |
| `Scenarios.OneBoundary` | store.js:107-132 | After one legal four: "4/0", "0.1", a run rate of 24, and a recent ball labelled "4". |
| `Scenarios.WideWithOneRun` | store.js:114 | After a wide with one run: wide extra 2, not legal, total 3, no legal ball, "3/0", "0.0", labelled "1wd", and the striker is credited nothing. |
| `Scenarios.OverOfSingles` | store.js:122-129 | Over six legal singles the strike alternates on balls 1–5 and stays on ball 6, and the bowler is then cleared. |

## Left out

- Persistence (the IndexedDB wrapper `MatchService.js`) is not part of this model. The id the store returns for a new delivery is the `storedId` parameter. Persistence failures are not modelled.
- The `await` between appending a delivery and back-filling its id (store.js:118-120) is treated as atomic, so interleaved events are not modelled.
- `init`, `loadMatch` and `startAutoMatch` (store.js:80-105) are persistence reads and writes plus fixture creation, and are left out.
- `toFixed` rounding of the run rates, the strike rate and the economy is left out, because it is floating-point string formatting. Rates are exact reals; only the zero-ball default texts are kept.
- `PlayerStats.GetPlayerStats`, `PlayerStats.GetBowlerStats`: the `inning = match.value?.currentInning` default argument is not modelled; callers pass the innings.
- `Session.Store.AddBall`: bat runs are a natural number, the only input the scoring pad can produce; a negative or fractional `runs` is not modelled.
- The `timestamp` (`Date.now()`) of a delivery is left out, because it is read by nothing the model covers.
- Undo is a stub in the source (components.js:150), and wicket recording has no commit path (`isWicket` is always false on a recorded ball), so both are left out. The `isWicket` and `wicketPlayer` fields are still modelled, because the statistics read them.
- `inningsStatus`, the wicket drafting state, the `start-innings` handler and the modifier toggles (components.js:147-152) are single assignments from the user interface and are left out. The scenarios set the wide flag directly.
- Vue templates, props, reactivity (`computed`, `storeToRefs`), `main.js`, `battingTeam`/`bowlingTeam` and the `striker`/`nonStriker`/`bowler` lookups are presentation plumbing. Each lookup is the `Ledger.FindPlayer` used by `Components.CanScore`.
