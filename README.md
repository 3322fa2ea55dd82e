# Beat Hamster front end: leaderboard aggregation, wallet session and game loop

Beat Hamster is a browser whack-a-mole game whose scores live in a smart
contract. This project models three parts of its React front end.

- **Leaderboard aggregation** (`processLeaderboard`). The contract returns raw
  score submissions: a player and a score, with a timestamp. The front end
  folds them into one line per player through a JavaScript `Map`. A player's
  line is the first submission that reached the player's best score. Its
  `playCount` is the number of that player's submissions. The lines are then
  sorted by score, highest first.
- **Wallet session**. The browser's `localStorage` keeps one record under
  `"walletConnection"`: an account, and the time of the last activity in
  milliseconds. The record is good for 15 days after the last activity, and
  every qualifying action rewrites it. On page load the session is restored
  only when three things hold: the record is readable, it is within the
  window, and the wallet still lists its account.
- **Game loop**. `App` is a class that holds the page's state and the store.
  Each handler is one method. A round lasts 60 one-second ticks. A hit on the
  active cell scores a point. When the round ends, a positive score is
  submitted if a wallet is connected and a contract is available. A
  confirmed submission earns `floor(score / 10)` bonus points.

Modules:

- `Wrappers`: `Option`.
- `Scores`: the `Entry` record and the stable descending sort that
  `Array.prototype.sort` performs with the comparator `(a, b) => b.score - a.score`.
- `Leaderboard`:
  - a reference definition of the expected leaderboard (`Players`, `CountOf`,
    `MaxScore`, `FirstWith`, `Summary`, `Aggregated`, `Ranked`);
  - the source's loop, `ProcessLeaderboard`, with its `forEach` callback
    `AddEntry`, proved to compute `Ranked`.
- `LeaderboardProperties`: what the ranked board promises about its input.
- `Session`: stored items, the window, and which account a store vouches for.
- `Frontend`: the `App` class and its handlers.

The JavaScript `Map` is modelled by two parts:

- the sequence of its keys in insertion order, which `Array.from(map.values())`
  follows;
- a Dafny `map` from keys to lines.

The sort is a library call in the source, so it is modelled as a function (an
insertion sort). Array.prototype.sort has been required to be stable since
ECMAScript 2019 (section 22.1.3.27), and the model proves its sort stable.

Where the code and its description differ, the model follows the code:

- Ties on score keep the order in which the players first appear in the
  input, because the sort is stable and the `Map` keeps insertion order.
  The code has no other tie-break.
- A stored session whose account the wallet no longer lists is discarded only
  on page load (`checkStoredWallet`). When the wallet switches accounts while
  the page is open (`handleAccountsChanged`), the record is rewritten for the
  new account instead.
- Score timestamps are copied and never interpreted, whatever their unit.
  The session timestamp is in milliseconds.

`processLeaderboard` exists twice in the source, as
`beat-hamster-frontend/src/utils/gameUtils.js:2-25` and as a verbatim copy in
`beat-hamster-frontend/src/App.js:125-148`. `Leaderboard.ProcessLeaderboard`
models both.

## Model

| member | source | states |
|---|---|---|
| Scores.SortByScore | beat-hamster-frontend/src/utils/gameUtils.js:23-24 | the sorted sequence has scores non-increasing, is a permutation (same multiset) of the input and has its length |
| Scores.SortIsStable | beat-hamster-frontend/src/utils/gameUtils.js:23-24 | for every score, the records with that score leave the sort in the order they entered it |
| Leaderboard.PlayersOccur | beat-hamster-frontend/src/utils/gameUtils.js:6-9 | a player gets a Map key exactly when some raw record belongs to them |
| Leaderboard.MaxScore | beat-hamster-frontend/src/utils/gameUtils.js:8-12 | a player's best score bounds every score of theirs and is reached by one of their records |
| Leaderboard.FirstWith | beat-hamster-frontend/src/utils/gameUtils.js:8 | the index found holds the player and score, and no earlier index does, or it is the length when no record matches |
| Leaderboard.SummaryIsFirstBest | beat-hamster-frontend/src/utils/gameUtils.js:8-19 | a player's line belongs to that player, counts all of their records, bounds all of their scores and is the earliest record reaching their best score, with the count in place of `playCount` |
| Leaderboard.SummaryStep | beat-hamster-frontend/src/utils/gameUtils.js:8-19 | the update rule of the loop body holds of the reference definition: other players untouched, a new player starts at the record with count 1, a strictly higher score replaces the line and adds one to the count, anything else (an equal score included, because of the strict `<`) adds one to the count only, so the earliest record reaching the best score is kept |
| Leaderboard.StepKeepsLines | beat-hamster-frontend/src/utils/gameUtils.js:6-20 | one pass of the loop body turns the Map for a prefix into the Map for the prefix plus one record; a new key is appended to the insertion order |
| Leaderboard.MapValuesAreAggregated | beat-hamster-frontend/src/utils/gameUtils.js:23 | reading the finished Map's values in insertion order gives every player's line in order of first appearance |
| Leaderboard.AddEntry | beat-hamster-frontend/src/utils/gameUtils.js:6-20 | the forEach callback keeps the Map equal to the reference lines of the records read so far |
| Leaderboard.ProcessLeaderboard | beat-hamster-frontend/src/utils/gameUtils.js:2-25 | the returned array is the reference leaderboard `Ranked(raw)`: one line per player, sorted by score |
| LeaderboardProperties.RankedEmpty | beat-hamster-frontend/src/utils/gameUtils.js:3-24 | no raw records give an empty leaderboard |
| LeaderboardProperties.RankedLinesAreSummaries | beat-hamster-frontend/src/utils/gameUtils.js:6-24 | every line on the board belongs to a player of the input and is that player's summary |
| LeaderboardProperties.RankedShowsPlayer | beat-hamster-frontend/src/utils/gameUtils.js:6-24 | a player has a line on the board if and only if they have a raw record |
| LeaderboardProperties.RankedPlayers | beat-hamster-frontend/src/utils/gameUtils.js:6-24 | the set of players on the board equals the set of players in the input, and the board is never longer than the input |
| LeaderboardProperties.RankedDistinctPlayers | beat-hamster-frontend/src/utils/gameUtils.js:3-24 | no player appears on two lines |
| LeaderboardProperties.RankedIsSorted | beat-hamster-frontend/src/utils/gameUtils.js:23-24 | lines are in non-increasing score order |
| LeaderboardProperties.PlayersByFirstAppearance | beat-hamster-frontend/src/utils/gameUtils.js:6-12 | Map keys are in order of first appearance: every record of a later key comes after some record of each earlier key |
| LeaderboardProperties.RankedTies | beat-hamster-frontend/src/utils/gameUtils.js:23-24 | lines with equal scores keep their first-appearance order |
| LeaderboardProperties.SamePlayers | beat-hamster-frontend/src/utils/gameUtils.js:6-9 | which players get keys, and in what order, does not depend on the incoming `playCount` fields |
| LeaderboardProperties.SameSummary | beat-hamster-frontend/src/utils/gameUtils.js:8-19 | a player's line does not depend on the incoming `playCount` fields |
| LeaderboardProperties.RankedIgnoresPlayCount | beat-hamster-frontend/src/utils/gameUtils.js:9-18 | the board is the same for any two inputs that differ only in `playCount`, which every branch overwrites |
| LeaderboardProperties.RankedCountsEveryRecord | beat-hamster-frontend/src/utils/gameUtils.js:11-17 | the play counts on the board add up to the number of raw records: each record is counted once |
| LeaderboardProperties.TwoPlayersAggregated | beat-hamster-frontend/src/utils/gameUtils.js:6-20 | two players with one record each get one line each, equal to their records, in input order |
| LeaderboardProperties.ExampleBestOfThree | beat-hamster-frontend/src/utils/gameUtils.js:2-25 | scores 10, 30, 20 by one player give a single line with score 30, the timestamp of the 30 and a count of 3 |
| LeaderboardProperties.ExampleHigherScoreFirst | beat-hamster-frontend/src/utils/gameUtils.js:2-25 | a player with 80 is listed before a player with 50 even though the 50 came first |
| Session.WindowBoundary | beat-hamster-frontend/src/App.js:49 | for the expiry test `WithinWindow`, a record exactly 15 days old or older is expired; one a millisecond younger is valid |
| Session.RefreshedSessionLasts | beat-hamster-frontend/src/App.js:94-100 | a record rewritten at time t vouches for its account at every later time before t + 15 days and at none after |
| Frontend.FormatScores | beat-hamster-frontend/src/App.js:217-222 | each reply tuple becomes one record, at the same position, with its player, score and timestamp and a play count of 1 |
| Frontend.FormattedPlays | beat-hamster-frontend/src/App.js:217-222 | the formatted records' play counts add up to the number of tuples |
| Frontend.FetchedBoardCountsEveryTuple | beat-hamster-frontend/src/App.js:216-224 | the board built from a reply has play counts adding up to the number of tuples: every tuple is counted once |
| Frontend.BonusPoints | beat-hamster-frontend/src/App.js:240 | the bonus is floor(score / 10): ten times it is at most the score and more than the score minus ten |
| Frontend.BonusPointsMonotone | beat-hamster-frontend/src/App.js:240 | a higher score never earns fewer bonus points |
| Frontend.App.constructor | beat-hamster-frontend/src/App.js:8-26 | the page's initial state: no game, 60 seconds, score 0, no hamster, no wallet, over whatever the store holds |
| Frontend.App.UpdateWalletTimestamp | beat-hamster-frontend/src/App.js:94-104 | the store afterwards holds the account with the current time under the session key, nothing else changes, and the session is valid for that account |
| Frontend.App.CheckStoredWallet | beat-hamster-frontend/src/App.js:40-88 | page load: no key leaves everything; an unreadable or expired record is removed; without a wallet provider nothing changes; an account the wallet lists is reconnected and its record refreshed; otherwise (another account, or the wallet request failed) the record is removed; the game state is untouched |
| Frontend.App.ConnectWallet | beat-hamster-frontend/src/App.js:151-179 | with a provider and a successful request, connects the first account and writes its session record; otherwise nothing changes |
| Frontend.App.HandleAccountsChanged | beat-hamster-frontend/src/App.js:182-198 | an empty account list disconnects and removes the record; otherwise the first account becomes current and its record is written; the game state is untouched |
| Frontend.App.FetchLeaderboard | beat-hamster-frontend/src/App.js:214-228 | a successful `getTopScores` reply replaces the board by the aggregated, ranked tuples, each counted once; a failed call leaves the board |
| Frontend.App.StartGame | beat-hamster-frontend/src/App.js:304-329 | without a wallet nothing changes; otherwise a fresh round starts (active, score 0, 60 seconds, no hamster, no bonus) and the session is refreshed |
| Frontend.App.SubmitScore | beat-hamster-frontend/src/App.js:231-255 | without a contract, with a score of at most 0, or when the transaction fails, nothing changes; otherwise the bonus becomes floor(score / 10) and the session is refreshed |
| Frontend.App.EndGame | beat-hamster-frontend/src/App.js:332-341 | the round stops and is over; the score is submitted only when positive, the wallet is connected and a contract is available, and a confirmed submission sets the bonus and refreshes the session; score, time, hamster, board and wallet stay |
| Frontend.App.Tick | beat-hamster-frontend/src/App.js:356-374 | while the round is on and time is left, one second passes and nothing else changes; at zero the round ends as in `EndGame`, with the automatic submission's bonus and session refresh, and score, hamster, board and wallet stay; with no round nothing changes |
| Frontend.App.ShowHamster | beat-hamster-frontend/src/App.js:396-400 | a hamster appears in the given cell only while the round is on |
| Frontend.App.HideHamster | beat-hamster-frontend/src/App.js:404-405 | the hamster disappears |
| Frontend.App.HitHamster | beat-hamster-frontend/src/App.js:423-428 | a hit on the active cell adds exactly one point and clears the cell; any other hit changes nothing |
| Frontend.App.ClickCell | beat-hamster-frontend/src/App.js:579-583 | a click scores only while the round is on and on the active cell |
| Frontend.App.ResetGame | beat-hamster-frontend/src/App.js:457-468 | back to the home screen with no round on; the session of a connected wallet is refreshed; score, time, bonus, hamster, board and wallet stay |
| Frontend.App.ToggleLeaderboard | beat-hamster-frontend/src/App.js:344-353 | the board's visibility flips; the session of a connected wallet is refreshed; every game field, the board contents and the wallet stay |
| Frontend.PlayRoundToEnd | beat-hamster-frontend/src/App.js:356-371 | a round started with a connected wallet is over after 61 ticks, with no time left |

Every handler of `Frontend.App` also keeps `Valid()`:

- the time left is between 0 and 60;
- the score is not negative;
- the bonus earned is at most `BonusPoints(score)`;
- a round is never both active and over;
- an active round has been started;
- the hamster is in one of the 16 cells.

## Left out

- Sound (`playSound`), rendering, CSS classes, the score-bump animation, the hit effect and the address truncation are presentation only.
- Timers are not modelled as time. Each run of the timer effect is one `Tick`. Each timer callback of the hamster cycle is one call to `ShowHamster` or `HideHamster`. The delays, and the cleanup that cancels timers, are not modelled.
- `Math.random` is not modelled. The hamster's cell is a parameter of `ShowHamster`.
- The clock (`new Date().getTime()`) is the parameter `now`.
- Replies from the wallet and the contract are parameters. A rejected call is `None` or `confirmed == false`. Interleavings of the `async` handlers are not modelled; each handler is one atomic step. Closures that see stale React state are not modelled either: for example, `handleAccountsChanged` is registered with the `contract` of the render that connected the wallet.
- `fetchPlayerData` and the fields it sets (`bestScore`, `bonusPoints`) are not modelled. They are display values read from the contract.
- The follow-up fetches after a connect, a restored session or a confirmed submission are not modelled. Those fetches are `fetchPlayerData`, and `fetchLeaderboard` as modelled by `Frontend.App.FetchLeaderboard`.
- `redeemTokens` and the `isLoading` flag are not modelled.
- The read-only leaderboard fetch at start-up is not modelled. It is `Frontend.App.FetchLeaderboard` on a fresh page.
- `Frontend.App.ConnectWallet` assumes that a successful account request lists at least one account. The wallet API guarantees this.
- `Frontend.App.ConnectWallet` does not model registering the `accountsChanged` listener.
- `Frontend.App.UpdateWalletTimestamp` does not model a failing `localStorage.setItem` (for example, a full quota). In the source that failure is caught and the old record stays.
- `Frontend.App.CheckStoredWallet` treats a stored text that parses but is not a session record as unreadable and removes it. The source also removes such a record when its timestamp is missing or not a number. When the timestamp is valid but the account is missing and no wallet provider is present, the source keeps the record.
- `Frontend.App.CheckStoredWallet` does not model an empty stored string, which the source ignores. The front end never writes one.
- `Frontend.FormatScores` reads the contract's integers as unbounded. The source's `Number()` conversion loses precision above 2^53.
- `Leaderboard.ProcessLeaderboard` compares scores as unbounded integers. Records with missing or non-numeric scores, which would compare as `NaN` in JavaScript, are not modelled.
- The operator scripts (`check-balance.js`, `fund-contract.js`, `monitor-contract.js`, `scripts/deploy.js`) and the display components under `components/` are not part of this model.
