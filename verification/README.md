# Quiz duel: game state, question bank and leaderboards in Dafny

A model of the core of a quiz-duel web app. A player picks a subject and starts a
five-round duel against a simulated opponent. Each round shows one question on a
countdown clock:

- A correct answer costs the opponent the round damage.
- A wrong answer costs the player that damage, but only if the opponent's 70 % coin
  comes up.
- A timeout costs both players a flat 500.

The round damage starts at 1000 and grows by 500 each round. Health never drops
below zero. A duel is won when a player's health reaches zero after an answer.
Alongside the duel, the app ships a fixed question bank and a fixed leaderboard,
with filters by category and subject and a top-players query.

Modules, one per file:

- `Wrappers`: `Option`.
- `Seqs`: order-preserving `Filter` and first-match `Find`. These stand for
  `Array.prototype.filter` and `find`, with the lemmas the rest of the model needs
  (composition, append, all/none kept).
- `GameTypes`: the records of src/types/game.ts. The duel's `players` pair is split
  into `human` and `opponent`. A win rate is held in tenths of a percent.
- `Questions`: the eleven shipped questions, the per-subject pool, the random draw
  (the random index is a parameter) and lookup by id.
- `Leaderboard`: the ten shipped entries (`Data`), `getLeaderboardByCategory`,
  `getLeaderboardBySubject`, and `getTopPlayers`. The last is a stable sort by
  descending win rate followed by `slice(0, limit)`. The two filters take the table
  as a parameter, so their properties hold for any table; the app passes `Data`.
- `LeaderboardPage`: the page's `getFilteredLeaderboardData`, over the same table
  parameter.
- `Duel`: the pure update of one duel for an answer, a timeout, a new round and one
  clock second, and `GoodDuel`, the invariant every reachable duel satisfies.
- `GameContext`: the provider's state (`duel`, `selectedSubject`, `currentPlayer`) and
  its operations. Every way the state can change is an `Event`. `Enabled` applies the
  duel screen's guards that the game is evidently meant to have:
  - answers are accepted only while the duel is active and shows a question;
  - a duel is started only from the screen with no duel and a selected subject.

  The question card's own one-answer lock is modelled separately, as a finding
  (`EnabledWithCard`).

  `Run` replays a sequence of events. The module proves:
  - every enabled run keeps the invariant;
  - a won duel is frozen until reset;
  - the countdown expires the round after exactly as many ticks as it showed.

Randomness and the clock are inputs:
- the index of the drawn question is `draw`;
- the opponent's coin is `opponentCorrect`;
- the `Date.now()`-based duel id is `duelId`;
- each firing of the one-second interval is a `ClockTick` event;
- each delayed `nextRound` call, or press of "Continue to Next Round", is an
  `AdvanceRound` event.

Nothing in the model performs I/O.

## Model

| member | source | states |
|---|---|---|
| GameTypes.CategoryNameInjective | src/types/game.ts:9-14 | the five category strings are pairwise different, so comparing names compares categories |
| Seqs.Filter | src/data/questions.ts:116 | an element occurs in the result exactly when it occurs in the input and satisfies the predicate; the result keeps the input order (a subsequence of the input) |
| Seqs.FilterCounts | src/data/questions.ts:116 | the filter keeps every copy of an accepted element and no copy of a rejected one |
| Seqs.Find | src/data/questions.ts:122 | nothing is found exactly when no element matches; otherwise the result is the first matching element |
| Questions.QuestionsFor | src/data/questions.ts:116 | every question in a subject's pool is on that subject and comes from the bank |
| Questions.QuestionsForIsFilter | src/data/questions.ts:4-116 | each subject's pool is exactly the subject filter of the bank, in bank order |
| Questions.QuestionForSubject | src/data/questions.ts:115-119 | a draw succeeds exactly when the index is inside the subject's pool, and then yields a bank question on that subject |
| Questions.DrawIsFilterElement | src/data/questions.ts:115-119 | the drawn question is the draw-th element of the subject filter of the bank |
| Questions.EverySubjectHasQuestions | src/data/questions.ts:4-113 | every subject has at least one question, so the random draw always finds one |
| Questions.BankWellFormed | src/data/questions.ts:4-113 | every shipped question lists its correct answer among its options and has a positive time limit |
| Questions.BankIdsDistinct | src/data/questions.ts:4-113 | no two shipped questions share an id |
| Questions.QuestionById | src/data/questions.ts:121-123 | lookup by id yields nothing exactly when no bank question has that id, and otherwise the first bank question with it |
| Questions.QuestionByIdFindsBankQuestion | src/data/questions.ts:121-123 | looking up any shipped question by its own id returns that question |
| Leaderboard.ByCategory | src/data/leaderboard.ts:139-141 | for any table, the result holds exactly its entries of the named category, every copy of each, in table order |
| Leaderboard.ByUnknownCategoryIsEmpty | src/data/leaderboard.ts:139-141 | a name that is not one of the five categories selects no entry |
| Leaderboard.BySubject | src/data/leaderboard.ts:143-145 | for any table, the result holds exactly its entries tagged with the subject, every copy of each, in table order; untagged entries never match |
| Leaderboard.SortByWinRate | src/data/leaderboard.ts:148 | sorting permutes the entries into non-increasing win-rate order |
| Leaderboard.SortIsStable | src/data/leaderboard.ts:148 | entries with equal win rates keep their original relative order |
| Leaderboard.TopKeepsEarliestTies | src/data/leaderboard.ts:147-149 | at the cut, ties are broken by table order: for each win rate, the listed entries with that rate are the first ones of the table with it |
| Leaderboard.SliceEnd | src/data/leaderboard.ts:148 | `slice(0, limit)` stops at the limit capped by the length, and a negative limit counts back from the end |
| Leaderboard.TopOf | src/data/leaderboard.ts:147-149 | the top list has the sliced length, is ordered by win rate, is drawn from the entries, and beats every entry it leaves out |
| Leaderboard.TopPlayers | src/data/leaderboard.ts:147-149 | the same for the shipped data: length from the limit, win-rate order, and no omitted entry better than a listed one |
| Leaderboard.TopPlayersDefaultIsWholeBoard | src/data/leaderboard.ts:147 | with the default limit of 10, every one of the ten shipped entries is listed |
| LeaderboardPage.FilteredLeaderboard | src/pages/Leaderboard.tsx:49-56 | with "All", the page shows the category query; otherwise every shown entry is in the tab's category and on the chosen subject; always a subsequence of the table |
| LeaderboardPage.FilteredIsSelection | src/pages/Leaderboard.tsx:49-56 | the page shows exactly the table's entries matching tab and subject, in table order, whichever branch builds it |
| Duel.Damage | src/contexts/GameContext.tsx:131 | damage lowers health by the amount but never below zero |
| Duel.Start | src/contexts/GameContext.tsx:93-114 | a new duel is active in round 1 with damage 1000, a full-health opponent, no winner, and the question's full time |
| Duel.Verdict | src/contexts/GameContext.tsx:146-155 | there is a winner exactly when a health is at zero, and the human's defeat is checked first |
| Duel.Answer | src/contexts/GameContext.tsx:123-165 | a correct answer damages only the opponent, a wrong one damages only the human and only if the opponent was right; the duel pauses with the verdict and nothing else changes |
| Duel.AnswerKeepsGood | src/contexts/GameContext.tsx:123-165 | answering an active duel keeps the reachable-duel invariant |
| Duel.Expire | src/contexts/GameContext.tsx:61-79 | a timeout takes 500 from both players, floored at zero, and pauses the duel; nothing else changes |
| Duel.ExpireNeverDecides | src/contexts/GameContext.tsx:61-79 | a timeout can empty the player's health without declaring a winner |
| Duel.ExpireKeepsGood | src/contexts/GameContext.tsx:61-79 | a timeout keeps the invariant of an undecided duel |
| Duel.Advance | src/contexts/GameContext.tsx:189-199 | a new round counts up, raises the damage by 500, installs the question with its full time and reactivates the duel |
| Duel.AdvanceKeepsGood | src/contexts/GameContext.tsx:175-199 | advancing an undecided duel below the last round keeps the invariant, including the damage schedule |
| Duel.Tick | src/contexts/GameContext.tsx:45-55 | one second counts the clock down, and reaching zero expires the round instead of storing zero |
| Duel.TickKeepsGood | src/contexts/GameContext.tsx:42-59 | a tick of a running clock keeps the invariant |
| GameContext.CreateDuel | src/contexts/GameContext.tsx:87-121 | without a player nothing happens; otherwise the new duel pits the current player against the opponent on a bank question of the subject, in round 1 with damage 1000 |
| GameContext.AnswerQuestion | src/contexts/GameContext.tsx:123-173 | without a duel or question nothing happens; otherwise the damage goes to the loser of the exchange, the duel pauses with the verdict, and round, damage, question and clock are unchanged |
| GameContext.NextRound | src/contexts/GameContext.tsx:175-202 | the state changes exactly when there is a duel and a subject, no winner and rounds left; then the round counts up, the damage rises by 500 and a fresh question on the subject is installed |
| GameContext.HandleTimeExpired | src/contexts/GameContext.tsx:61-85 | without a duel nothing happens; otherwise both players lose 500, floored at zero, the duel pauses and the winner is unchanged |
| GameContext.Tick | src/contexts/GameContext.tsx:42-59 | the interval runs only for an active duel with a non-zero clock; it counts down, and at the last second it hands over to the timeout |
| GameContext.ResetDuel | src/contexts/GameContext.tsx:204-213 | the duel is cleared, the player is back at 5000 health, and the subject stays |
| GameContext.SetSubject | src/contexts/GameContext.tsx:215-217 | the subject is replaced and nothing else changes |
| GameContext.InitIsGood | src/contexts/GameContext.tsx:21-39 | the state after mounting satisfies the invariant |
| GameContext.StepKeepsGood | src/contexts/GameContext.tsx:42-217 | every enabled event keeps the invariant |
| GameContext.RunKeepsGood | src/contexts/GameContext.tsx:42-217 | every enabled sequence of events keeps the invariant |
| GameContext.ReachableDuelsFollowSchedule | src/contexts/GameContext.tsx:105-199 | in every reachable state the round stays within 1..5, the damage is 1000 + 500 * (round - 1), and both healths stay within 0..5000 |
| GameContext.WonDuelIsFrozen | src/contexts/GameContext.tsx:175-181 | once a duel has a winner, only a reset changes it |
| GameContext.ResetAfterAnyRun | src/contexts/GameContext.tsx:204-213 | after any run, a reset leaves no duel and the initial player at full health |
| GameContext.CountdownBeforeExpiry | src/contexts/GameContext.tsx:42-59 | with n seconds on a running clock, the first k < n ticks only count down |
| GameContext.CountdownExpiresOnTime | src/contexts/GameContext.tsx:42-59 | the n-th tick expires the round and stops the clock |
| GameContext.FirstRoundScenario | src/contexts/GameContext.tsx:87-199 | selecting Mathematics, starting, answering the first question correctly and advancing leaves the opponent at 4000, in round 2 with damage 1500 |
| GameContext.TimeoutScenario | src/contexts/GameContext.tsx:42-85 | letting the 20-second clock of the first question run out leaves both players at 4500, paused, with no winner |
| GameContext.NextRoundFromStale | src/contexts/GameContext.tsx:175-199 | a late `nextRound` reads its guards, subject and damage from the state it was scheduled in and the round from the current one; when the guards pass it activates the current duel with the drawn question and its full clock and keeps players, winner, id, subject and player from the current state; on a fresh state it is the ordinary update |
| GameContext.StaleAdvanceBreaksSchedule | src/contexts/GameContext.tsx:167-199 | pressing "Continue" before the delayed call fires lands in round 3 with damage 1500, breaking the invariant |
| GameContext.StaleAdvancePassesLastRound | src/contexts/GameContext.tsx:167-199 | the same race in round 4 carries the duel to round 6 of 5 |
| GameContext.TimeoutThenNextRound | src/contexts/GameContext.tsx:61-85 | in a Mathematics duel on its first question with both players at the same health h > 500, letting round r < 5 run out on the clock leaves both at h - 500 with the duel paused, and the next-round call (draw 0) then gives round r + 1 at h - 500 with a full clock and the schedule's damage |
| GameContext.CardAfter | src/components/duel/QuestionCard.tsx:21-27 | the card's lock is set by an answer, stays set while the duel exists, is set by nothing else, and goes away with the duel |
| GameContext.StaleAdvanceReopensWonDuel | src/contexts/GameContext.tsx:175-199 | from the start of a duel, rounds 1 to 4 time out, "Continue" opens round 5, a correct answer wins it; the late call scheduled by round 4's timeout then reactivates the won duel, winner still set |
| GameContext.LockedCardRefusesSecondRound | src/components/duel/QuestionCard.tsx:21-27 | after answering round 1 and advancing, round 2 is active and the game would take an answer, but the card as written refuses every one |
| GameContext.EveryActiveRoundTakesAnAnswer | src/components/duel/DuelArena.tsx:191-196 | in every reachable active duel an answer is enabled and pauses the round |

## Left out

- Timers as time: `setInterval`, `setTimeout` and the 1 s and 2 s delays are not modelled as durations. A clock tick or a delayed `nextRound` is an event that may happen at any point, which covers every interleaving of the real delays.
- `isLoading`, toasts and everything rendered are presentation only.
- Randomness: `Math.random()` for the question index and the opponent's 70 % coin become the parameters `draw` and `opponentCorrect`. The 70 % probability is not modelled.
- `Date.now()`: the duel id is the parameter `duelId`.
- Win rates are decimals with one digit in the app. The model holds them as integers in tenths; the comparator's sign, and so the sort, is the same.
- The initial `useEffect` that creates the player on mount is not an operation; `Init` is the state after it has run.
- Aliasing: `answerQuestion` shallow-copies the players pair, so the app mutates the shared player object in place, including `currentPlayer`'s health during a duel. The model uses value semantics. `Good` states that `currentPlayer` stays the initial player, which holds in the model but not for the mutated object in the app. Reset restores health either way.
- `GameContext.NextRound` and `GameContext.CreateDuel` require `draw` inside the subject's pool. An index past the end would make the app read `undefined`. Every pool is non-empty (`Questions.EverySubjectHasQuestions`), so a real draw is always in range. `Step` leaves the state alone for such an event, and `Enabled` rules it out.
- `Duel.Tick` models the countdown on the stored `timeRemaining`. The app counts a closure-local copy that is written back each second, so the two agree whenever the interval is restarted only by a new question or status. That restart rule (the effect dependencies) is not modelled.
- The stale closures of the timeout and answer callbacks are modelled only for `nextRound` (see Findings). The rest of the model, and the invariant proofs, treat every operation as reading the current state.
- The statuses 'waiting' and 'completed' exist in the type but are never produced by the app; reaching the last round leaves the duel paused at round 5 rather than completed. The model follows the code.
- `Leaderboard.TopPlayers` sorts a copy in the app, so the shipped table is never modified; with value semantics this holds trivially and is not stated.
- The question card's lock: the card disables its buttons once `selectedAnswer` is set (src/components/duel/QuestionCard.tsx:88). That state is never cleared, and the card is not re-created between rounds, so in the app a player answers at most once per duel while the duel screen stays mounted, and later rounds can only time out; leaving the duel screen through the navigation bar and returning re-creates the card with a fresh selection. `Enabled`, and so every invariant proof over `Run`, allows an answer in every active round. The invariants are therefore proved for more runs than the app allows. The lock itself is modelled by `EnabledWithCard` and `CardAfter` (see Findings).
- `GameContext.CardAfter`: drops the lock only when the duel goes away; a re-creation of the card because the player left the duel screen through the navigation bar and came back (src/pages/Duel.tsx:10-15, src/components/layout/Navbar.tsx:10-15) is not modelled, since navigation is not part of the model.
- The rest of the user interface is not modelled beyond the guards that `Enabled` encodes (src/components/duel/DuelArena.tsx:71-75 and 191-196, src/components/duel/QuestionCard.tsx:24). This covers the subject pages, navigation and the leaderboard table's rendering.

## Findings

| source | as written | input that shows it | evidently intended | confidence | as-written member | corrected member |
|---|---|---|---|---|---|---|
| src/contexts/GameContext.tsx:167-199 | the `nextRound` scheduled 2 s after an answer closes over the duel of that render: its guards (`winnerId`, `currentRound >= maxRounds`) and its new damage use the old duel, while its round counter uses the current one | answer round 1 and press "Continue to Next Round" (shown while paused) within 2 s: the late call moves to round 3 with damage 1500; the same race in round 4 reaches round 6 of 5 | each round is entered once, damage follows 1000 + 500 * (round - 1), and rounds stop at 5 | medium, not executed | GameContext.NextRoundFromStale, GameContext.StaleAdvanceBreaksSchedule, GameContext.StaleAdvancePassesLastRound, GameContext.StaleAdvanceReopensWonDuel | GameContext.NextRound, GameContext.ReachableDuelsFollowSchedule |
| src/components/duel/QuestionCard.tsx:21-27 | the card's `selectedAnswer` is set on the first click and never reset, and the card (src/components/duel/DuelArena.tsx:191-198, no `key`) stays mounted across rounds, so its buttons stay disabled (QuestionCard.tsx:88) after the first answer of a duel while the duel screen stays mounted | answer round 1, let round 2 start: round 2 is active but no option can be clicked, so it can only time out | each round's question can be answered once | high, not executed | GameContext.EnabledWithCard, GameContext.CardAfter, GameContext.LockedCardRefusesSecondRound | GameContext.Enabled, GameContext.EveryActiveRoundTakesAnAnswer |
