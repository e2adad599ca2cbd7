# Simon says: the game state machine

This project models the game logic of a browser Simon-says game (`script.js`) and proves properties of it in Dafny.
The computer draws one colour per round from four pads (red, green, blue, yellow), plays the whole sequence back, and then lets the player repeat it.
One wrong click loses; repeating the whole sequence of round `maxRounds` (5) wins.
After a game ends, a timer resets everything.

The project has three modules, one per file:

- `SimonState` (`simon_state.dfy`) is the game on values.
  - Five of the six module-level variables (all but `maxRounds`, which is the constant `MaxRounds`) form one `State`, together with the field `pending`, which is not a variable of the source.
  - Each handler is a function from the old state to the new one: `StartGame`, `NextRound`, `PlaySequence`, `PlaybackFinished`, `HandlePadClick`, `GameOver` and `ResetGame`.
  - Deferred callbacks are explicit. The field `pending` records which callback the browser still has to run.
  - An `Event` is a start-button click, a pad click, or one of the callbacks firing. `Enabled` says when each event can happen, `Step` applies one event, and `Trace`/`Run` apply a sequence of them.
  - `Inv` is the invariant of every reachable state.
- `SimonProperties` (`simon_properties.dfy`) holds the lemmas:
  - one per handler;
  - preservation of `Inv` by every event, and so on every reachable state;
  - properties of whole runs: the sequence only grows at its end, a finished game is frozen until the reset, a correct round completes, a wrong click at any position loses, and a perfect player wins after exactly `maxRounds` rounds;
  - the lost game of three rounds worked through as a concrete scenario.
- `SimonGame` (`simon_game.dfy`) is the game as the source writes it: class `Game`, whose fields are the five variables `gameSequence`, `playerSequence`, `round`, `isPlayerTurn` and `gameStarted`, updated in place, plus the ghost field `pending`.
  - It has one method per handler and one per timer callback: playback finished, round transition fired, and auto-reset fired.
  - Every method except `GameOver` keeps `Valid()` (that is, `Inv`) and states its new state as a `SimonState` function of the old state (`Step` or `Initial()` for the callbacks); most of them also state it field by field.
  - `GameOver` is a helper that runs in the middle of a click, when `Valid()` does not hold. It states its new state field by field and as `SimonState.GameOver` of the old one.

Modelling decisions:

- The random draw `Math.floor(Math.random() * colors.length)` (script.js:47) is a parameter `pick` with `pick < |Colors|`.
- The colour a pad reports is a `Color`.
- `maxRounds` is never reassigned in the source, so it is the constant `MaxRounds = 5`.
- `playSequence` runs on a 600 ms interval, but nothing else can change the state while it runs: clicks are ignored because `isPlayerTurn` is false, and the start button is hidden. So one method models it. Its loop activates `gameSequence[0]`, `gameSequence[1]`, … in index order and returns the activated colours.
- The start button is hidden when a game starts (script.js:33) and shown again only by `resetGame` (script.js:179). So a start click is possible only when no game is running and no callback is pending. `StartGame` requires exactly that.
- `resetGame` is called only by the auto-reset callback (script.js:163-165), which `gameOver` schedules. So `ResetGame` requires that no game is running, and it consumes the pending reset.
- A click at an index past the end of `gameSequence` reads `undefined` in the source, and `undefined` differs from every colour. The model therefore treats such a click as wrong. `Inv` shows this case cannot happen.
- The source tracks phases with two flags, `isPlayerTurn` and `gameStarted`, plus the timers it has scheduled. It has no single phase variable, so the model combines the same flags with `pending`.
- The source does not cancel stale timers. In its reachable states no timer is ever outstanding when a new one is scheduled, and the model's `Enabled` and `Inv` show this.
- The source has no guard against colours outside the alphabet; here the `Color` type rules them out.

## Model

| member | source | states |
|---|---|---|
| SimonGame.Game.constructor | script.js:2-7 | the initial values: both sequences empty, round 0, both flags false, nothing pending |
| SimonGame.Game.StartGame | script.js:26-38 | from idle: round 1, empty player input, game started, computer's turn, sequence is exactly the one drawn colour; invariant kept |
| SimonGame.Game.NextRound | script.js:41-61 | round goes up by one, player input emptied, computer's turn, sequence is the old one plus the drawn colour, playback scheduled |
| SimonGame.Game.PlaySequence | script.js:64-73 | the pads activated are exactly gameSequence in index order; only the pending callback changes, to the hand-off |
| SimonGame.Game.PlaybackFinished | script.js:73-77 | the player's turn begins with empty input; the number of clicks asked for is the sequence length, at least 1 |
| SimonGame.Game.HandlePadClick | script.js:83-120 | a stray click is ignored and changes nothing; otherwise the colour is appended, and it loses exactly when it differs from the colour at that index; a completed sequence wins on round maxRounds or schedules the next round; a partial one reports remaining clicks of at least 1; the sequence and round never change |
| SimonGame.Game.GameOver | script.js:147-149 | game stopped, turn ended, auto-reset scheduled; sequences and round kept |
| SimonGame.Game.RoundTransitionFired | script.js:111-113 | runs nextRound: one colour appended, round still at most maxRounds |
| SimonGame.Game.AutoResetFired | script.js:163-165 | the state becomes the initial state |
| SimonGame.Game.ResetGame | script.js:169-174 | both sequences empty, round 0, both flags false: equal to the initial state |
| SimonProperties.StartGameBeginsRoundOne | script.js:26-48 | after startGame: round 1, empty input, started, not the player's turn, one-element sequence holding the drawn colour, invariant holds |
| SimonProperties.NextRoundAppendsOne | script.js:41-48 | round + 1, input emptied, turn ended, exactly one colour from the alphabet appended with every earlier element kept, so length == round is preserved |
| SimonProperties.StrayClickIgnored | script.js:83-84 | a click outside the player's turn or outside a game leaves the whole state unchanged |
| SimonProperties.WrongClickLoses | script.js:87-97 | a wrong click loses: game stopped, wrong colour kept in the input, reset pending, and every later click ignored |
| SimonProperties.ClickLosesIff | script.js:93-97 | a click loses if and only if it is accepted and differs from gameSequence at the input's index |
| SimonProperties.CompletingClick | script.js:101-114 | a right click that completes the sequence ends the turn; it wins on round maxRounds and otherwise only schedules the round transition |
| SimonProperties.PartialClick | script.js:115-118 | a right click that does not complete the sequence keeps the turn, the input stays a proper prefix, and the remaining count is at least 1 |
| SimonProperties.ClickKeepsSequence | script.js:83-120 | no click changes the sequence or the round |
| SimonProperties.ResetRestoresInitial | script.js:169-174 | reset yields the initial state, so a second reset changes nothing |
| SimonProperties.TurnBeginsAfterPlayback | script.js:64-77 | the player's turn begins only through the hand-off, and the hand-off is scheduled only by playback |
| SimonProperties.RoundClearedLeadsOnlyToNextRound | script.js:101-113 | after a cleared round, every event except the round transition leaves the state unchanged |
| SimonProperties.InitialInv | script.js:2-7 | the initial state satisfies the invariant |
| SimonProperties.ClickPreservesInv | script.js:83-120 | a click keeps the invariant |
| SimonProperties.StepPreservesInv | script.js:26-174 | every enabled event keeps the invariant |
| SimonProperties.RunPreservesInv | script.js:26-174 | every run of enabled events keeps the invariant |
| SimonProperties.ReachableStates | script.js:2-7 | in every reachable state the sequence length equals round, round is at most maxRounds, and during the player's turn the input is a proper prefix of the sequence |
| SimonProperties.SequenceFrozenBetweenRounds | script.js:64-120 | playback, the hand-off and clicks never change the sequence or the round |
| SimonProperties.SequenceOnlyGrows | script.js:41-48 | within one game the old sequence is a prefix of every later one, growing by one colour per round |
| SimonProperties.GameOverIsFrozen | script.js:147-165 | after game over, every possible event except the auto-reset leaves the state unchanged |
| SimonProperties.RestOfRoundCompletes | script.js:93-114 | clicking the rest of the sequence completes the round: win on the last round, round transition before it |
| SimonProperties.CorrectRoundCompletes | script.js:93-114 | the full correct input of a round completes it |
| SimonProperties.MistakeAfterRightClicksLoses | script.js:87-97 | right clicks followed by a wrong one lose, keeping the wrong colour |
| SimonProperties.WrongClickAnywhereLoses | script.js:87-97 | a wrong colour at any position of a round loses at once, however many right ones came first |
| SimonProperties.ClickEventsRun | script.js:83-84 | pad clicks are always possible, and running them is applying handlePadClick in turn |
| SimonProperties.DrawnExtends | script.js:47-48 | the colours drawn so far grow by the newly drawn colour appended at the end |
| SimonProperties.PerfectRound | script.js:64-114 | a round played back and repeated without a mistake leaves the sequence as it was and ends in the win or the round transition |
| SimonProperties.PerfectGameRun | script.js:41-114 | after n perfect rounds the sequence and the input are the n drawn colours and round is n, with the next round pending before maxRounds and the reset after |
| SimonProperties.PerfectPlayWins | script.js:101-107 | repeating every sequence wins after exactly maxRounds rounds |
| SimonProperties.LostGame | script.js:87-97 | red, green, blue drawn; red, then red-green, then red-green-yellow clicked: lost in round 3 with input red, green, yellow frozen |

## Left out

- DOM work is presentation and is not modelled: element lookups, `classList` and `textContent` updates, `activatePad`, `enablePads`, `disablePads` and the event-listener wiring.
  - The status text survives only as the `Response` of a click and the click count returned by `PlaybackFinished`.
- Timer durations are not modelled (1000, 600, 500, 1500, 3000 and 300 ms). Each deferred callback is an explicit event or method instead.
- `Math.random` is not modelled. The drawn index is a parameter.
- Status-message pluralisation is cosmetic and is not modelled.
- The `won` argument of `gameOver` only selects the message and the CSS class. `GameOver` has no such argument; the click's `Response` (`GameWon` or `GameLost`) carries it.
- Stale-timer cancellation is not modelled: the source has no timer handle or generation counter.
- SimonGame.Game.StartGame: the source's `startGame` has no guard of its own. The requirement that no game is running and no callback is pending stands for the start button being hidden during a game, which is presentation.
- SimonGame.Game.ResetGame: the source's `resetGame` has no guard. It is only ever called after `gameOver`, so the model requires that no game is running.
- The 600 ms ticks of `playSequence`'s interval are not separate events. Nothing can change the game state between two ticks, so `PlaySequence` runs them as one loop.
