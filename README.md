# Hack4Music game sessions in Dafny

Hack4Music is a camera-driven music game. Six instruments sit at fixed places
on the screen. A player selects one either by holding a tracked fingertip
over it for one second (hand control, the "dwell" or "hover" selector) or by
clicking it (mouse control, with a 0.5 s click cooldown). This project models
the session engines behind the three game modes:

- **Free play** (`PlaygroundMode`, `playground.dfy`). Every confirmed selection
  plays the instrument and is logged. The in-memory history keeps the last ten
  notes, and the dwell completes inside `update_hover` itself.
- **Challenge** (`MusicalGame`, `challenge.dfy`). This is a single-player
  "Simon". A random sequence of `min(level + 1, 6)` instruments is shown one
  step per tick, then the player repeats it. A full repetition raises the
  level after 1.5 s; a wrong pick ends the game.
- **Multiplayer** (`MultiplayerGame`, `multiplayer.dfy`). Players take turns
  creating a sequence of `current_level` instruments. Every other player in
  turn watches it and repeats it. A full repetition gives the guesser a point
  at once. A mistake gives the creator a point, credited when the round ends.
  After every player has created once, the level rises.

Shared parts live in their own modules:

- `Catalog` (`catalog.dfy`): instrument positions, the hit test, the catalogue scan and the game area.
- `Dwell` (`dwell.dfy`): dwell progress and the click cooldown.
- `Round` (`round.dfy`): sequences, the judging of one pick, and a reference replay of a run of picks.
- `Scoreboard` (`scoreboard.dfy`): score totals and the stable descending ranking.

Each session class is modelled as a Dafny `class` with the source's fields.
Its methods follow the source method by method. In the challenge and
multiplayer classes, and for the playground's `CheckTouch`, a method states its
effect as `View() == F(old(View()), ...)`. Here `View()` bundles the mutable
fields into a `Fields` value, and `F` is a pure function for the transition.
The other playground methods, and the multiplayer `ResetHoverState`, state the
hover, history and log fields they change one by one. The
game's properties are proved as lemmas about these functions:

- invariants that every transition keeps;
- score conservation;
- the turn order and creator rotation;
- one activation per dwell;
- cooldown debouncing;
- the bounded history.

Time is the caller's clock in integer milliseconds, passed in as `now`. The source starts `last_touch_time` at 0 and reads an epoch clock, so its first click always falls outside the 0.5 s cooldown. The model also starts `lastTouchTime` at 0, and assumes `now` starts well past 500 ms, as an epoch clock does; with a clock that starts near 0, the model would drop a click made in the first 500 ms.

Where the code departs from the game's stated rules, the model follows the code:

- `next_level` sets the creator to 0 and then calls `next_creator`, so player 1 creates first in every level after the first (src/multiplayer.py:335-343), although the comment there says the first player starts.
- The multiplayer level has no upper bound: sequences have exactly `current_level` instruments. Only the challenge caps the length at 6.
- In the challenge, GameOver is terminal: `update` has no transition out of it.
- The challenge's Showing state never highlights anything. Its highlight stays -1, and the pacing is a blocking sound-length pause, which the model reduces to one display step per tick.

## Model

| member | source | states |
|---|---|---|
| Catalog.FirstHitFrom | src/playground.py:80-85 | the result is -1 or a hit instrument at or after `from`, and no instrument between `from` and the result (or any, when -1) is hit |
| Catalog.Hits | src/challenge.py:149-150 | definition: the cursor is within 40 pixels of the instrument centre, boundary included; the squared distance is compared with 40 squared, which for integer coordinates is the source's square-root test, also at src/multiplayer.py:175-176 and src/playground.py:82-83 |
| Catalog.FirstHit | src/challenge.py:147-152 | -1 exactly when no instrument lies within radius 40 of the cursor; otherwise a catalogue index that is hit, with every earlier instrument missed (catalogue order breaks ties) |
| Catalog.Scan | src/multiplayer.py:173-178 | the loop over the catalogue that stops at the first hit returns exactly `FirstHit` |
| Catalog.InGameArea | src/playground.py:124-128 | definition: the point lies at least 50 pixels inside the frame on every side, bounds included |
| Catalog.CentresInGameArea | src/playground.py:12-19 | every instrument's centre lies in the game area exactly when the frame is at least 600 by 400 pixels; in a smaller frame some centre cannot be clicked |
| Catalog.CentresSelectThemselves | src/playground.py:12-28 | a cursor on any instrument's centre selects that instrument: no earlier instrument's hit zone covers it |
| Dwell.Progress | src/multiplayer.py:150-152 | progress lies in [0, 1] once the clock is at or past the start, is 0 at the start, and reaches 1 exactly when 1 s has elapsed |
| Dwell.ProgressMonotone | src/challenge.py:123-124 | while the same candidate is held, progress never decreases as time moves forward |
| Dwell.Retarget | src/multiplayer.py:180-186 | the tracked candidate becomes the hovered one; a new candidate restarts the timer at `now` with progress 0, no candidate resets to (-1, 0, 0.0), and the same candidate leaves the state alone |
| Dwell.CheckDwell | src/challenge.py:121-129 | the tracked candidate fires exactly when 1 s has elapsed, and then the hover returns to idle; otherwise the stored progress is below 1 and nothing fires |
| Dwell.CooldownOver | src/multiplayer.py:194-196 | definition: a click is considered only when at least 0.5 s have passed since the last accepted click |
| Round.SequenceLength | src/challenge.py:67 | from level 1 on the length is between 2 and 6; it is level + 1 up to level 5 and 6 from level 5 on |
| Round.SequenceLengthMonotone | src/challenge.py:67 | sequence lengths never shrink as the level rises |
| Round.Judge | src/challenge.py:191-205 | a pick is wrong exactly when it differs from the expected instrument, and completes the sequence exactly when it matches at the last position |
| Round.JudgeStep | src/multiplayer.py:226-257 | after a pick, the history is a longer correct prefix, the whole sequence, or a correct prefix followed by exactly one wrong pick, according to the verdict |
| Round.ReplayFromGuessed | src/challenge.py:182-201 | replaying picks from position `index` wins exactly when they reproduce the rest of the sequence |
| Round.ReplayGuessed | src/challenge.py:182-201 | a turn is won exactly when the first picks reproduce the whole sequence |
| Round.ReplayFromMissed | src/challenge.py:182-205 | replaying from `index` is lost at k exactly when the picks up to k were right and the one at k was wrong |
| Round.ReplayMissed | src/challenge.py:182-205 | a turn is lost at position k exactly when every earlier pick was right and the pick at k was wrong |
| Round.ReplayAgrees | src/challenge.py:182-205 | a correct prefix replays as still playing at its index, a single trailing mistake as a miss there, and the whole sequence as won |
| Round.ReplayPrefix | src/challenge.py:191-194 | feeding the correct instruments from one position to a later one leaves the turn playing at the later position |
| Playground.LastN | src/playground.py:71-72 | the last n entries of the log, never more than n |
| Playground.Recorded | src/playground.py:67-72 | definition: append the note, then drop the oldest entry when more than ten are held |
| Playground.RecordedKeepsRecent | src/playground.py:67-72 | if the in-memory history is the last ten notes of the full log, it still is after one more note is appended and the oldest dropped; it never exceeds ten and ends with the new note |
| Playground.HoverStep | src/playground.py:80-100 | one hand-control `update_hover` fires nothing or the instrument under the cursor |
| Playground.FirstSelectionDoesNotFire | src/playground.py:87-100 | the call that first selects an instrument starts its timer at that call with progress 0 and does not fire |
| Playground.HoldWithin | src/playground.py:95-100 | while the cursor stays on one instrument, every activation happens at one of the update times |
| Playground.HoldSpacing | src/playground.py:95-100 | holding still, the first activation comes at least 1 s after the hold began, and each later one at least 1 s after the previous one |
| Playground.HoldFires | src/playground.py:95-100 | holding still on an instrument through an update at least 1 s after the hold began activates it at least once |
| Playground.HoldFiresOnce | src/playground.py:95-100 | a hold of at least 1 s and under 2 s activates the instrument exactly once |
| Playground.PlaygroundMode.constructor | src/playground.py:35-45 | a new session has an empty history, an idle hover, no click recorded and an empty log |
| Playground.PlaygroundMode.ActivateInstrument | src/playground.py:60-72 | the note is appended to the log; the history drops its oldest note past ten and stays equal to the last ten notes of the log |
| Playground.PlaygroundMode.UpdateHover | src/playground.py:74-100 | in hand control, tracks the first instrument hit and logs it exactly when its dwell completes, leaving the hover as `HoverStep` says; in mouse control nothing changes; the history invariant is kept |
| Playground.PlaygroundMode.ResetHoverState | src/playground.py:102-106 | the hover state becomes (-1, 0, 0.0) whatever it was, so a second call changes nothing |
| Playground.Touched | src/playground.py:108-122 | definition: in mouse control, a click outside the cooldown on an instrument records the first instrument hit in the history and sets the click time; otherwise nothing changes |
| Playground.SecondClickDropped | src/playground.py:113-122 | once a click on an instrument is accepted at t1 and recorded last in the history, a second click before t1 + 0.5 s changes nothing; from t1 + 0.5 s on, a click on an instrument is recorded again |
| Playground.PlaygroundMode.CheckTouch | src/playground.py:108-122 | the new state is `Touched` of the old one: in mouse control, a click outside the cooldown on an instrument logs the first instrument hit and records the click time; any other click changes nothing; the history invariant is kept |
| Challenge.Reset | src/challenge.py:75-86 | definition: index, picks and display index zero or empty, Showing with no highlight from `now`, idle hover |
| Challenge.Activated | src/challenge.py:182-205 | definition: the pick is appended and judged against the expected instrument; properties in `ActivatedInStep` |
| Challenge.DwellStep | src/challenge.py:119-131 | definition: the hover block of `update`; properties in `DwellTick` |
| Challenge.Ticked | src/challenge.py:88-131 | definition: the state-machine step, then the hover step; properties in `TickedKeepsInv`, `ShowingStep`, `SuccessGate`, `DwellTick` |
| Challenge.Hovered | src/challenge.py:139-164 | definition: in hand control while waiting, `Retarget` on the first instrument hit; otherwise nothing changes |
| Challenge.Touched | src/challenge.py:166-180 | definition: in mouse control while waiting and outside the cooldown, the first instrument hit is activated and the click time set; properties in `TouchDebounced` and `SecondClickDropped` |
| Challenge.Phase | src/challenge.py:92-117 | after the state-machine step, Waiting always has a next expected instrument |
| Challenge.ActivatedInStep | src/challenge.py:182-205 | a pick is always recorded; a right pick advances the index by one, and at the end becomes Success with the completion time recorded; a wrong pick is GameOver with the index unchanged; level and sequence are kept, and so is the invariant |
| Challenge.StateMatchesReplay | src/challenge.py:182-205 | outside Showing, the game state is what the reference replay of the player's picks reports |
| Challenge.TickedKeepsInv | src/challenge.py:88-131 | every `update` keeps the session invariant: the sequence fits the level, picks are in step with the state, and hover is live only in hand control while waiting |
| Challenge.PhaseKeepsInv | src/challenge.py:92-117 | the state-machine block alone keeps the invariant |
| Challenge.ShowingStep | src/challenge.py:92-110 | in Showing, a tick advances the display index by exactly one and changes nothing else; after the last step the state becomes Waiting with no highlight and no picks |
| Challenge.SuccessGate | src/challenge.py:112-117 | more than 1.5 s after completion the level rises by one and the turn restarts on a new sequence with index, picks, display index and hover reset; before that, and in GameOver, a tick changes nothing |
| Challenge.DwellTick | src/challenge.py:119-131 | in hand control while waiting, a tick keeps progress below 1 or, after a full second, records exactly the tracked instrument once and resets hover; with no candidate progress is 0 |
| Challenge.SecondClickDropped | src/challenge.py:171-180 | once a click on an instrument is accepted at t1, a second click before t1 + 0.5 s changes nothing; from t1 + 0.5 s on, a click on an instrument while still waiting is accepted again |
| Challenge.TouchDebounced | src/challenge.py:166-180 | a click acts only while waiting, outside the cooldown and on an instrument, recording that pick and the click time; otherwise nothing changes |
| Challenge.MusicalGame.constructor | src/challenge.py:40-62 | a new session starts at level 1, Showing a fresh two-instrument sequence, and satisfies the invariant |
| Challenge.MusicalGame.GenerateNewSequence | src/challenge.py:64-73 | the new sequence has exactly min(level + 1, 6) catalogue indices, and the turn is reset to a fresh Showing state |
| Challenge.MusicalGame.ResetForNewSequence | src/challenge.py:75-86 | index, picks and display index are zero or empty, the state is Showing with no highlight and the hover is idle |
| Challenge.MusicalGame.Update | src/challenge.py:88-131 | the new state is one `update` tick, the state-machine step then the dwell step, whose effects `ShowingStep`, `SuccessGate` and `DwellTick` state; the session invariant is kept |
| Challenge.MusicalGame.UpdatePhase | src/challenge.py:92-117 | the new state is the state-machine step: one display step while showing, or the level advance once the 1.5 s gate opens, which draws a sequence that fits the new level |
| Challenge.MusicalGame.UpdateDwell | src/challenge.py:119-131 | the new state is the dwell step: in hand control while waiting, a completed dwell records the tracked instrument once and resets hover, as `DwellTick` states |
| Challenge.MusicalGame.ResetHoverState | src/challenge.py:133-137 | the hover becomes (-1, 0, 0.0) and nothing else changes |
| Challenge.MusicalGame.UpdateHover | src/challenge.py:139-164 | only in hand control while waiting, the first instrument hit is tracked as `Retarget` says; the invariant is kept |
| Challenge.MusicalGame.CheckTouch | src/challenge.py:166-180 | only in mouse control while waiting and outside the cooldown, the first instrument hit is activated and the time recorded; the invariant is kept |
| Challenge.MusicalGame.ActivateInstrument | src/challenge.py:182-205 | the pick is recorded and judged as `ActivatedInStep` states, and the result reports game over exactly when the pick differs from the expected instrument |
| Scoreboard.TotalWithout | src/multiplayer.py:305-310 | the points of a score table are one entry's points plus the rest |
| Scoreboard.TotalBump | src/multiplayer.py:239 | raising one existing entry by d raises the table's points by d |
| Scoreboard.TotalAdd | src/multiplayer.py:250-252 | adding a new entry with v points raises the table's points by v |
| Scoreboard.TotalSingle | src/multiplayer.py:305-307 | a table with one entry holds exactly that entry's points |
| Scoreboard.Upto | src/multiplayer.py:348 | the player indices in join order |
| Scoreboard.Ranking | src/multiplayer.py:348 | definition: the players sorted by descending score; its properties are in `RankingCorrect` and `RankingUnique` |
| Scoreboard.Insert | src/multiplayer.py:348 | inserting a player into the standings adds exactly that player |
| Scoreboard.RankFirst | src/multiplayer.py:348 | the standings of the first k players hold exactly those players |
| Scoreboard.InsertOrdered | src/multiplayer.py:348 | inserting a new player keeps the standings in descending score order, ties in join order |
| Scoreboard.RankFirstOrdered | src/multiplayer.py:348 | the standings of the first k players are ordered |
| Scoreboard.RankingCorrect | src/multiplayer.py:348 | the ranking lists every player exactly once, by descending score, with equal scores in join order (a stable descending sort) |
| Scoreboard.RankingUnique | src/multiplayer.py:489 | any ordered listing of all players is the ranking, so the score bar and the printed scores agree |
| Scoreboard.OrderedUnique | src/multiplayer.py:489 | two ordered listings of the same players are equal |
| Multiplayer.StartGuessing | src/multiplayer.py:259-268 | definition, corrected: the first guesser, Showing from the start at `now`, index 0 and no picks |
| Multiplayer.FirstGuesser | src/multiplayer.py:261-264 | definition: player 0 guesses first, or player 1 when player 0 created the sequence |
| Multiplayer.NextGuesserIdx | src/multiplayer.py:277-281 | definition: the next player, skipping the creator once |
| Multiplayer.StartGuessingAsWritten | src/multiplayer.py:259-268 | definition, as written: the first guesser and Showing from the start at `now`, with the previous index and picks kept |
| Multiplayer.CreatorPicked | src/multiplayer.py:213-222 | definition: the creator's branch of `activate_instrument`; properties in `CreatorPickStep` |
| Multiplayer.Credit | src/multiplayer.py:250-252 | definition: the creator's pending points go up by one, with a missing entry read as 0 |
| Multiplayer.GuesserPicked | src/multiplayer.py:224-257 | definition: the guesser's branch of `activate_instrument`; properties in `GuesserPickStep` |
| Multiplayer.Activated | src/multiplayer.py:205-257 | definition: the creator's branch while waiting for the creator, the guesser's branch while waiting for input, nothing otherwise; properties in `ActivatedKeepsInv` |
| Multiplayer.NextGuesserReset | src/multiplayer.py:290-297 | definition: no picks, index 0, Showing from display index 0 at `now`, idle hover |
| Multiplayer.Settled | src/multiplayer.py:305-311 | definition: the creator's pending points are added to their score, the pending table emptied, the round counted |
| Multiplayer.CreatorRotated | src/multiplayer.py:320-325 | definition: the creator index advances by one mod n; WaitingForCreator with an empty created sequence and idle hover |
| Multiplayer.LevelRaised | src/multiplayer.py:331-343 | definition: the level rises, the round counter resets, the creator is set to 0 and then rotated |
| Multiplayer.RoundEnded | src/multiplayer.py:302-318 | definition: settle, then the next level after a round per player, else the next creator; properties in `RoundEndStep` |
| Multiplayer.GuesserDone | src/multiplayer.py:275-288 | definition: the next guesser skipping the creator, then the end of the round past the last player or a fresh turn; properties in `GuesserDoneStep` |
| Multiplayer.Phase | src/multiplayer.py:105-142 | definition: the display cycle and the two pauses; properties in `ShowingStep`, `PauseStep`, `PhaseKeepsInv` |
| Multiplayer.DwellStep | src/multiplayer.py:148-158 | definition: the hover block of `update`; properties in `DwellTick`, `DwellStepKeepsInv` |
| Multiplayer.Ticked | src/multiplayer.py:98-158 | definition: the state-machine step, then the hover step; properties in `TickedKeepsInv` |
| Multiplayer.Hovered | src/multiplayer.py:165-186 | definition: in hand control while a pick is expected, `Retarget` on the first instrument hit; otherwise nothing changes |
| Multiplayer.Touched | src/multiplayer.py:188-203 | definition: in mouse control while a pick is expected and outside the cooldown, the first instrument hit is activated and the click time set; properties in `InputGated`, `SecondClickDropped` |
| Multiplayer.GuessersFromOthers | src/multiplayer.py:275-288 | from any guesser other than the creator, the guessers that follow are the remaining players except the creator, in join order |
| Multiplayer.TurnOrder | src/multiplayer.py:259-264 | in every round, each player other than the creator guesses exactly once, in join order |
| Multiplayer.CreatorsRotate | src/multiplayer.py:313-343 | within a level the creators of the n rounds are n different players, and each player creates in exactly one round |
| Multiplayer.Initial | src/multiplayer.py:47-84 | definition: every player at 0 points, player 0 creating at the starting level, nothing created, guessed or pending, idle hover |
| Multiplayer.InitialInv | src/multiplayer.py:47-84 | a new session satisfies the session invariant |
| Multiplayer.CreatorPickStep | src/multiplayer.py:213-222 | a creator's pick appends exactly that instrument; at current_level instruments it becomes the sequence to guess (of exactly current_level), the created list is emptied and it is shown from the start to the first guesser; scores untouched, invariant kept |
| Multiplayer.GuesserPickStep | src/multiplayer.py:224-257 | a right pick advances the index; completing the sequence gives the guesser exactly one point, changes no other score and is Success; a wrong pick is GameOver with scores unchanged and one more pending point for the creator; points handed out rise by one per finished turn |
| Multiplayer.ActivatedKeepsInv | src/multiplayer.py:205-257 | activation keeps the invariant and changes nothing unless a pick is expected |
| Multiplayer.RoundEndStep | src/multiplayer.py:302-343 | scores plus pending points are conserved; pending points are emptied; the next player (mod n) creates, or after n rounds the level rises, the counter resets and player 1 creates; state is WaitingForCreator with an empty created sequence and idle hover |
| Multiplayer.GuesserDoneStep | src/multiplayer.py:275-297 | the guesser index moves to the next player other than the creator; past the last player the round ends, otherwise that player gets the sequence shown from the start with no picks, index 0 and idle hover, scores untouched |
| Multiplayer.GuesserDoneKeepsInv | src/multiplayer.py:275-297 | moving to the next guesser keeps the invariant |
| Multiplayer.RoundEndKeepsInv | src/multiplayer.py:302-343 | ending a round keeps the invariant, including the creator rotation of the level |
| Multiplayer.PhaseKeepsInv | src/multiplayer.py:105-142 | the state-machine block keeps the invariant |
| Multiplayer.DwellStepKeepsInv | src/multiplayer.py:148-158 | the hover block keeps the invariant |
| Multiplayer.TickedKeepsInv | src/multiplayer.py:98-158 | every `update` keeps the invariant: guesser below the player count and never the creator while guessing, sequence of exactly current_level, picks in step with the state, creator following the rotation, hover live only when a pick is expected |
| Multiplayer.ShowingStep | src/multiplayer.py:109-123 | while showing, the current instrument is highlighted for the first 0.8 s of a cycle, nothing until 1.1 s, then the display moves on and restarts the cycle; after the last one the state is Waiting with no highlight |
| Multiplayer.PauseStep | src/multiplayer.py:128-142 | the first Success or GameOver tick starts a timer; once more than 1.0 s (after success) or 1.5 s (after a mistake) has passed, the next guesser follows; before that nothing changes |
| Multiplayer.DwellTick | src/multiplayer.py:148-158 | in hand control while a pick is expected, a tick keeps progress below 1 or, after a full second, activates exactly the tracked instrument once and resets hover |
| Multiplayer.InputGated | src/multiplayer.py:165-203 | hover and click change nothing unless a pick is expected, a click within the cooldown changes nothing, and both keep the invariant |
| Multiplayer.SecondClickDropped | src/multiplayer.py:194-203 | once a click on an instrument is accepted at t1, a second click before t1 + 0.5 s changes nothing; from t1 + 0.5 s on, a click on an instrument is accepted again while a pick is still expected; the invariant is kept |
| Multiplayer.StaleTurnAfterRound | src/multiplayer.py:259-268 | the input of the finding below: as written, the next round's first guesser starts at index 2 of a 2-instrument sequence with stale picks, while the corrected start gives index 0 and no picks |
| Multiplayer.ScoreList | src/multiplayer.py:348 | the players' scores in join order |
| Multiplayer.Standings | src/multiplayer.py:348 | definition: the ranking shown by `print_scores` and the score bar (also src/multiplayer.py:489), the `Ranking` of the scores in join order; its properties are in `StandingsCorrect` |
| Multiplayer.StandingsCorrect | src/multiplayer.py:345-350 | the standings name every player once, by descending score, with equal scores in join order |
| Multiplayer.MultiplayerGame.constructor | src/multiplayer.py:47-84 | everyone at 0 points, player 0 creating at the starting level, no pending points; the invariant holds |
| Multiplayer.MultiplayerGame.GetCurrentCreator | src/multiplayer.py:86-87 | the creator is one of the players and has a score entry |
| Multiplayer.MultiplayerGame.GetCurrentGuesser | src/multiplayer.py:89-92 | a player exactly when the guesser index is below the player count, None past the last one |
| Multiplayer.MultiplayerGame.ResetHoverState | src/multiplayer.py:160-163 | the hover becomes (-1, 0, 0.0), so a second call changes nothing |
| Multiplayer.MultiplayerGame.UpdateHover | src/multiplayer.py:165-186 | in hand control while a pick is expected, tracks the first instrument hit as `Retarget` says; invariant kept |
| Multiplayer.MultiplayerGame.CheckTouch | src/multiplayer.py:188-203 | in mouse control while a pick is expected and outside the cooldown, activates the first instrument hit and records the time; invariant kept |
| Multiplayer.MultiplayerGame.ActivateInstrument | src/multiplayer.py:205-257 | the creator's or the guesser's branch, as `CreatorPickStep` and `GuesserPickStep` state |
| Multiplayer.MultiplayerGame.CreatorPick | src/multiplayer.py:213-222 | the pick is appended to the created sequence, and at current_level instruments guessing starts on it, as `CreatorPickStep` states |
| Multiplayer.MultiplayerGame.GuesserPick | src/multiplayer.py:224-257 | the pick is judged against the expected instrument, with the score changes `GuesserPickStep` states |
| Multiplayer.MultiplayerGame.StartGuessingPhase | src/multiplayer.py:259-268 | the corrected start of guessing: the first guesser, Showing from the start, index 0 and no picks |
| Multiplayer.MultiplayerGame.NextGuesser | src/multiplayer.py:275-288 | the next guesser, or the end of the round, as `GuesserDoneStep` states |
| Multiplayer.MultiplayerGame.ResetForNextGuesser | src/multiplayer.py:290-297 | no picks, index 0, Showing from display index 0 at `now`, idle hover |
| Multiplayer.MultiplayerGame.EndRound | src/multiplayer.py:302-318 | settles the round, then the next creator or the next level, as `RoundEndStep` states |
| Multiplayer.MultiplayerGame.SettleRound | src/multiplayer.py:305-311 | the creator's pending points are added to their score, the pending table is emptied and the round counted |
| Multiplayer.MultiplayerGame.NextCreator | src/multiplayer.py:320-325 | the creator index advances by one mod n, the state is WaitingForCreator with an empty created sequence and idle hover |
| Multiplayer.MultiplayerGame.NextLevel | src/multiplayer.py:331-343 | the level rises by one, the round counter resets and, through `next_creator`, player 1 mod n creates |
| Multiplayer.MultiplayerGame.Update | src/multiplayer.py:98-158 | the new state is one `update` tick, the state-machine step then the dwell step, whose effects `ShowingStep`, `PauseStep` and `DwellTick` state; the session invariant is kept |
| Multiplayer.MultiplayerGame.UpdatePhase | src/multiplayer.py:105-142 | the new state is the display cycle while showing and the pauses after a success or a mistake, as `ShowingStep` and `PauseStep` state |
| Multiplayer.MultiplayerGame.UpdateDwell | src/multiplayer.py:148-158 | the new state is the dwell step: while a pick is expected in hand control, a completed dwell activates the tracked instrument once and resets hover, as `DwellTick` states |

## Left out

- Sound playback and volume are left out: `pygame` calls are no-ops. So are console output and the timed on-screen messages (`show_timed_message`, `current_message`, `show_message_until`).
- Rendering, windows, menus, mouse callbacks, the `run_*` frame loops and the game-over screen are not part of this model. Neither is `src/main.py`, whose session logic repeats `src/challenge.py`.
- Hand tracking and the camera are left out: the cursor position is an input.
- The setup dialogs (`get_player_input`, `setup_multiplayer_game`) are left out. They admit 2 to 6 players and a starting level of 2 to 6. The multiplayer constructor requires only what the model needs, at least two players and a starting level of at least 1.
- Wall-clock time is an integer number of milliseconds passed as `now`. The `update` methods require that the clock has not gone back before the hover start.
- Floating point is replaced: dwell progress is an exact `real`, and the square-root distance test is replaced by the equivalent squared-distance test for integer coordinates.
- Blocking pauses are left out: `time.sleep(duration + 0.5)` while the challenge shows its sequence becomes one display step per tick, and `time.sleep(2)` after a challenge success and `time.sleep(1.0)` in `next_level` are dropped.
- `random.randint` in `generate_new_sequence` is a nondeterministic choice of a catalogue index. The challenge's `Ticked` takes the newly drawn sequence as a parameter.
- Playground CSV persistence (`init_csv`, `save_to_csv`) is an append-only ghost log. The note's timestamp is the clock value rather than formatted text.
- Instrument names are modelled only where they are stored (the playground history). `src/multiplayer.py` names three of the six positions differently from the other two files (Harmonijka, Organy and Skrzypce instead of Trabka, Harfa and Perkusja); the names do not affect the multiplayer session.
- The multiplayer scores-display and next-creator states are declared in the source but never entered, so the model omits them.
- The `hasattr`/`delattr` pause timers are optional values.
- Multiplayer.MultiplayerGame: the three display fields (highlight instrument, highlight start, display index) are held in one `display` field, and the three hover fields in one `hover` field. These are value-typed fields, updated as a whole rather than one attribute at a time.
- Challenge.MusicalGame.ActivateInstrument requires the Waiting state, as its callers guarantee. Called directly in another state, the source can read past the end of the sequence.
- Multiplayer.MultiplayerGame.StartGuessingPhase models the corrected `start_guessing_phase` (see Findings). The as-written version is `Multiplayer.StartGuessingAsWritten`.
- Multiplayer.MultiplayerGame.GetCurrentCreator requires the creator index to be in range, which the session invariant guarantees.

## Findings

| source | as written | input that shows it | evidently intended | confidence | as-written member | corrected member |
|---|---|---|---|---|---|---|
| src/multiplayer.py:259-268 | `start_guessing_phase` resets the guesser and the display but not `current_sequence_index` or `player_sequence`, and nothing on the way from the end of a round clears them, so the first guesser of the next round inherits the last guesser's progress | players A, B at level 2: B guesses A's [0, 1] correctly, the round ends, B creates [2, 3]; guessing starts with index 2 = len(sequence) and picks [0, 1], so A's first pick reads `sequence[2]` at line 227, past the end; after a mistake instead, the next first guesser is judged from the wrong position | start the guessing phase with index 0 and no picks, as `reset_for_next_guesser` does for later guessers | high; not executed | Multiplayer.StartGuessingAsWritten, Multiplayer.StaleTurnAfterRound | Multiplayer.StartGuessing, Multiplayer.MultiplayerGame.StartGuessingPhase, Multiplayer.TickedKeepsInv |
