# catchthebeat: the game engine's turn and round state machine

catchthebeat is a rhythm game. Players take turns reproducing a growing sequence of drum beats:

- A driver calls `tick()` once per timing window.
- An input handler calls `beat(v)` for each drum hit, from a human's keyboard or simulated for a computer.
- A player who reproduces the whole sequence may have to add one beat to it.
- A player who hits a wrong drum, or lets a window pass without a hit, is out.

There are two game modes:

- **Multi-player:** a computer "Beatstarter" opens the game, then the human contestants play in turn. Everyone adds a beat. The game ends when one contestant is left.
- **Single-player:** the Beatstarter, one human and the computer "CPU". Only the computers add beats, and the first elimination ends the game.

The model has six modules.

- `Players`: the class `Player`.
- `Scores`: the class `Score` and its ordering.
- `TurnOrder`: how eliminations are counted and which slot the round-robin scan of `nextPlayer` selects.
- `Rules`: the engine's state as a value, `GameState`, and one step function per engine method, written branch for branch. It also holds the invariant of reachable states, `Inv`, and the lemmas that every step keeps it.
- `Games`: the engine object `Game`.
  - The two concrete games are its two constructors, `MultiPlayerGame` and `SinglePlayerGame`.
  - The overridden methods dispatch on `mode`, because there is no inheritance here.
  - Each method performs the engine's statements on the object's fields. It is proved to change the state (`State()`) exactly as the matching step function of `Rules` does.
  - `tick` is proved to keep the invariant (`Valid()`). `beat` keeps it for every permitted hit.
- `GameProperties`: what the game promises, stated about the step functions.
  - The outcome of each branch of `beat` and `tick`.
  - The end rule of each mode, and who wins: in multi-player the last contestant standing, whether it completed the sequence last or wins by default.
  - Growth of the sequence.
  - Facts that hold along any run of permitted calls.

Modelling decisions:

- **The iterator.** `it` over `beats` is the index `cursor`. `hasNext()` is `cursor < |beats|`. `nextPlayer` sets the cursor back to 0, where the engine creates a fresh iterator.
- **Randomness.** The random drums are inputs:
  - the constructors take the opening beats as `draws`;
  - `Tick` and `CpuBeat` take `draw`, the drum a computer adds.
  - Each must lie in `1..NO_OF_BEAT_TYPES[difficulty]`.
- **The first turn.** The turn starts at the sentinel -1. Java's `%` keeps the dividend's sign, so `-1 % n` is -1 and the first `nextPlayer` selects slot 0, the Beatstarter. `TurnOrder.Succ` writes this out, and `TurnOrder.SuccIsJavaExpression` checks it against Java's remainder.
- **The computer's hit.** A computer's drum hit goes from `cpuBeat` through the user-interface link back into `beat`. The model calls `Beat` directly.
- **Ghost state.** The object keeps two ghost fields:
  - `roster`: the players array as a sequence;
  - `out`: the players' out flags, one per slot.
  - The predicate `Linked` ties both to the heap.
- **When tick may be called.** `tick` is called while the game runs, and once more if a round was due to end (`nextTickEndsRound`). After the engine has ended the game, the user interface may deliver that one last tick, but it does not always. A drum whose round ends calls `gameOver` as soon as it leaves the tick zone (src/catchthebeat/ui/sprites/GameDrumSprite.java:146-151), and from then on the panel drops every tick (src/catchthebeat/ui/GameplayPanel.java:138-143). The only tick that can land in between is the last drum's second tick (src/catchthebeat/ui/sprites/GameDrumSprite.java:140-143). `TickAllowed` permits the deferred tick but nothing in the model depends on it arriving. More ticks after that would restart play in a finished game.
- **When beat may be called.** `beat` is modelled for any call. The invariant is proved for the hits `BeatAllowed` permits:
  - a drum of the difficulty;
  - while the game runs or the window is already answered;
  - a computer only hits the expected drum, or the one it adds.
  - The keyboard lock enforces only the computer clause, because `nextPlayer` sets the lock for a computer's turn. "Running or answered" is an assumption about the caller that the lock does not enforce. A timeout that ends the game calls no `nextPlayer`, so the eliminated human's window stays open and unlocked; `GameProperties.LateHitAfterTimeout` shows what a late key does there.

## Model

| member | source | states |
|---|---|---|
| `Players.Player.constructor` | src/catchthebeat/game/Player.java:21-25 | a new player has the given name and kind and is not out |
| `Players.Player.PlayerOut` | src/catchthebeat/game/Player.java:35-37 | afterwards the player is out, whatever it was before; the name and kind are constants |
| `Scores.Score.constructor` | src/catchthebeat/game/Score.java:27-30 | a new game's score has no winner and 0 points |
| `Scores.Score.Of` | src/catchthebeat/game/Score.java:36-39 | the two-argument constructor stores exactly the given winner and points |
| `Scores.Score.SetPoints` | src/catchthebeat/game/Score.java:46-48 | sets the points and leaves the winner |
| `Scores.Score.SetWinner` | src/catchthebeat/game/Score.java:54-56 | sets the winner and leaves the points |
| `Scores.Score.CompareTo` | src/catchthebeat/game/Score.java:63-72 | 1 exactly when this score has fewer points, -1 exactly when it has more, 0 exactly on equal points |
| `Scores.CompareAntisymmetric` | src/catchthebeat/game/Score.java:63-72 | comparing the other way round negates the result |
| `Scores.CompareTransitive` | src/catchthebeat/game/Score.java:63-72 | "ranks no later than" is transitive |
| `Scores.RankedHighestFirst` | src/catchthebeat/game/Score.java:63-72 | in a table sorted by compareTo, the first score has the most points |
| `TurnOrder.CountOutMark` | src/catchthebeat/game/Game.java:322-323 | eliminating a player who is in raises the count of eliminated players by exactly one |
| `TurnOrder.CountOutSet` | src/catchthebeat/game/Game.java:322-323 | marking a slot out raises the count by one, or by nothing if it was already out |
| `TurnOrder.CountOutNone` | src/catchthebeat/game/Game.java:96 | the count is 0 exactly when nobody is out |
| `TurnOrder.ContestantStillIn` | src/catchthebeat/game/Game.java:253-255 | if fewer players are out than there are contestants, some contestant in slots 1..n is still in |
| `TurnOrder.Succ` | src/catchthebeat/game/Game.java:252-254 | one scan step lands on a slot in 0..n, and on slot 0 exactly from the sentinel -1 |
| `TurnOrder.SuccIsJavaExpression` | src/catchthebeat/game/Game.java:252 | `Succ` equals `(c % n) + 1` with Java's truncating remainder, for every slot the engine holds |
| `TurnOrder.IsNextUnique` | src/catchthebeat/game/Game.java:251-255 | the round-robin choice (next slot still in, all slots passed are out) is unique |
| `TurnOrder.FirstTurnIsBeatstarter` | src/catchthebeat/game/Game.java:252 | from the sentinel, with the Beatstarter in, the scan selects slot 0 |
| `TurnOrder.SkipStep` | src/catchthebeat/game/Game.java:253-254 | stepping past an eliminated slot keeps "every slot passed is out" |
| `TurnOrder.OutUpToMark` | src/catchthebeat/game/Game.java:322 | eliminating contestant p+1 after contestants 1..p extends the eliminated prefix |
| `TurnOrder.NextAfterPrefix` | src/catchthebeat/game/Game.java:252-255 | with contestants 1..p out, the scan after slot p selects slot p+1 |
| `TurnOrder.LastContestant` | src/catchthebeat/game/MultiPlayerGame.java:59-61 | with contestants 1..n-1 out, slot n holds the only contestant still in |
| `TurnOrder.OutSinceStep` | src/catchthebeat/game/Game.java:252-255 | when the turn moves on from an eliminated player, everybody passed since the winner's turn is still out: the scan stops at the winner at the latest |
| `TurnOrder.CountOutAllBut` | src/catchthebeat/game/Game.java:322-323 | if every slot but one is out, the count misses at most one slot |
| `TurnOrder.FullRoundCount` | src/catchthebeat/game/MultiPlayerGame.java:59-61 | a full round of eliminations since slot w leaves at most slots 0 and w in, so the game is over |
| `TurnOrder.CountOutSpares` | src/catchthebeat/game/Game.java:322-323 | distinct slots still in are never counted, so the count leaves room for each of them |
| `TurnOrder.ScanAdvances` | src/catchthebeat/game/Game.java:253-255 | each scan step brings the scan closer to a contestant who is in (the loop measure) |
| `TurnOrder.ScanFrom` | src/catchthebeat/game/Game.java:253-255 | the slot where the scan loop stops, always a slot 0..n |
| `TurnOrder.NextSlot` | src/catchthebeat/game/Game.java:252-255 | the slot nextPlayer selects; always a slot 0..n |
| `TurnOrder.ScanReaches` | src/catchthebeat/game/Game.java:253-255 | a scan that has passed only eliminated slots, with enough steps left, stops where the round-robin choice says |
| `TurnOrder.NextSlotIsNext` | src/catchthebeat/game/Game.java:252-255 | while a contestant is in, the scan selects the next slot still in, and every slot it passes is out |
| `Rules.NextPlayerStep` | src/catchthebeat/game/Game.java:241-269 | nextPlayer: a real slot gets the turn, the roster is unchanged, and the round flags and iterator are reset |
| `Rules.UpdateScoreStep` | src/catchthebeat/game/Game.java:299-304 | updateScoreAndWinner as a step (its meaning is in `GameProperties.BeatAdds` and `GameProperties.TickCompletes`) |
| `Rules.MarkOutStep` | src/catchthebeat/game/Game.java:321-325 | the shared playerOut: the elimination count goes up by one for a player who was in |
| `Rules.WillAddBeat` | src/catchthebeat/game/SinglePlayerGame.java:73-79 | currentPlayerWillAddBeat of both modes: always true in multi-player (MultiPlayerGame.java:74-76); in single-player true exactly off the human's slot 1 |
| `Rules.EndGameStep` | src/catchthebeat/game/Game.java:333-336 | endGame: the game stops running and every other part of the state is unchanged |
| `Rules.PlayerOutStep` | src/catchthebeat/game/MultiPlayerGame.java:57-65 | playerOut of both modes (its rules are in `GameProperties.MultiPlayerOutRule` and `GameProperties.SinglePlayerOutRule`) |
| `Rules.BeatStep` | src/catchthebeat/game/Game.java:190-230 | beat as a step; the turn stays with a real slot of the same game |
| `Rules.AddBeatStep` | src/catchthebeat/game/Game.java:204-211 | the branch of beat that adds a beat |
| `Rules.WrongBeatStep` | src/catchthebeat/game/Game.java:219-228 | the branch of beat for a wrong drum |
| `Rules.CpuBeatStep` | src/catchthebeat/game/Game.java:282-291 | cpuBeat: the computer hits the expected drum, or adds `draw` and ends the round |
| `Rules.TickStep` | src/catchthebeat/game/Game.java:130-176 | tick as a step, its three branches (their outcomes are in `GameProperties`) |
| `Rules.AnsweredStep` | src/catchthebeat/game/Game.java:140-165 | the answered-window branch of tick |
| `Rules.NextBeatStep` | src/catchthebeat/game/Game.java:143-159 | the iterator step of tick |
| `Rules.SequenceDoneStep` | src/catchthebeat/game/Game.java:146-158 | the exhausted-iterator branch of tick |
| `Rules.TimeoutStep` | src/catchthebeat/game/Game.java:166-175 | the unanswered-window branch of tick |
| `Rules.Created` | src/catchthebeat/game/Game.java:93-105 | the fields the constructor sets: no beats, the sentinel -1, nobody out |
| `Rules.Initial` | src/catchthebeat/game/MultiPlayerGame.java:37-46 | the state both constructors leave; the turn is on a real slot |
| `Rules.InitialState` | src/catchthebeat/game/Game.java:93-105 | after construction: the invariant holds, slot 0 plays, the game runs, nobody is out, the beats are the draws, there is no score, and the round state is reset |
| `Rules.WinnerKept` | src/catchthebeat/game/MultiPlayerGame.java:52-54 | the winner's standing depends only on the winner, the out flags, the turn and the round-ending flag |
| `Rules.NextPlayerPicksNext` | src/catchthebeat/game/Game.java:251-255 | nextPlayer selects the next slot still in, and every slot passed is out |
| `Rules.BeatstarterOnlyFirst` | src/catchthebeat/game/Game.java:252-255 | every nextPlayer from a real slot selects a contestant 1..n who is in, never slot 0 |
| `Rules.BeatstarterNeverAgain` | src/catchthebeat/game/Game.java:130-176 | in a consistent state, a tick never hands the turn back to slot 0 once it has left it |
| `Rules.NextPlayerKeepsInv` | src/catchthebeat/game/Game.java:241-269 | nextPlayer at the end of a round restores the invariant: the turn order stays the elimination order while nobody has scored, and afterwards the turn never passes a recorded winner, who stays in |
| `Rules.BeatKeepsInv` | src/catchthebeat/game/Game.java:190-230 | a permitted beat keeps the invariant, even inside tick while a computer's window is open |
| `Rules.BeatAddingKeepsInv` | src/catchthebeat/game/Game.java:204-211 | the hit that adds a beat keeps the invariant |
| `Rules.BeatWrongKeepsInv` | src/catchthebeat/game/Game.java:219-228 | a wrong drum keeps the invariant |
| `Rules.PlayerOutKeeps` | src/catchthebeat/game/MultiPlayerGame.java:57-65 | eliminating the human whose window is open keeps the count and end rule consistent and keeps the eliminations in turn order |
| `Rules.PlayerOutWinner` | src/catchthebeat/game/MultiPlayerGame.java:57-65 | playerOut never eliminates a recorded winner, who stays ahead of the turn; a default winner is the contestant still in |
| `Rules.CpuBeatKeepsInv` | src/catchthebeat/game/Game.java:282-291 | cpuBeat keeps the invariant and closes the computer's window |
| `Rules.TickKeepsInv` | src/catchthebeat/game/Game.java:130-176 | a permitted tick keeps the invariant |
| `Rules.TickEndKeepsInv` | src/catchthebeat/game/Game.java:132-137 | the tick that ends a round keeps the invariant |
| `Rules.TickTimeoutKeepsInv` | src/catchthebeat/game/Game.java:166-175 | an unanswered window keeps the invariant |
| `Rules.TickAnsweredKeepsInv` | src/catchthebeat/game/Game.java:140-165 | the answered-window branch keeps the invariant |
| `Rules.TickAdvanceKeepsInv` | src/catchthebeat/game/Game.java:143-145 | moving to the next beat (and a computer's immediate hit) keeps the invariant |
| `Rules.TickAddKeepsInv` | src/catchthebeat/game/Game.java:151-153 | opening the window for adding a beat keeps the invariant |
| `Games.Game.CurrentPlayerWillAddBeat` | src/catchthebeat/game/SinglePlayerGame.java:73-79 | on the object's fields, the same answer as `Rules.WillAddBeat` on its state (MultiPlayerGame.java:74-76 for multi-player) |
| `Games.Game.MultiPlayerGame` | src/catchthebeat/game/MultiPlayerGame.java:37-46 | n contestants in slots 1..n with the given names, the Beatstarter in slot 0; the state is `Initial` and consistent |
| `Games.Game.SinglePlayerGame` | src/catchthebeat/game/SinglePlayerGame.java:40-48 | three slots: Beatstarter, the named human, "CPU"; the state is `Initial` and consistent |
| `Games.Game.Open` | src/catchthebeat/game/Game.java:102 | generating the opening beats, then the first nextPlayer of each constructor (MultiPlayerGame.java:45, SinglePlayerGame.java:47), lead from the constructed fields to `Initial` and the invariant |
| `Games.Game.GenerateBeats` | src/catchthebeat/game/Game.java:115-119 | appends exactly the drawn beats, in order |
| `Games.Game.NextPlayer` | src/catchthebeat/game/Game.java:241-269 | the object moves as `NextPlayerStep` |
| `Games.Game.ScanForNext` | src/catchthebeat/game/Game.java:252-255 | the scan loop ends, at `NextSlot` (and so at the next slot still in, by `NextSlotIsNext`) |
| `Games.Game.UpdateScoreAndWinner` | src/catchthebeat/game/Game.java:299-304 | the object moves as `UpdateScoreStep` |
| `Games.Game.EndGame` | src/catchthebeat/game/Game.java:333-336 | only `isRunning` changes, to false |
| `Games.Game.MarkOut` | src/catchthebeat/game/Game.java:321-325 | the player object is marked out, the ghost `out` and the count follow (`MarkOutStep`) |
| `Games.Game.PlayerOut` | src/catchthebeat/game/MultiPlayerGame.java:57-65 | the object moves as `PlayerOutStep`, both overrides |
| `Games.Game.Beat` | src/catchthebeat/game/Game.java:190-230 | the object moves as `BeatStep`; a permitted hit from a state satisfying `Core` leaves it consistent |
| `Games.Game.AddBeat` | src/catchthebeat/game/Game.java:204-211 | the object moves as `AddBeatStep` |
| `Games.Game.WrongBeat` | src/catchthebeat/game/Game.java:219-228 | the object moves as `WrongBeatStep` |
| `Games.Game.CpuBeat` | src/catchthebeat/game/Game.java:282-291 | the object moves as `CpuBeatStep` |
| `Games.Game.Tick` | src/catchthebeat/game/Game.java:130-176 | the object moves as `TickStep` and stays consistent |
| `Games.Game.TickAnswered` | src/catchthebeat/game/Game.java:140-165 | the object moves as `AnsweredStep` |
| `Games.Game.NextBeat` | src/catchthebeat/game/Game.java:143-159 | the object moves as `NextBeatStep` |
| `Games.Game.SequenceDone` | src/catchthebeat/game/Game.java:146-158 | the object moves as `SequenceDoneStep` |
| `Games.Game.TickTimeout` | src/catchthebeat/game/Game.java:166-175 | the object moves as `TimeoutStep` |
| `GameProperties.BeatOncePerWindow` | src/catchthebeat/game/Game.java:193-199 | beat in an answered window changes nothing; after any beat the window is answered, so a second beat is a no-op |
| `GameProperties.BeatAdds` | src/catchthebeat/game/Game.java:204-211 | the adding hit appends exactly `v`, makes it the expected drum and ends the round next tick; nobody is eliminated, the turn stays; a human gets the score with the new length, a computer leaves it |
| `GameProperties.BeatMatches` | src/catchthebeat/game/Game.java:215-218 | the expected drum changes nothing but the answered flag |
| `GameProperties.BeatMisses` | src/catchthebeat/game/Game.java:219-228 | a wrong drum: result FALSE, the player is out, the count is up by one, the round ends next tick; the sequence and the turn stay |
| `GameProperties.BeatExtends` | src/catchthebeat/game/Game.java:205 | beat keeps the turn, and the sequence is unchanged or has exactly the hit drum appended, which happens only in an open adding window |
| `GameProperties.TickDeferred` | src/catchthebeat/game/Game.java:132-137 | a tick due to end the round clears the flag and moves the turn to the next slot still in; nothing else changes |
| `GameProperties.TickTimesOut` | src/catchthebeat/game/Game.java:166-175 | an unanswered window: result TIMEOUT, the player is out and counted, the sequence and points stay; the winner stays too, unless this elimination ends a multi-player game nobody has scored in, which records the default winner in slot n; the turn moves on if and only if the game still runs |
| `GameProperties.TickAdvances` | src/catchthebeat/game/Game.java:143-145 | with beats left, the iterator moves one beat on, which becomes the expected drum; the window stays open for a human and is answered at once by a computer |
| `GameProperties.TickCompletes` | src/catchthebeat/game/Game.java:146-158 | past the end: result CORRECT; a player who adds a beat gets the adding window, which a computer fills with `draw`; otherwise the player scores the sequence length and the turn moves on |
| `GameProperties.TickExtends` | src/catchthebeat/game/Game.java:151-165 | a tick leaves the sequence or appends exactly `draw`, and only on a computer's turn |
| `GameProperties.MultiPlayerOutRule` | src/catchthebeat/game/MultiPlayerGame.java:57-65 | the game ends exactly when the count reaches n-1 and is unchanged below it; a recorded winner is never overwritten; with none, slot n's player wins |
| `GameProperties.DefaultWinnerIsSurvivor` | src/catchthebeat/game/MultiPlayerGame.java:52-62 | when the default winner is set, the player in slot n is the only contestant still in |
| `GameProperties.WinnerIsLastStanding` | src/catchthebeat/game/MultiPlayerGame.java:52-54 | when a multi-player game is over there is a winner, it is a contestant still in, and every other contestant is out: the last one standing wins, whether it scored last or by default |
| `GameProperties.LateHitAfterTimeout` | src/catchthebeat/game/Game.java:166-175 | a timeout that ends a multi-player game during an adding window leaves that window open and unanswered, and a hit into it (Game.java:204-209) makes the eliminated player the winner with one more point than the sequence had |
| `GameProperties.OpeningReplay` | src/catchthebeat/game/Game.java:140-159 | during the opening round each tick moves the iterator one beat on and the Beatstarter hits that beat at once (Game.java:282-291) |
| `GameProperties.OpeningRound` | src/catchthebeat/game/Game.java:107-111 | after the opening round's ticks the Beatstarter has added its beat, so the sequence has its full starting length `BEATS_TO_START_WITH[difficulty]`; the next tick hands the turn to slot 1 with no score |
| `GameProperties.SinglePlayerOutRule` | src/catchthebeat/game/SinglePlayerGame.java:60-63 | any playerOut ends the game and keeps the score |
| `GameProperties.SingleFailureEndsGame` | src/catchthebeat/game/SinglePlayerGame.java:60-63 | in single-player a wrong drum or a missed window ends the game and keeps the winner |
| `GameProperties.SingleFailureBeforeScore` | src/catchthebeat/game/SinglePlayerGame.java:54-57 | a human who fails before any sequence was completed (no points yet) ends the game with no winner |
| `GameProperties.SingleWinnerIsHuman` | src/catchthebeat/game/Game.java:300-302 | in single-player the winner is null or the human in slot 1, and it is null exactly when no points were scored |
| `GameProperties.SingleHumanNeverExtends` | src/catchthebeat/game/SinglePlayerGame.java:73-79 | in single-player, neither beat nor tick extends the sequence on the human's turn |
| `GameProperties.ContestantRemains` | src/catchthebeat/game/MultiPlayerGame.java:59-63 | in every consistent state, at most n-1 players are out (fewer while running) and some contestant is in, so the nextPlayer loop ends |
| `GameProperties.Apply` | src/catchthebeat/game/Game.java:130-230 | a permitted tick or beat leads from a consistent state to a consistent state of the same game |
| `GameProperties.Run` | src/catchthebeat/game/Game.java:130-230 | so does every legal run of calls |
| `GameProperties.StepProgress` | src/catchthebeat/game/Game.java:130-230 | one permitted call: the old sequence is a prefix of the new one, nobody comes back in, the elimination count and points never drop, a finished game stays finished, slot 0 never gets the turn back |
| `GameProperties.TickProgress` | src/catchthebeat/game/Game.java:130-176 | the same for tick |
| `GameProperties.BeatProgress` | src/catchthebeat/game/Game.java:190-230 | the same for beat |
| `GameProperties.RunProgress` | src/catchthebeat/game/Game.java:130-230 | the same over any legal run, by induction on its length |

## Left out

- User-interface calls are not modelled. `guiEndRound`, `guiSendBeat`, `playEffect` and `keyboardLocked` only notify the presentation.
  - The keyboard lock survives only as the `BeatAllowed` condition.
- The `FrontBackLink` glue is not modelled, apart from its one effect on the engine: `computerKeyPressed` calls back into `beat`.
- `java.util.Random` is not modelled. Its values are inputs with a range precondition, and their distribution is not modelled.
- The unused `playerNames` parameter of the base constructor is not modelled.
- Field order in the constructor differs from the engine's. The engine draws the opening beats before the subclass creates the players. The model creates the players first, then draws the beats. Neither step reads what the other writes.
- The getters are not separate members: `getBeats`, `getCurrentScore`, `getCurrentPlayer`, `getRoundResult`, `getDifficulty`, `getPoints`, `getWinner`, `getName`, `isComputer` and `isOut`.
  - In the model they are field reads of `Game`, `Score` and `Player`.
  - `Game.State()` exposes them as one value.
- `Games.Game.Beat` does not promise the invariant for every hit. It promises it when the hit is permitted (`BeatAllowed`). The hits left out are:
  - a drum number outside the difficulty;
  - a human key during a computer's window, which the keyboard lock holds back;
  - a hit into an open window after the game is over. Nothing in the engine stops it. In the adding window it records the eliminated player as winner with the new points (`GameProperties.LateHitAfterTimeout`), so `GameProperties.WinnerIsLastStanding` no longer holds afterwards. A wrong drum eliminates the player a second time and counts them again. The model does not treat such calls as no-ops.
  - Its state equation holds for every hit.
- `Games.Game.Tick` requires that the game runs, or that the tick ends a due round. Further ticks after the game is over would keep a finished game going. The user interface stops delivering them; the thread that does so is not modelled.
- `TurnOrder.ScanFrom` takes a step bound (`fuel`) that the engine's loop does not have. `TurnOrder.NextSlotIsNext` shows that `n + 1` steps always reach a contestant who is in, so the bound never cuts the scan short.
- A few helper methods stand for blocks inside one engine method, so that each proof stays small:
  - `Open`: the first `nextPlayer` and the opening beats;
  - `AddBeat` and `WrongBeat`: branches of `beat`;
  - `TickAnswered`, `NextBeat`, `SequenceDone` and `TickTimeout`: branches of `tick`.
  - They are not methods of the engine.
- `Games.Game.Tick` and `Games.Game.Beat` are modelled as serialised, atomic calls. In the program `tick` runs on the panel's animation thread (src/catchthebeat/ui/GameplayPanel.java:171-181) and `beat` on key events from the event thread (src/catchthebeat/ui/FrontBackLink.java:95-113), and neither synchronises on the game's fields. A key press that overlaps a tick, interleaving their field updates, is not captured.
- Integer overflow is not modelled. `playersOut` and the sequence length stay far below 32-bit limits.
