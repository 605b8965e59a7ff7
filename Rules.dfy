/**
 * The round and turn state machine of the rhythm game, on values.
 *
 * A periodic driver calls tick once per timing window; an input handler calls
 * beat on each drum hit.  Players take turns reproducing the growing sequence
 * `beats`; a player who succeeds may have to extend it by one beat, a player
 * who plays a wrong drum or lets a window pass is eliminated.  The two game
 * modes differ only in who extends the sequence and when the game ends.
 *
 * `GameState` is everything the engine's operations read or write; each
 * operation is a function from the state before to the state after, written
 * branch for branch like the engine's method.  The class Games.Game performs
 * the same steps on its fields and is proved to follow these functions; the
 * properties of the game are proved here, about the functions.
 */
module Rules {
  import opened Players
  import opened TurnOrder

  const EASY := 0
  const MEDIUM := 1
  const HARD := 2
  /** How long the opening sequence is, by difficulty (the Beatstarter adds the last beat). */
  const BEATS_TO_START_WITH: seq<int> := [3, 5, 7]
  /** How many drums there are, by difficulty. */
  const NO_OF_BEAT_TYPES: seq<int> := [4, 4, 4]

  /** Round results. */
  const TIMEOUT := -1
  const FALSE := 0
  const CORRECT := 1

  /** The two concrete games: SinglePlayerGame and MultiPlayerGame. */
  datatype Mode = SinglePlayer | MultiPlayer

  predicate IsDifficulty(d: int)
  {
    EASY <= d <= HARD
  }

  /** A drum number that exists at difficulty `d`. */
  predicate IsBeat(v: int, d: int)
    requires IsDifficulty(d)
  {
    1 <= v <= NO_OF_BEAT_TYPES[d]
  }

  predicate AreBeats(s: seq<int>, d: int)
    requires IsDifficulty(d)
  {
    forall i :: 0 <= i < |s| ==> IsBeat(s[i], d)
  }

  /**
   * The engine's state.  `roster` is the players array (slot 0 the
   * Beatstarter, slots 1..noPlayers the contestants) and `out` their out
   * flags; `cursor` is the position of the round's iterator over `beats`;
   * `winner` and `points` are the fields of the game's Score.
   */
  datatype GameState = GameState(
    mode: Mode,
    difficulty: int,
    noPlayers: int,
    roster: seq<Player>,
    out: seq<bool>,
    isRunning: bool,
    beats: seq<int>,
    cursor: nat,
    currentPlayer: int,
    playersOut: int,
    currentCorrectBeat: int,
    lastBeatFlag: bool,
    nextTickEndsRound: bool,
    currentBeatAnsweredFlag: bool,
    roundResult: int,
    winner: Player?,
    points: int)

  /**
   * What the operations need to be defined: a roster of slots 0..noPlayers,
   * a slot (or the sentinel -1 before the first turn) as current player, and
   * the iterator within the sequence.
   */
  predicate Wf(st: GameState)
  {
    && st.noPlayers >= 2 && |st.roster| == st.noPlayers + 1 && |st.out| == st.noPlayers + 1
    && -1 <= st.currentPlayer <= st.noPlayers && st.cursor <= |st.beats|
  }

  /** A turn is under way: the current player is a real slot. */
  predicate InTurn(st: GameState)
  {
    Wf(st) && 0 <= st.currentPlayer
  }

  /**
   * currentPlayerWillAddBeat: everyone in multi-player, only the computers in
   * single-player, so there every slot but the human's slot 1.
   */
  function WillAddBeat(st: GameState): (r: bool)
    requires InTurn(st)
    ensures st.mode.MultiPlayer? ==> r
    ensures st.mode.SinglePlayer? && RosterShape(st.mode, st.roster) ==> (r <==> st.currentPlayer != 1)
  {
    match st.mode
    case MultiPlayer => true
    case SinglePlayer => st.roster[st.currentPlayer].isComputer
  }

  /** The parts of the state that no operation changes: the mode, the difficulty and the roster. */
  predicate SameGame(st: GameState, r: GameState)
  {
    r.mode == st.mode && r.difficulty == st.difficulty && r.noPlayers == st.noPlayers && r.roster == st.roster
  }

  /** The round-transient state nextPlayer leaves behind, the iterator back at the start. */
  predicate RoundReset(st: GameState)
  {
    !st.lastBeatFlag && st.currentBeatAnsweredFlag && st.currentCorrectBeat == 0 && st.cursor == 0
  }

  // ---------------------------------------------------------------------
  // The operations
  // ---------------------------------------------------------------------

  /** nextPlayer: the turn passes to the next player still in; the round state is reset. */
  function NextPlayerStep(st: GameState): (r: GameState)
    requires Wf(st)
    ensures InTurn(r) && SameGame(st, r) && RoundReset(r)
  {
    st.(currentPlayer := NextSlot(st.out, st.currentPlayer, st.noPlayers),
        lastBeatFlag := false, currentBeatAnsweredFlag := true, currentCorrectBeat := 0, cursor := 0)
  }

  /** updateScoreAndWinner: a human who completes the sequence holds the score. */
  function UpdateScoreStep(st: GameState): (r: GameState)
    requires InTurn(st)
    ensures InTurn(r) && SameGame(st, r)
  {
    if !st.roster[st.currentPlayer].isComputer then
      st.(points := |st.beats|, winner := st.roster[st.currentPlayer])
    else
      st
  }

  /** The part of playerOut both modes share: the current player is out and counted. */
  function MarkOutStep(st: GameState): (r: GameState)
    requires InTurn(st)
    ensures InTurn(r) && SameGame(st, r)
    ensures CountOut(r.out) == CountOut(st.out) + (if st.out[st.currentPlayer] then 0 else 1)
  {
    CountOutSet(st.out, st.currentPlayer);
    st.(out := st.out[st.currentPlayer := true], playersOut := st.playersOut + 1)
  }

  /** endGame: the game stops running and nothing else changes. */
  function EndGameStep(st: GameState): (r: GameState)
    ensures !r.isRunning && SameGame(st, r)
    ensures r.(isRunning := st.isRunning) == st
  {
    st.(isRunning := false)
  }

  /**
   * playerOut: single-player ends the game at once; multi-player ends it
   * when one contestant is left and, if nobody has completed a sequence,
   * makes the contestant in the last slot the winner.
   */
  function PlayerOutStep(st: GameState): (r: GameState)
    requires InTurn(st)
    ensures InTurn(r) && SameGame(st, r)
  {
    var s := MarkOutStep(st);
    match s.mode
    case SinglePlayer =>
      EndGameStep(s)
    case MultiPlayer =>
      if s.playersOut == s.noPlayers - 1 then
        EndGameStep(if s.winner == null then s.(winner := s.roster[s.noPlayers]) else s)
      else
        s
  }

  /**
   * beat: only the first hit of a window counts.  While the player is adding
   * a beat the hit extends the sequence and the round ends with the next
   * tick; otherwise the expected drum is accepted and any other drum
   * eliminates the player.
   */
  function BeatStep(st: GameState, beat: int): (r: GameState)
    requires InTurn(st)
    ensures InTurn(r) && SameGame(st, r)
  {
    if st.currentBeatAnsweredFlag then
      st
    else if st.lastBeatFlag then
      AddBeatStep(st, beat)
    else if beat == st.currentCorrectBeat then
      st.(currentBeatAnsweredFlag := true)
    else
      WrongBeatStep(st)
  }

  /** The hit that extends the sequence: it is appended, scored, and the round ends with the next tick. */
  function AddBeatStep(st: GameState, beat: int): (r: GameState)
    requires InTurn(st)
    ensures InTurn(r) && SameGame(st, r)
  {
    UpdateScoreStep(st.(currentBeatAnsweredFlag := true, beats := st.beats + [beat], currentCorrectBeat := beat))
      .(nextTickEndsRound := true)
  }

  /** A wrong drum: the round is lost, the player is out, and the round ends with the next tick. */
  function WrongBeatStep(st: GameState): (r: GameState)
    requires InTurn(st)
    ensures InTurn(r) && SameGame(st, r)
  {
    PlayerOutStep(st.(currentBeatAnsweredFlag := true, roundResult := FALSE)).(nextTickEndsRound := true)
  }

  /**
   * cpuBeat: a computer hits the expected drum or, when adding a beat, the
   * drum `draw`, after which the round ends with the next tick.
   */
  function CpuBeatStep(st: GameState, draw: int): (r: GameState)
    requires InTurn(st)
    ensures InTurn(r) && SameGame(st, r)
  {
    if st.lastBeatFlag then
      BeatStep(st.(currentCorrectBeat := draw), draw).(nextTickEndsRound := true)
    else
      BeatStep(st, st.currentCorrectBeat)
  }

  /**
   * tick: a round that was due to end ends; otherwise the window was
   * answered or it passed without a hit.  `draw` is the drum a computer
   * adds if it has to.
   */
  function TickStep(st: GameState, draw: int): (r: GameState)
    requires InTurn(st)
    ensures InTurn(r) && SameGame(st, r)
  {
    if st.nextTickEndsRound then
      NextPlayerStep(st.(nextTickEndsRound := false))
    else if st.currentBeatAnsweredFlag then
      AnsweredStep(st, draw)
    else
      TimeoutStep(st)
  }

  /**
   * The answered window: the iterator moves on to the next beat or, past
   * the end, the reproduced sequence is concluded; a computer then plays its
   * window at once.
   */
  function AnsweredStep(st: GameState, draw: int): (r: GameState)
    requires InTurn(st)
    ensures InTurn(r) && SameGame(st, r)
  {
    var s := NextBeatStep(st.(currentBeatAnsweredFlag := false));
    if s.roster[s.currentPlayer].isComputer && s.currentCorrectBeat != 0 then
      CpuBeatStep(s, draw)
    else
      s
  }

  /** The iterator moves on to the next beat or, past the end, the reproduced sequence is concluded. */
  function NextBeatStep(st: GameState): (r: GameState)
    requires InTurn(st)
    ensures InTurn(r) && SameGame(st, r)
  {
    if st.cursor < |st.beats| then
      st.(currentCorrectBeat := st.beats[st.cursor], cursor := st.cursor + 1)
    else
      SequenceDoneStep(st)
  }

  /**
   * The whole sequence was reproduced: the player adds a beat in one more
   * window, or the round ends with the score updated.
   */
  function SequenceDoneStep(st: GameState): (r: GameState)
    requires InTurn(st)
    ensures InTurn(r) && SameGame(st, r)
  {
    var s := st.(roundResult := CORRECT);
    if WillAddBeat(s) then s.(lastBeatFlag := true) else NextPlayerStep(UpdateScoreStep(s))
  }

  /** The window passed without a hit: the player is out, and the next one plays if the game goes on. */
  function TimeoutStep(st: GameState): (r: GameState)
    requires InTurn(st)
    ensures InTurn(r) && SameGame(st, r)
  {
    var s1 := PlayerOutStep(st.(roundResult := TIMEOUT));
    if s1.isRunning then NextPlayerStep(s1) else s1
  }

  /** The roster a game is created with: slot 0 the computer Beatstarter, then the contestants. */
  predicate RosterShape(mode: Mode, roster: seq<Player>)
  {
    && |roster| >= 3 && roster[0].isComputer
    && (mode.SinglePlayer? ==> |roster| == 3 && !roster[1].isComputer && roster[2].isComputer)
    && (mode.MultiPlayer? ==> forall i :: 1 <= i < |roster| ==> !roster[i].isComputer)
  }

  /**
   * The state once the constructors have set the fields: nobody out, no
   * beats yet, no score, and the sentinel -1 as current player.
   */
  function Created(mode: Mode, difficulty: int, roster: seq<Player>): (r: GameState)
    requires |roster| >= 3
    ensures Wf(r) && r.currentPlayer == -1 && r.beats == [] && CountOut(r.out) == 0
  {
    var r := GameState(mode, difficulty, |roster| - 1, roster, seq(|roster|, _ => false),
                       true, [], 0, -1, 0, 0, false, false, true, FALSE, null, 0);
    CountOutNone(r.out);
    r
  }

  /**
   * The state the constructors leave: the opening beats drawn and the first
   * nextPlayer done from the sentinel -1.
   */
  function Initial(mode: Mode, difficulty: int, roster: seq<Player>, draws: seq<int>): (r: GameState)
    requires |roster| >= 3
    ensures InTurn(r)
  {
    NextPlayerStep(Created(mode, difficulty, roster).(beats := draws))
  }

  // ---------------------------------------------------------------------
  // The invariant of reachable states
  // ---------------------------------------------------------------------

  predicate RosterOk(st: GameState)
  {
    && IsDifficulty(st.difficulty) && Wf(st) && RosterShape(st.mode, st.roster)
  }

  /**
   * Eliminations are counted; computers always answer correctly and in time,
   * so they are never out; the game runs exactly while at least two
   * contestants are in.
   */
  predicate CountOk(st: GameState)
    requires RosterOk(st)
  {
    && (forall i :: 0 <= i < |st.out| && st.roster[i].isComputer ==> !st.out[i])
    && st.playersOut == CountOut(st.out) && st.playersOut <= st.noPlayers - 1
    && (st.isRunning <==> st.playersOut < st.noPlayers - 1)
  }

  /** The sequence is never empty and holds drums of the difficulty. */
  predicate SequenceOk(st: GameState)
    requires RosterOk(st)
  {
    && 1 <= |st.beats| && AreBeats(st.beats, st.difficulty)
    && (0 < st.cursor ==> IsBeat(st.currentCorrectBeat, st.difficulty))
  }

  /** The score belongs to a human and never exceeds the sequence length. */
  predicate ScoreOk(st: GameState)
  {
    && 0 <= st.points <= |st.beats|
    && (st.winner != null ==> st.winner in st.roster && !st.winner.isComputer)
    && (st.points > 0 ==> st.winner != null)
    && (st.mode.SinglePlayer? && st.winner != null ==> st.points > 0)
    && (st.mode.MultiPlayer? && !st.isRunning ==> st.winner != null)
  }

  /** How the round flags hang together. */
  predicate RoundOk(st: GameState)
    requires RosterOk(st)
  {
    && 0 <= st.currentPlayer
    && st.roundResult in {TIMEOUT, FALSE, CORRECT}
    && (st.isRunning && !st.nextTickEndsRound ==> !st.out[st.currentPlayer])
    && (st.nextTickEndsRound ==> st.currentBeatAnsweredFlag)
    && (!st.currentBeatAnsweredFlag ==> 0 < st.cursor)
    && (st.lastBeatFlag && !st.nextTickEndsRound ==> st.cursor == |st.beats|)
    && (st.lastBeatFlag ==> WillAddBeat(st))
  }

  /**
   * While nobody has completed a sequence every turn has ended in an
   * elimination, so the eliminated contestants are exactly slots
   * 1..playersOut and the turn belongs to the next one.
   */
  predicate EliminatedInTurnOrder(st: GameState)
    requires InTurn(st)
  {
    && OutUpTo(st.out, st.playersOut)
    && (st.currentPlayer == 0 ==> st.playersOut == 0)
    && (1 <= st.currentPlayer && st.out[st.currentPlayer] ==> st.currentPlayer == st.playersOut)
    && (1 <= st.currentPlayer && !st.out[st.currentPlayer] ==>
          st.currentPlayer == st.playersOut + 1 && !st.nextTickEndsRound)
  }

  /**
   * The recorded winner sits in slot `w` and is still in, and every
   * contestant the turn has passed since the winner's turn is out: between
   * two turns of one player everybody else either completed the sequence,
   * and so became the winner, or was eliminated.  Until the tick that ends
   * the winner's own round, the contestants after it have not played yet.
   */
  predicate WinnerAt(st: GameState, w: int)
    requires Wf(st)
  {
    && 1 <= w <= st.noPlayers && st.winner == st.roster[w] && !st.out[w] && 1 <= st.currentPlayer
    && ((st.currentPlayer == w && st.nextTickEndsRound)
        || (OutSince(st.out, w, st.currentPlayer) && (st.nextTickEndsRound ==> st.out[st.currentPlayer])))
  }

  /**
   * WinnerAt at the moment a round is over and nextPlayer is due: the round
   * was the winner's own, or its player is out.
   */
  predicate RoundOverAt(st: GameState, w: int)
    requires Wf(st)
  {
    && 1 <= w <= st.noPlayers && st.winner == st.roster[w] && !st.out[w] && 1 <= st.currentPlayer
    && (st.currentPlayer == w || (OutSince(st.out, w, st.currentPlayer) && st.out[st.currentPlayer]))
  }

  /** The invariant, except that a computer's window may be open (inside tick, before cpuBeat). */
  predicate Core(st: GameState)
  {
    && RosterOk(st) && CountOk(st) && SequenceOk(st) && ScoreOk(st) && RoundOk(st)
    && (st.mode.MultiPlayer? && st.winner == null ==> EliminatedInTurnOrder(st))
    && (st.mode.MultiPlayer? && st.winner != null ==> exists w :: 1 <= w <= st.noPlayers && WinnerAt(st, w))
  }

  /** WinnerAt depends only on the winner, the out flags, the turn and whether the round is ending. */
  lemma WinnerKept(st: GameState, r: GameState)
    requires Wf(st) && Wf(r) && SameGame(st, r) && r.winner == st.winner && r.out == st.out
    requires r.currentPlayer == st.currentPlayer && r.nextTickEndsRound == st.nextTickEndsRound
    ensures (exists w :: WinnerAt(st, w)) ==> exists w :: WinnerAt(r, w)
  {
    if exists w :: WinnerAt(st, w) {
      var w :| WinnerAt(st, w);
      assert WinnerAt(r, w);
    }
  }

  /** A computer answers its window as soon as it opens. */
  predicate ComputersAnswered(st: GameState)
    requires InTurn(st)
  {
    !st.currentBeatAnsweredFlag ==> !st.roster[st.currentPlayer].isComputer
  }

  /** The invariant of every state between two calls from the outside. */
  predicate Inv(st: GameState)
  {
    Core(st) && ComputersAnswered(st)
  }

  /** When the driver calls tick: while the game runs, and once more to end a round after the game is over. */
  predicate TickAllowed(st: GameState, draw: int)
    requires RosterOk(st)
  {
    (st.isRunning || st.nextTickEndsRound) && IsBeat(draw, st.difficulty)
  }

  /**
   * When beat is called: with a drum of the difficulty, while the game runs
   * or the window is answered; a computer only ever hits the expected drum
   * or the one it adds (the keyboard is locked during its turns).
   */
  predicate BeatAllowed(st: GameState, beat: int)
    requires InTurn(st) && IsDifficulty(st.difficulty)
  {
    && (st.isRunning || st.currentBeatAnsweredFlag) && IsBeat(beat, st.difficulty)
    && (ComputersAnswered(st) || st.lastBeatFlag || beat == st.currentCorrectBeat)
  }

  // ---------------------------------------------------------------------
  // Turn order
  // ---------------------------------------------------------------------

  /** nextPlayer picks the slot the round-robin scan selects: still in, every slot passed on the way out. */
  lemma NextPlayerPicksNext(st: GameState)
    requires Wf(st) && CountOut(st.out) < st.noPlayers
    ensures IsNext(st.out, st.currentPlayer, NextPlayerStep(st).currentPlayer)
  {
    NextSlotIsNext(st.out, st.currentPlayer, st.noPlayers);
  }

  /** The first nextPlayer, from the sentinel, hands the turn to the Beatstarter. */
  lemma {:induction false} InitialState(mode: Mode, difficulty: int, roster: seq<Player>, draws: seq<int>)
    requires IsDifficulty(difficulty) && RosterShape(mode, roster)
    requires |draws| == BEATS_TO_START_WITH[difficulty] - 1 && AreBeats(draws, difficulty)
    ensures var r := Initial(mode, difficulty, roster, draws);
      && Inv(r) && r.currentPlayer == 0 && r.isRunning && r.playersOut == 0
      && r.beats == draws && RoundReset(r) && !r.nextTickEndsRound
      && r.winner == null && r.points == 0 && (forall i :: 0 <= i < |r.out| ==> !r.out[i])
  {
    var s := Created(mode, difficulty, roster).(beats := draws);
    CountOutNone(s.out);
    NextPlayerPicksNext(s);
    var r := NextPlayerStep(s);
    FirstTurnIsBeatstarter(s.out, r.currentPlayer);
    assert OutUpTo(r.out, 0);
  }

  /**
   * Every nextPlayer after the first selects a contestant, never the
   * Beatstarter in slot 0: the Beatstarter plays only the opening round.
   */
  lemma BeatstarterOnlyFirst(st: GameState)
    requires Wf(st) && 0 <= st.currentPlayer && CountOut(st.out) < st.noPlayers
    ensures var r := NextPlayerStep(st);
      1 <= r.currentPlayer <= st.noPlayers && !st.out[r.currentPlayer]
  {
    NextPlayerPicksNext(st);
  }

  /** The turn goes back to slot 0 only if it was there: after the opening round it never does. */
  lemma BeatstarterNeverAgain(st: GameState, draw: int)
    requires Inv(st) && TickAllowed(st, draw) && st.currentPlayer != 0
    ensures TickStep(st, draw).currentPlayer != 0
  {
    // Only nextPlayer moves the turn, and from a real slot it never selects slot 0.
    if st.nextTickEndsRound {
      NextPlayerPicksNext(st.(nextTickEndsRound := false));
    } else if st.currentBeatAnsweredFlag {
      if st.cursor == |st.beats| && !WillAddBeat(st) {
        NextPlayerPicksNext(UpdateScoreStep(st.(currentBeatAnsweredFlag := false, roundResult := CORRECT)));
      }
    } else {
      WinnerKept(st, st.(roundResult := TIMEOUT));
      PlayerOutKeeps(st.(roundResult := TIMEOUT));
      var s1 := PlayerOutStep(st.(roundResult := TIMEOUT));
      if s1.isRunning {
        NextPlayerPicksNext(s1);
      }
    }
  }

  // ---------------------------------------------------------------------
  // The invariant is kept by every step
  // ---------------------------------------------------------------------

  /**
   * nextPlayer from a consistent state whose round is over: the turn goes to
   * a player still in, and in turn order while nobody has a score.
   */
  lemma NextPlayerKeepsInv(st: GameState)
    requires RosterOk(st) && CountOk(st) && SequenceOk(st) && ScoreOk(st)
    requires st.roundResult in {TIMEOUT, FALSE, CORRECT} && !st.nextTickEndsRound
    requires st.mode.MultiPlayer? && st.winner == null ==>
      OutUpTo(st.out, st.playersOut) && (st.currentPlayer == st.playersOut || (st.currentPlayer == -1 && st.playersOut == 0))
    requires st.mode.MultiPlayer? && st.winner != null ==> exists w :: RoundOverAt(st, w)
    ensures Inv(NextPlayerStep(st))
  {
    var r := NextPlayerStep(st);
    NextPlayerPicksNext(st);
    if st.mode.MultiPlayer? && st.winner == null {
      if st.currentPlayer == -1 {
        FirstTurnIsBeatstarter(st.out, r.currentPlayer);
      } else if st.playersOut + 1 < |st.out| {
        NextAfterPrefix(st.out, st.playersOut, r.currentPlayer);
      }
      assert EliminatedInTurnOrder(r);
    } else if st.mode.MultiPlayer? {
      var w :| RoundOverAt(st, w);
      if st.currentPlayer != w {
        OutSinceStep(st.out, w, st.currentPlayer, r.currentPlayer);
      }
      assert WinnerAt(r, w);
    }
  }

  /** beat keeps the invariant, including for a computer answering its own window. */
  lemma BeatKeepsInv(st: GameState, beat: int)
    requires Core(st) && BeatAllowed(st, beat)
    ensures Inv(BeatStep(st, beat))
  {
    if !st.currentBeatAnsweredFlag {
      if st.lastBeatFlag {
        BeatAddingKeepsInv(st, beat);
      } else if beat != st.currentCorrectBeat {
        BeatWrongKeepsInv(st, beat);
      } else {
        WinnerKept(st, BeatStep(st, beat));
      }
    }
  }

  /** The hit that extends the sequence keeps the invariant. */
  lemma BeatAddingKeepsInv(st: GameState, beat: int)
    requires Core(st) && BeatAllowed(st, beat) && !st.currentBeatAnsweredFlag && st.lastBeatFlag
    ensures Inv(BeatStep(st, beat))
  {
    var s := st.(currentBeatAnsweredFlag := true, beats := st.beats + [beat], currentCorrectBeat := beat);
    assert AreBeats(s.beats, s.difficulty);
    if st.mode.MultiPlayer? && !st.roster[st.currentPlayer].isComputer {
      // The player who completed the sequence is the winner now.
      assert WinnerAt(BeatStep(st, beat), st.currentPlayer);
    }
  }

  /** The wrong drum keeps the invariant. */
  lemma BeatWrongKeepsInv(st: GameState, beat: int)
    requires Core(st) && BeatAllowed(st, beat) && !st.currentBeatAnsweredFlag && !st.lastBeatFlag
    requires beat != st.currentCorrectBeat
    ensures Inv(BeatStep(st, beat))
  {
    WinnerKept(st, st.(currentBeatAnsweredFlag := true, roundResult := FALSE));
    var s := PlayerOutStep(st.(currentBeatAnsweredFlag := true, roundResult := FALSE));
    PlayerOutKeeps(st.(currentBeatAnsweredFlag := true, roundResult := FALSE));
    if s.mode.MultiPlayer? && s.winner != null {
      var w :| RoundOverAt(s, w);
      assert WinnerAt(BeatStep(st, beat), w);
    }
  }

  /**
   * playerOut, for the player whose window is open: the count and the
   * end-of-game rule stay consistent, and while nobody has a score the
   * eliminations stay in turn order.
   */
  lemma PlayerOutKeeps(st: GameState)
    requires Core(st) && st.isRunning && !st.nextTickEndsRound
    requires !st.roster[st.currentPlayer].isComputer
    ensures var r := PlayerOutStep(st);
      && RosterOk(r) && CountOk(r) && SequenceOk(r) && ScoreOk(r)
      && r.out == st.out[st.currentPlayer := true] && r.playersOut == st.playersOut + 1
      && (r.isRunning ==> CountOut(r.out) < r.noPlayers - 1)
      && (r.mode.MultiPlayer? && r.winner == null ==>
            OutUpTo(r.out, r.playersOut) && st.currentPlayer == r.playersOut)
      && (r.mode.MultiPlayer? && r.winner != null ==> exists w :: RoundOverAt(r, w))
  {
    if st.mode.MultiPlayer? && st.winner == null {
      OutUpToMark(st.out, st.currentPlayer - 1);
    }
    PlayerOutWinner(st);
  }

  /**
   * playerOut never eliminates a recorded winner: a full round since the
   * winner's turn would have ended the game.  A default winner is the
   * contestant left in.
   */
  lemma PlayerOutWinner(st: GameState)
    requires Core(st) && st.isRunning && !st.nextTickEndsRound
    requires !st.roster[st.currentPlayer].isComputer
    ensures var r := PlayerOutStep(st);
      r.mode.MultiPlayer? && r.winner != null ==> exists w :: RoundOverAt(r, w)
  {
    var r := PlayerOutStep(st);
    if st.mode.MultiPlayer? && st.winner == null {
      OutUpToMark(st.out, st.currentPlayer - 1);
      if r.winner != null {
        // The game is over and the contestant in the last slot wins by default.
        LastContestant(r.out, r.noPlayers);
        assert RoundOverAt(r, r.noPlayers);
      }
    } else if st.mode.MultiPlayer? {
      var w :| 1 <= w <= st.noPlayers && WinnerAt(st, w);
      if st.currentPlayer == w {
        // A full round since the winner's turn: everybody else is out, so the game is over.
        FullRoundCount(st.out, w);
        assert false;
      }
      assert RoundOverAt(r, w);
    }
  }

  /** cpuBeat keeps the invariant and closes the computer's window. */
  lemma CpuBeatKeepsInv(st: GameState, draw: int)
    requires Core(st) && st.isRunning && !st.currentBeatAnsweredFlag
    requires st.roster[st.currentPlayer].isComputer && IsBeat(draw, st.difficulty)
    ensures Inv(CpuBeatStep(st, draw))
  {
    if st.lastBeatFlag {
      WinnerKept(st, st.(currentCorrectBeat := draw));
      BeatKeepsInv(st.(currentCorrectBeat := draw), draw);
    } else {
      BeatKeepsInv(st, st.currentCorrectBeat);
    }
  }

  /** tick keeps the invariant. */
  lemma TickKeepsInv(st: GameState, draw: int)
    requires Inv(st) && TickAllowed(st, draw)
    ensures Inv(TickStep(st, draw))
  {
    if st.nextTickEndsRound {
      TickEndKeepsInv(st, draw);
    } else if st.currentBeatAnsweredFlag {
      TickAnsweredKeepsInv(st, draw);
    } else {
      TickTimeoutKeepsInv(st, draw);
    }
  }

  /** The tick that ends a round keeps the invariant. */
  lemma TickEndKeepsInv(st: GameState, draw: int)
    requires Inv(st) && st.nextTickEndsRound
    ensures Inv(TickStep(st, draw))
  {
    var s := st.(nextTickEndsRound := false);
    if st.mode.MultiPlayer? && st.winner != null {
      var w :| 1 <= w <= st.noPlayers && WinnerAt(st, w);
      assert RoundOverAt(s, w);
    }
    NextPlayerKeepsInv(s);
  }

  /** A window that passed without a hit keeps the invariant. */
  lemma TickTimeoutKeepsInv(st: GameState, draw: int)
    requires Inv(st) && TickAllowed(st, draw) && !st.nextTickEndsRound && !st.currentBeatAnsweredFlag
    ensures Inv(TickStep(st, draw))
  {
    var s := st.(roundResult := TIMEOUT);
    WinnerKept(st, s);
    PlayerOutKeeps(s);
    var s1 := PlayerOutStep(s);
    if s1.isRunning {
      NextPlayerKeepsInv(s1);
    } else if s1.mode.MultiPlayer? {
      var w :| RoundOverAt(s1, w);
      assert WinnerAt(s1, w);
    }
  }

  /** The answered-window branch of tick keeps the invariant. */
  lemma TickAnsweredKeepsInv(st: GameState, draw: int)
    requires Inv(st) && st.isRunning && !st.nextTickEndsRound && st.currentBeatAnsweredFlag
    requires IsBeat(draw, st.difficulty)
    ensures Inv(TickStep(st, draw))
  {
    var s1 := st.(currentBeatAnsweredFlag := false);
    if s1.cursor < |s1.beats| {
      TickAdvanceKeepsInv(st, draw);
    } else if WillAddBeat(s1) {
      TickAddKeepsInv(st, draw);
    } else {
      NextPlayerKeepsInv(UpdateScoreStep(s1.(roundResult := CORRECT)));
    }
  }

  /** Moving on to the next beat of the sequence keeps the invariant. */
  lemma TickAdvanceKeepsInv(st: GameState, draw: int)
    requires Inv(st) && st.isRunning && !st.nextTickEndsRound && st.currentBeatAnsweredFlag
    requires IsBeat(draw, st.difficulty) && st.cursor < |st.beats|
    ensures Inv(TickStep(st, draw))
  {
    var s2 := st.(currentBeatAnsweredFlag := false, currentCorrectBeat := st.beats[st.cursor], cursor := st.cursor + 1);
    WinnerKept(st, s2);
    assert Core(s2);
    if s2.roster[s2.currentPlayer].isComputer {
      CpuBeatKeepsInv(s2, draw);
    }
  }

  /** Opening the window in which the player adds a beat keeps the invariant. */
  lemma TickAddKeepsInv(st: GameState, draw: int)
    requires Inv(st) && st.isRunning && !st.nextTickEndsRound && st.currentBeatAnsweredFlag
    requires IsBeat(draw, st.difficulty) && st.cursor == |st.beats| && WillAddBeat(st)
    ensures Inv(TickStep(st, draw))
  {
    var s2 := st.(currentBeatAnsweredFlag := false, roundResult := CORRECT, lastBeatFlag := true);
    WinnerKept(st, s2);
    assert Core(s2);
    if s2.roster[s2.currentPlayer].isComputer {
      CpuBeatKeepsInv(s2, draw);
    }
  }
}
