/**
 * What the game promises, stated about the step functions of Rules: the
 * outcome of each branch of beat and tick, the termination rule of each
 * mode, the growth of the sequence, and facts that hold along any run of
 * permitted calls from a consistent state.
 */
module GameProperties {
  import opened Players
  import opened TurnOrder
  import opened Rules

  // ---------------------------------------------------------------------
  // beat
  // ---------------------------------------------------------------------

  /**
   * Only the first hit of a window is evaluated: after any beat the window is
   * answered, and a second beat changes nothing, so nobody is eliminated twice
   * and nothing is appended twice.
   */
  lemma BeatOncePerWindow(st: GameState, first: int, second: int)
    requires InTurn(st)
    ensures st.currentBeatAnsweredFlag ==> BeatStep(st, first) == st
    ensures BeatStep(st, first).currentBeatAnsweredFlag
    ensures BeatStep(BeatStep(st, first), second) == BeatStep(st, first)
  {
  }

  /**
   * The hit in the window for adding a beat appends exactly that drum, makes
   * it the expected one and ends the round with the next tick; it eliminates
   * nobody, and the score goes to the player only if human.
   */
  lemma BeatAdds(st: GameState, v: int)
    requires InTurn(st) && !st.currentBeatAnsweredFlag && st.lastBeatFlag
    ensures var r := BeatStep(st, v);
      && r.beats == st.beats + [v] && r.currentCorrectBeat == v && r.nextTickEndsRound
      && r.currentBeatAnsweredFlag
      && r.out == st.out && r.playersOut == st.playersOut && r.isRunning == st.isRunning
      && r.currentPlayer == st.currentPlayer && r.cursor == st.cursor && r.roundResult == st.roundResult
      && (if st.roster[st.currentPlayer].isComputer then r.winner == st.winner && r.points == st.points
          else r.winner == st.roster[st.currentPlayer] && r.points == |st.beats| + 1)
  {
  }

  /** While reproducing the sequence, the expected drum only closes the window. */
  lemma BeatMatches(st: GameState)
    requires InTurn(st) && !st.currentBeatAnsweredFlag && !st.lastBeatFlag
    ensures BeatStep(st, st.currentCorrectBeat) == st.(currentBeatAnsweredFlag := true)
  {
  }

  /**
   * Any other drum loses the round: the player is out and counted, and the
   * round ends with the next tick; the sequence and the turn stay.
   */
  lemma BeatMisses(st: GameState, v: int)
    requires InTurn(st) && !st.currentBeatAnsweredFlag && !st.lastBeatFlag && v != st.currentCorrectBeat
    ensures var r := BeatStep(st, v);
      && r.roundResult == FALSE && r.out == st.out[st.currentPlayer := true]
      && r.out[st.currentPlayer] && r.playersOut == st.playersOut + 1
      && r.nextTickEndsRound && r.currentBeatAnsweredFlag
      && r.beats == st.beats && r.currentPlayer == st.currentPlayer
  {
  }

  /** beat never moves the turn; the sequence grows by at most the drum hit. */
  lemma BeatExtends(st: GameState, v: int)
    requires InTurn(st)
    ensures var r := BeatStep(st, v);
      && r.currentPlayer == st.currentPlayer
      && (r.beats == st.beats || (r.beats == st.beats + [v] && st.lastBeatFlag && !st.currentBeatAnsweredFlag))
  {
  }

  // ---------------------------------------------------------------------
  // tick
  // ---------------------------------------------------------------------

  /**
   * A tick that was due to end the round clears the flag and hands the turn
   * to the next player still in; nothing else happens.
   */
  lemma TickDeferred(st: GameState, draw: int)
    requires InTurn(st) && st.nextTickEndsRound && CountOut(st.out) < st.noPlayers
    ensures var r := TickStep(st, draw);
      && IsNext(st.out, st.currentPlayer, r.currentPlayer) && RoundReset(r) && !r.nextTickEndsRound
      && r == st.(currentPlayer := r.currentPlayer, nextTickEndsRound := false, lastBeatFlag := false,
                  currentBeatAnsweredFlag := true, currentCorrectBeat := 0, cursor := 0)
  {
    NextPlayerPicksNext(st.(nextTickEndsRound := false));
  }

  /**
   * A window that passed without a hit: the round result is TIMEOUT and the
   * player is out; the turn moves on only if the game is still running.
   */
  lemma TickTimesOut(st: GameState, draw: int)
    requires Inv(st) && TickAllowed(st, draw) && !st.nextTickEndsRound && !st.currentBeatAnsweredFlag
    ensures var r := TickStep(st, draw);
      && r.roundResult == TIMEOUT && r.out == st.out[st.currentPlayer := true]
      && r.playersOut == st.playersOut + 1 && r.beats == st.beats && r.points == st.points
      && (r.winner == st.winner
          || (st.winner == null && r.mode.MultiPlayer? && !r.isRunning && r.winner == st.roster[st.noPlayers]))
      && (r.isRunning ==> IsNext(r.out, st.currentPlayer, r.currentPlayer) && RoundReset(r))
      && (!r.isRunning ==> r.currentPlayer == st.currentPlayer)
  {
    var s := st.(roundResult := TIMEOUT);
    WinnerKept(st, s);
    PlayerOutKeeps(s);
    var s1 := PlayerOutStep(s);
    if s1.isRunning {
      NextPlayerPicksNext(s1);
    }
  }

  /**
   * An answered window with beats left: the iterator moves to the next beat,
   * which a human now has to hit, and a computer hits at once.
   */
  lemma TickAdvances(st: GameState, draw: int)
    requires Inv(st) && TickAllowed(st, draw) && !st.nextTickEndsRound && st.currentBeatAnsweredFlag
    requires st.cursor < |st.beats|
    ensures var r := TickStep(st, draw);
      && r.cursor == st.cursor + 1 && r.currentCorrectBeat == st.beats[st.cursor]
      && r.currentPlayer == st.currentPlayer && r.beats == st.beats && r.out == st.out
      && r.playersOut == st.playersOut && r.isRunning == st.isRunning && r.points == st.points
      && (r.currentBeatAnsweredFlag <==> st.roster[st.currentPlayer].isComputer)
  {
    assert IsBeat(st.beats[st.cursor], st.difficulty);
  }

  /**
   * An answered window past the end of the sequence: the round result is
   * CORRECT.  A player who adds a beat gets one more window (a computer fills
   * it at once with `draw`); otherwise the player scores and the turn moves on.
   */
  lemma TickCompletes(st: GameState, draw: int)
    requires Inv(st) && TickAllowed(st, draw) && !st.nextTickEndsRound && st.currentBeatAnsweredFlag
    requires st.cursor == |st.beats|
    ensures var r := TickStep(st, draw);
      && r.roundResult == CORRECT && r.out == st.out
      && r.playersOut == st.playersOut && r.isRunning == st.isRunning
      && (WillAddBeat(st) ==>
            && r.currentPlayer == st.currentPlayer && r.lastBeatFlag && r.points == st.points
            && (st.roster[st.currentPlayer].isComputer ==> r.beats == st.beats + [draw] && r.nextTickEndsRound)
            && (!st.roster[st.currentPlayer].isComputer ==> r.beats == st.beats && !r.currentBeatAnsweredFlag))
      && (!WillAddBeat(st) ==>
            && r.beats == st.beats && IsNext(st.out, st.currentPlayer, r.currentPlayer) && RoundReset(r)
            && r.points == |st.beats| && r.winner == st.roster[st.currentPlayer])
  {
    var s := st.(currentBeatAnsweredFlag := false, roundResult := CORRECT);
    if !WillAddBeat(st) {
      NextPlayerPicksNext(UpdateScoreStep(s));
    }
  }

  /**
   * tick appends at most one beat, the drum `draw`, and only on a computer's
   * turn; in particular the sequence never shrinks.
   */
  lemma TickExtends(st: GameState, draw: int)
    requires Inv(st) && TickAllowed(st, draw)
    ensures var r := TickStep(st, draw);
      r.beats == st.beats || (r.beats == st.beats + [draw] && st.roster[st.currentPlayer].isComputer)
  {
    if !st.nextTickEndsRound && st.currentBeatAnsweredFlag && st.cursor == |st.beats| {
      TickCompletes(st, draw);
    }
  }

  // ---------------------------------------------------------------------
  // The two modes
  // ---------------------------------------------------------------------

  /**
   * Multi-player playerOut ends the game exactly when the eliminations reach
   * one less than the contestants and leaves it running below that; a winner
   * already recorded is kept, and without one the last slot's player wins.
   */
  lemma MultiPlayerOutRule(st: GameState)
    requires InTurn(st) && st.mode.MultiPlayer?
    ensures var r := PlayerOutStep(st);
      && r.playersOut == st.playersOut + 1
      && (r.playersOut == st.noPlayers - 1 ==> !r.isRunning)
      && (r.playersOut != st.noPlayers - 1 ==> r.isRunning == st.isRunning && r.winner == st.winner)
      && (st.winner != null ==> r.winner == st.winner)
      && (r.playersOut == st.noPlayers - 1 && st.winner == null ==> r.winner == st.roster[st.noPlayers])
  {
  }

  /**
   * The default winner is the survivor: when the last but one contestant is
   * eliminated before anybody has scored, the player in the last slot is the
   * only contestant still in.
   */
  lemma DefaultWinnerIsSurvivor(st: GameState)
    requires Core(st) && st.isRunning && !st.nextTickEndsRound && !st.roster[st.currentPlayer].isComputer
    requires st.mode.MultiPlayer? && st.winner == null && st.playersOut + 1 == st.noPlayers - 1
    ensures var r := PlayerOutStep(st);
      && !r.isRunning && r.winner == st.roster[st.noPlayers] && !r.out[st.noPlayers]
      && forall k :: 1 <= k <= st.noPlayers && !r.out[k] ==> k == st.noPlayers
  {
    PlayerOutKeeps(st);
    var r := PlayerOutStep(st);
    LastContestant(r.out, r.noPlayers);
  }

  /**
   * Multi-player: once the game is over there is a winner, and it is the one
   * contestant still in -- whether it scored last or won by default.
   */
  lemma WinnerIsLastStanding(st: GameState)
    requires Inv(st) && st.mode.MultiPlayer? && !st.isRunning
    ensures st.winner != null
    ensures exists k :: (1 <= k <= st.noPlayers && st.winner == st.roster[k] && !st.out[k]
                         && forall j :: 1 <= j <= st.noPlayers && j != k ==> st.out[j])
  {
    var w :| 1 <= w <= st.noPlayers && WinnerAt(st, w);
    forall j | 1 <= j <= st.noPlayers && j != w
      ensures st.out[j]
    {
      if !st.out[j] {
        // Slot 0, slot w and slot j would all be in, but only one contestant is left.
        CountOutSpares(st.out, if j < w then [0, j, w] else [0, w, j]);
        assert false;
      }
    }
  }

  /**
   * A timeout that ends a multi-player game calls no nextPlayer, so the
   * eliminated player's window stays open and unanswered.  A hit into it
   * -- a late key, if the keyboard is not locked -- still reaches beat's
   * adding branch and records the eliminated player as the winner, which
   * WinnerIsLastStanding rules out for the hits BeatAllowed permits.
   */
  lemma LateHitAfterTimeout(st: GameState, draw: int, v: int)
    requires Inv(st) && st.mode.MultiPlayer? && TickAllowed(st, draw)
    requires !st.nextTickEndsRound && !st.currentBeatAnsweredFlag && st.lastBeatFlag
    requires st.playersOut + 1 == st.noPlayers - 1
    ensures var t := TickStep(st, draw);
      && !t.isRunning && !t.currentBeatAnsweredFlag && t.lastBeatFlag
      && t.currentPlayer == st.currentPlayer && t.out[st.currentPlayer]
    ensures var r := BeatStep(TickStep(st, draw), v);
      r.winner == st.roster[st.currentPlayer] && r.out[st.currentPlayer] && r.points == |st.beats| + 1
  {
    TickTimesOut(st, draw);
  }

  /** Single-player playerOut ends the game at once and leaves the score as it was. */
  lemma SinglePlayerOutRule(st: GameState)
    requires InTurn(st) && st.mode.SinglePlayer?
    ensures var r := PlayerOutStep(st);
      !r.isRunning && r.winner == st.winner && r.points == st.points
  {
  }

  /** Single-player: a wrong drum or a missed window ends the game and keeps the score. */
  lemma SingleFailureEndsGame(st: GameState, v: int, draw: int)
    requires InTurn(st) && st.mode.SinglePlayer?
    ensures !st.currentBeatAnsweredFlag && !st.lastBeatFlag && v != st.currentCorrectBeat ==>
      !BeatStep(st, v).isRunning && BeatStep(st, v).winner == st.winner
    ensures !st.nextTickEndsRound && !st.currentBeatAnsweredFlag ==>
      !TickStep(st, draw).isRunning && TickStep(st, draw).winner == st.winner
  {
  }

  /**
   * Single-player: a human who fails before ever completing a sequence
   * ends the game with no winner.
   */
  lemma SingleFailureBeforeScore(st: GameState, v: int, draw: int)
    requires Inv(st) && st.mode.SinglePlayer? && st.points == 0
    ensures !st.currentBeatAnsweredFlag && !st.lastBeatFlag && v != st.currentCorrectBeat ==>
      !BeatStep(st, v).isRunning && BeatStep(st, v).winner == null
    ensures !st.nextTickEndsRound && !st.currentBeatAnsweredFlag ==>
      !TickStep(st, draw).isRunning && TickStep(st, draw).winner == null
  {
    SingleWinnerIsHuman(st);
    SingleFailureEndsGame(st, v, draw);
  }

  /**
   * Single-player: the score only ever names the human, in slot 1, and
   * there is a winner exactly when some points were scored.
   */
  lemma SingleWinnerIsHuman(st: GameState)
    requires Inv(st) && st.mode.SinglePlayer?
    ensures st.winner == null || st.winner == st.roster[1]
    ensures st.winner == null <==> st.points == 0
  {
    if st.winner != null {
      var i :| 0 <= i < |st.roster| && st.roster[i] == st.winner;
      assert i == 1;
    }
  }

  /** Single-player: a human's turn never extends the sequence, neither by beat nor by tick. */
  lemma SingleHumanNeverExtends(st: GameState, v: int, draw: int)
    requires Inv(st) && st.mode.SinglePlayer? && !st.roster[st.currentPlayer].isComputer
    ensures BeatStep(st, v).beats == st.beats
    ensures TickAllowed(st, draw) ==> TickStep(st, draw).beats == st.beats
  {
    if TickAllowed(st, draw) {
      TickExtends(st, draw);
    }
  }

  /**
   * In every consistent state the eliminations stay below the number of
   * contestants, so some contestant is in and nextPlayer's scan ends.
   */
  lemma ContestantRemains(st: GameState)
    requires Inv(st)
    ensures st.playersOut <= st.noPlayers - 1
    ensures st.isRunning ==> st.playersOut < st.noPlayers - 1
    ensures exists k :: 1 <= k <= st.noPlayers && !st.out[k]
  {
    ContestantStillIn(st.out);
  }

  // ---------------------------------------------------------------------
  // The opening round
  // ---------------------------------------------------------------------

  /** The state after the driver's ticks, one after another, with no drum hit in between. */
  function TickRun(st: GameState, ticks: seq<int>): (r: GameState)
    requires InTurn(st)
    ensures InTurn(r) && SameGame(st, r)
    decreases |ticks|
  {
    if ticks == [] then st else TickStep(TickRun(st, ticks[..|ticks| - 1]), ticks[|ticks| - 1])
  }

  /**
   * The Beatstarter replays the drawn beats one per tick: after k ticks of
   * the opening round the iterator is at k and the Beatstarter has hit
   * beat k.
   */
  lemma {:induction false} OpeningReplay(mode: Mode, difficulty: int, roster: seq<Player>, draws: seq<int>,
                                          ticks: seq<int>, k: nat)
    requires IsDifficulty(difficulty) && RosterShape(mode, roster)
    requires |draws| == BEATS_TO_START_WITH[difficulty] - 1 && AreBeats(draws, difficulty)
    requires k <= |draws| && k <= |ticks|
    ensures var i := Initial(mode, difficulty, roster, draws);
      TickRun(i, ticks[..k]) == i.(cursor := k, currentCorrectBeat := if k == 0 then 0 else draws[k - 1])
  {
    var i := Initial(mode, difficulty, roster, draws);
    InitialState(mode, difficulty, roster, draws);
    if k > 0 {
      OpeningReplay(mode, difficulty, roster, draws, ticks, k - 1);
      assert ticks[..k][..k - 1] == ticks[..k - 1];
      assert IsBeat(draws[k - 1], difficulty);
    }
  }

  /**
   * The opening round: the Beatstarter replays the drawn beats and adds one,
   * so the sequence has its full starting length BEATS_TO_START_WITH; the
   * tick after that hands the turn to the first contestant, with no score
   * yet and the sequence as it is.
   */
  lemma OpeningRound(mode: Mode, difficulty: int, roster: seq<Player>, draws: seq<int>, ticks: seq<int>)
    requires IsDifficulty(difficulty) && RosterShape(mode, roster)
    requires |draws| == BEATS_TO_START_WITH[difficulty] - 1 && AreBeats(draws, difficulty)
    requires |ticks| == |draws| + 2 && AreBeats(ticks, difficulty)
    ensures var r := TickRun(Initial(mode, difficulty, roster, draws), ticks[..|draws| + 1]);
      && r.beats == draws + [ticks[|draws|]] && |r.beats| == BEATS_TO_START_WITH[difficulty]
      && r.currentPlayer == 0 && r.nextTickEndsRound && r.isRunning && r.playersOut == 0 && r.winner == null
    ensures var r := TickRun(Initial(mode, difficulty, roster, draws), ticks);
      && r.currentPlayer == 1 && r.beats == draws + [ticks[|draws|]]
      && r.isRunning && r.playersOut == 0 && r.winner == null && r.points == 0
  {
    var i := Initial(mode, difficulty, roster, draws);
    var m := |draws|;
    InitialState(mode, difficulty, roster, draws);
    OpeningReplay(mode, difficulty, roster, draws, ticks, m);
    assert ticks[..m + 1][..m] == ticks[..m];
    assert IsBeat(draws[m - 1], difficulty);
    var r := TickRun(i, ticks[..m + 1]);
    assert r == i.(cursor := m, beats := draws + [ticks[m]], currentCorrectBeat := ticks[m],
                   roundResult := CORRECT, lastBeatFlag := true, nextTickEndsRound := true);
    assert ticks[..m + 2] == ticks;
    assert ticks[..m + 2][..m + 1] == ticks[..m + 1];
  }

  // ---------------------------------------------------------------------
  // Runs of permitted calls
  // ---------------------------------------------------------------------

  /** A call from the outside: a tick with the drum a computer would add, or a drum hit. */
  datatype Event = Tick(draw: int) | Hit(beat: int)

  predicate Allowed(st: GameState, e: Event)
    requires Inv(st)
  {
    match e
    case Tick(draw) => TickAllowed(st, draw)
    case Hit(beat) => BeatAllowed(st, beat)
  }

  function Apply(st: GameState, e: Event): (r: GameState)
    requires Inv(st) && Allowed(st, e)
    ensures Inv(r) && SameGame(st, r)
  {
    match e
    case Tick(draw) =>
      TickKeepsInv(st, draw);
      TickStep(st, draw)
    case Hit(beat) =>
      BeatKeepsInv(st, beat);
      BeatStep(st, beat)
  }

  /** Every call of the run is permitted in the state it meets. */
  predicate Legal(st: GameState, run: seq<Event>)
    requires Inv(st)
    decreases |run|
  {
    run == [] || (Allowed(st, run[0]) && Legal(Apply(st, run[0]), run[1..]))
  }

  /** The state after a legal run; it is consistent again. */
  function Run(st: GameState, run: seq<Event>): (r: GameState)
    requires Inv(st) && Legal(st, run)
    ensures Inv(r) && SameGame(st, r)
    decreases |run|
  {
    if run == [] then st else Run(Apply(st, run[0]), run[1..])
  }

  /** What one permitted call never undoes. */
  predicate Progress(st: GameState, r: GameState)
    requires Wf(st) && Wf(r) && SameGame(st, r)
  {
    && st.beats <= r.beats
    && (forall i :: 0 <= i < |st.out| && st.out[i] ==> r.out[i])
    && st.playersOut <= r.playersOut
    && st.points <= r.points
    && (!st.isRunning ==> !r.isRunning)
    && (st.currentPlayer != 0 ==> r.currentPlayer != 0)
  }

  /**
   * One permitted call: the sequence only grows, nobody comes back in, the
   * score never drops, a finished game stays finished and the Beatstarter
   * never gets the turn back.
   */
  lemma StepProgress(st: GameState, e: Event)
    requires Inv(st) && Allowed(st, e)
    ensures Progress(st, Apply(st, e))
  {
    match e
    case Tick(draw) => TickProgress(st, draw);
    case Hit(beat) => BeatProgress(st, beat);
  }

  lemma TickProgress(st: GameState, draw: int)
    requires Inv(st) && TickAllowed(st, draw)
    ensures Progress(st, TickStep(st, draw))
  {
    if st.currentPlayer != 0 {
      BeatstarterNeverAgain(st, draw);
    }
    if st.nextTickEndsRound {
      TickDeferred(st, draw);
    } else if !st.currentBeatAnsweredFlag {
      TickTimesOut(st, draw);
    } else if st.cursor < |st.beats| {
      TickAdvances(st, draw);
    } else {
      TickCompletes(st, draw);
    }
  }

  lemma BeatProgress(st: GameState, beat: int)
    requires Inv(st) && BeatAllowed(st, beat)
    ensures Progress(st, BeatStep(st, beat))
  {
    BeatExtends(st, beat);
  }

  /** Progress over a whole run, by induction on its length. */
  lemma {:induction false} RunProgress(st: GameState, run: seq<Event>)
    requires Inv(st) && Legal(st, run)
    ensures Progress(st, Run(st, run))
    decreases |run|
  {
    if run != [] {
      var s1 := Apply(st, run[0]);
      StepProgress(st, run[0]);
      RunProgress(s1, run[1..]);
    }
  }
}
