/**
 * The engine object.  Game holds the state in its fields and the players'
 * out flags; each method performs the statements of the engine's method and
 * is proved to move the state exactly as the corresponding function of
 * Rules does.  The two concrete games are the two constructors, and the
 * methods they override dispatch on `mode`.
 */
module Games {
  import opened Players
  import opened Scores
  import opened TurnOrder
  import opened Rules

  class Game {
    const mode: Mode
    const difficulty: int
    const noPlayers: int
    /** Slot 0: the Beatstarter; slots 1..noPlayers: the contestants. */
    const players: array<Player>
    const score: Score
    /** The slot each player occupies: it shows that the roster holds every player once. */
    ghost const slotOf: map<Player, int>

    var isRunning: bool
    var beats: seq<int>
    /** Position of the round's iterator over `beats`. */
    var cursor: nat
    var currentPlayer: int
    var playersOut: int
    var currentCorrectBeat: int
    var lastBeatFlag: bool
    var nextTickEndsRound: bool
    var currentBeatAnsweredFlag: bool
    var roundResult: int

    /** The players, slot by slot, as a value. */
    ghost const roster: seq<Player>
    /** Which players are eliminated, slot by slot. */
    ghost var out: seq<bool>

    /** The engine's state as a value. */
    ghost function State(): GameState
      reads this, score
    {
      GameState(mode, difficulty, noPlayers, roster, out, isRunning, beats, cursor,
                currentPlayer, playersOut, currentCorrectBeat, lastBeatFlag, nextTickEndsRound,
                currentBeatAnsweredFlag, roundResult, score.winner, score.points)
    }

    /**
     * The roster is the players array, each player in exactly one slot, and
     * `out` holds the players' out flags.
     */
    ghost predicate Linked()
      reads this`out, players, roster
    {
      && players[..] == roster && |out| == |roster|
      && (forall i :: 0 <= i < |roster| ==> roster[i] in slotOf && slotOf[roster[i]] == i)
      && (forall i :: 0 <= i < |roster| ==> roster[i].isOut == out[i])
    }

    ghost predicate Valid()
      reads this, players, roster, score
    {
      Linked() && Inv(State())
    }

    /** currentPlayerWillAddBeat, both overrides: the rule of Rules.WillAddBeat, read off the fields. */
    function CurrentPlayerWillAddBeat(): (r: bool)
      reads this, players, score
      requires 0 <= currentPlayer < players.Length
      ensures players[..] == roster && InTurn(State()) ==> (r <==> WillAddBeat(State()))
    {
      match mode
      case MultiPlayer => true
      case SinglePlayer => players[currentPlayer].isComputer
    }

    /** MultiPlayerGame: the Beatstarter and one human per name; the Beatstarter opens. */
    constructor MultiPlayerGame(playerNames: seq<string>, difficulty: int, draws: seq<int>)
      requires IsDifficulty(difficulty) && |playerNames| >= 2
      requires |draws| == BEATS_TO_START_WITH[difficulty] - 1 && AreBeats(draws, difficulty)
      ensures Valid() && State() == Initial(MultiPlayer, difficulty, roster, draws)
      ensures noPlayers == |playerNames| && players.Length == noPlayers + 1
      ensures players[0].name == "Beatstarter"
      ensures forall i :: 1 <= i <= noPlayers ==> players[i].name == playerNames[i - 1]
      ensures fresh(players) && fresh(score)
    {
      var beatstarter := new Player("Beatstarter", true);
      var roster' := new Player[|playerNames| + 1](_ => beatstarter);
      ghost var slots := map[beatstarter := 0];
      for i := 1 to |playerNames| + 1
        invariant roster'[0] == beatstarter && !beatstarter.isOut
        invariant forall k :: 1 <= k < i ==>
          roster'[k].name == playerNames[k - 1] && !roster'[k].isComputer && !roster'[k].isOut
        invariant forall k :: 0 <= k < i ==> roster'[k] in slots && slots[roster'[k]] == k
      {
        var contestant := new Player(playerNames[i - 1], false);
        roster'[i] := contestant;
        slots := slots[contestant := i];
      }
      slotOf := slots;
      roster := roster'[..];
      out := seq(|playerNames| + 1, _ => false);
      mode := MultiPlayer;
      noPlayers := |playerNames|;
      players := roster';
      this.difficulty := difficulty;
      score := new Score();
      currentBeatAnsweredFlag := true;
      currentPlayer := -1;
      playersOut := 0;
      beats := [];
      cursor := 0;
      isRunning := true;
      nextTickEndsRound := false;
      lastBeatFlag := false;
      currentCorrectBeat := 0;
      roundResult := FALSE;
      new;
      assert Linked() && State() == Created(MultiPlayer, difficulty, roster);
      Open(draws);
    }

    /** SinglePlayerGame: the Beatstarter, the one human and the computer "CPU"; the Beatstarter opens. */
    constructor SinglePlayerGame(playerNames: seq<string>, difficulty: int, draws: seq<int>)
      requires IsDifficulty(difficulty) && |playerNames| >= 1
      requires |draws| == BEATS_TO_START_WITH[difficulty] - 1 && AreBeats(draws, difficulty)
      ensures Valid() && State() == Initial(SinglePlayer, difficulty, roster, draws)
      ensures noPlayers == 2 && players.Length == 3
      ensures players[0].name == "Beatstarter" && players[1].name == playerNames[0] && players[2].name == "CPU"
      ensures fresh(players) && fresh(score)
    {
      var beatstarter := new Player("Beatstarter", true);
      var human := new Player(playerNames[0], false);
      var cpu := new Player("CPU", true);
      players := new Player[3][beatstarter, human, cpu];
      slotOf := map[beatstarter := 0, human := 1, cpu := 2];
      roster := [beatstarter, human, cpu];
      out := [false, false, false];
      mode := SinglePlayer;
      noPlayers := 2;
      this.difficulty := difficulty;
      score := new Score();
      currentBeatAnsweredFlag := true;
      currentPlayer := -1;
      playersOut := 0;
      beats := [];
      cursor := 0;
      isRunning := true;
      nextTickEndsRound := false;
      lastBeatFlag := false;
      currentCorrectBeat := 0;
      roundResult := FALSE;
      new;
      assert out == seq(3, _ => false);
      assert Linked() && State() == Created(SinglePlayer, difficulty, roster);
      Open(draws);
    }

    /**
     * The constructors' last steps once the fields are set: the opening beats
     * are drawn and the first nextPlayer hands the turn to the Beatstarter.
     */
    method Open(draws: seq<int>)
      requires IsDifficulty(difficulty) && RosterShape(mode, roster)
      requires Linked() && State() == Created(mode, difficulty, roster)
      requires |draws| == BEATS_TO_START_WITH[difficulty] - 1 && AreBeats(draws, difficulty)
      modifies this`beats, this`currentPlayer, this`lastBeatFlag, this`currentBeatAnsweredFlag,
        this`currentCorrectBeat, this`cursor
      ensures Valid() && State() == Initial(mode, difficulty, roster, draws)
    {
      GenerateBeats(BEATS_TO_START_WITH[difficulty] - 1, draws);
      assert State() == Created(mode, difficulty, roster).(beats := draws);
      NextPlayer();
      InitialState(mode, difficulty, roster, draws);
    }

    /** generateBeats: appends the opening beats; `draws` are the random drum numbers. */
    method GenerateBeats(amount: int, draws: seq<int>)
      requires |draws| == amount
      modifies this`beats
      ensures beats == old(beats) + draws
    {
      for i := 0 to amount
        invariant beats == old(beats) + draws[..i]
      {
        beats := beats + [draws[i]];
      }
      assert draws[..amount] == draws;
    }

    /** nextPlayer: hands the turn to the next player still in and resets the round state. */
    method NextPlayer()
      requires Linked() && Wf(State()) && CountOut(out) < noPlayers
      modifies this`currentPlayer, this`lastBeatFlag, this`currentBeatAnsweredFlag, this`currentCorrectBeat, this`cursor
      ensures Linked() && State() == NextPlayerStep(old(State()))
    {
      currentPlayer := ScanForNext(currentPlayer);
      lastBeatFlag := false;
      currentBeatAnsweredFlag := true;
      currentCorrectBeat := 0;
      cursor := 0;
    }

    /**
     * The loop of nextPlayer: from slot `from`, steps round-robin to the next
     * slot until it finds a player who is not out.  It ends because some
     * contestant is still in.
     */
    method ScanForNext(from: int) returns (c: int)
      requires Linked() && noPlayers >= 2 && |roster| == noPlayers + 1
      requires -1 <= from <= noPlayers && CountOut(out) < noPlayers
      ensures c == NextSlot(out, from, noPlayers)
    {
      ContestantStillIn(out);
      ghost var j :| 1 <= j < |out| && !out[j];
      c := Succ(from, noPlayers);
      ghost var fuel: nat := noPlayers + 1;
      while players[c].isOut
        invariant 0 <= c <= noPlayers
        invariant NextSlot(out, from, noPlayers) == ScanFrom(out, c, noPlayers, fuel)
        invariant ScanDistance(c, j, noPlayers) < fuel
        decreases fuel
      {
        assert roster[c] == players[c];
        ScanAdvances(c, j, noPlayers);
        c := Succ(c, noPlayers);
        fuel := fuel - 1;
      }
      assert roster[c] == players[c];
    }

    /** updateScoreAndWinner */
    method UpdateScoreAndWinner()
      requires Linked() && InTurn(State())
      modifies score
      ensures State() == UpdateScoreStep(old(State()))
    {
      if !players[currentPlayer].isComputer {
        score.SetPoints(|beats|);
        score.SetWinner(players[currentPlayer]);
      }
    }

    /** endGame */
    method EndGame()
      modifies this`isRunning
      ensures State() == EndGameStep(old(State()))
    {
      isRunning := false;
    }

    /** The part of playerOut both modes share. */
    method MarkOut()
      requires Linked() && InTurn(State())
      modifies this`playersOut, this`out, players[currentPlayer]
      ensures Linked() && State() == MarkOutStep(old(State()))
    {
      players[currentPlayer].PlayerOut();
      playersOut := playersOut + 1;
      out := out[currentPlayer := true];
    }

    /** playerOut, both overrides. */
    method PlayerOut()
      requires Linked() && InTurn(State())
      modifies this`playersOut, this`out, this`isRunning, score, players[currentPlayer]
      ensures Linked() && State() == PlayerOutStep(old(State()))
    {
      MarkOut();
      match mode {
        case SinglePlayer =>
          EndGame();
        case MultiPlayer =>
          if playersOut == noPlayers - 1 {
            if score.winner == null {
              score.SetWinner(players[noPlayers]);
            }
            EndGame();
          }
      }
    }

    /**
     * beat: a drum hit in the current timing window.  From a consistent
     * state and a permitted hit it leaves a consistent state.
     */
    method Beat(beat: int)
      requires Linked() && InTurn(State())
      modifies this, score, players[currentPlayer]
      ensures Linked() && State() == BeatStep(old(State()), beat)
      ensures old(Core(State())) && old(BeatAllowed(State(), beat)) ==> Valid()
    {
      ghost var st0 := State();
      if Core(st0) && BeatAllowed(st0, beat) {
        BeatKeepsInv(st0, beat);
      }
      if currentBeatAnsweredFlag {
        return;
      }
      currentBeatAnsweredFlag := true;
      if lastBeatFlag {
        AddBeat(beat);
      } else if beat == currentCorrectBeat {
      } else {
        WrongBeat();
      }
    }

    /** The branch of beat for the hit that extends the sequence. */
    method AddBeat(beat: int)
      requires Linked() && InTurn(State())
      modifies this`beats, this`currentBeatAnsweredFlag, this`currentCorrectBeat, this`nextTickEndsRound, score
      ensures State() == AddBeatStep(old(State()), beat)
    {
      beats := beats + [beat];
      currentBeatAnsweredFlag := true;
      currentCorrectBeat := beat;
      UpdateScoreAndWinner();
      nextTickEndsRound := true;
    }

    /** The branch of beat for a wrong drum. */
    method WrongBeat()
      requires Linked() && InTurn(State())
      modifies this`roundResult, this`currentBeatAnsweredFlag, this`nextTickEndsRound,
        this`playersOut, this`out, this`isRunning, score, players[currentPlayer]
      ensures Linked() && State() == WrongBeatStep(old(State()))
    {
      currentBeatAnsweredFlag := true;
      roundResult := FALSE;
      PlayerOut();
      nextTickEndsRound := true;
    }

    /** cpuBeat: the computer's hit, made through beat as a key press would be. */
    method CpuBeat(draw: int)
      requires Linked() && InTurn(State())
      modifies this, score, players[currentPlayer]
      ensures Linked() && State() == CpuBeatStep(old(State()), draw)
    {
      if lastBeatFlag {
        currentCorrectBeat := draw;
        Beat(currentCorrectBeat);
        nextTickEndsRound := true;
      } else {
        Beat(currentCorrectBeat);
      }
    }

    /**
     * tick: the timing window closes.  A round that was due to end ends;
     * otherwise the window was answered or it passed without a hit.  `draw`
     * is the drum a computer adds if it has to.
     */
    method Tick(draw: int)
      requires Valid() && TickAllowed(State(), draw)
      modifies this, score, players[..]
      ensures Linked() && State() == TickStep(old(State()), draw)
      ensures Valid()
    {
      ghost var st0 := State();
      TickKeepsInv(st0, draw);
      if nextTickEndsRound {
        nextTickEndsRound := false;
        NextPlayer();
        return;
      }
      if currentBeatAnsweredFlag {
        TickAnswered(draw);
      } else {
        TickTimeout();
      }
    }

    /**
     * The answered-window branch of tick: the next beat of the sequence, or
     * past its end the reproduced sequence is concluded; a computer then
     * plays its window at once.
     */
    method TickAnswered(draw: int)
      requires Linked() && InTurn(State()) && CountOut(out) < noPlayers
      modifies this, score, players[..]
      ensures Linked() && State() == AnsweredStep(old(State()), draw)
    {
      currentBeatAnsweredFlag := false;
      NextBeat();
      if players[currentPlayer].isComputer && currentCorrectBeat != 0 {
        CpuBeat(draw);
      }
    }

    /** The step of the round's iterator in tick: the next beat, or the end of the sequence. */
    method NextBeat()
      requires Linked() && InTurn(State()) && CountOut(out) < noPlayers
      modifies this`roundResult, this`lastBeatFlag, score,
        this`currentPlayer, this`currentBeatAnsweredFlag, this`currentCorrectBeat, this`cursor
      ensures State() == NextBeatStep(old(State()))
    {
      if cursor < |beats| {
        currentCorrectBeat := beats[cursor];
        cursor := cursor + 1;
      } else {
        SequenceDone();
      }
    }

    /** The iterator is exhausted: the whole sequence was reproduced. */
    method SequenceDone()
      requires Linked() && InTurn(State()) && CountOut(out) < noPlayers
      modifies this`roundResult, this`lastBeatFlag, score,
        this`currentPlayer, this`currentBeatAnsweredFlag, this`currentCorrectBeat, this`cursor
      ensures State() == SequenceDoneStep(old(State()))
    {
      roundResult := CORRECT;
      if CurrentPlayerWillAddBeat() {
        lastBeatFlag := true;
      } else {
        UpdateScoreAndWinner();
        NextPlayer();
      }
    }

    /** The branch of tick for a window that passed without a hit: the player is out. */
    method TickTimeout()
      requires Linked() && InTurn(State())
      requires CountOut(out) == playersOut && playersOut < noPlayers - 1
      modifies this, score, players[currentPlayer]
      ensures Linked() && State() == TimeoutStep(old(State()))
    {
      roundResult := TIMEOUT;
      PlayerOut();
      if isRunning {
        NextPlayer();
      }
    }
  }
}
