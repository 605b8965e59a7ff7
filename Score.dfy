/** The score of a game and the order in which scores rank. */
module Scores {
  import opened Players

  /**
   * The live score of a game: the player who last completed the sequence
   * (null while nobody has) and the sequence length at that moment.
   */
  class Score {
    var winner: Player?
    var points: int

    /** The score of a new game. */
    constructor ()
      ensures winner == null && points == 0
    {
      winner := null;
      points := 0;
    }

    /** A score read back from the high-score table. */
    constructor Of(winner: Player?, points: int)
      ensures this.winner == winner && this.points == points
    {
      this.winner := winner;
      this.points := points;
    }

    method SetPoints(points: int)
      modifies this
      ensures this.points == points && winner == old(winner)
    {
      this.points := points;
    }

    method SetWinner(topPlayer: Player?)
      modifies this
      ensures winner == topPlayer && points == old(points)
    {
      winner := topPlayer;
    }

    /**
     * Ranks by points, highest first: 1 when this score ranks after `other`,
     * -1 when it ranks before, 0 on equal points.
     */
    function CompareTo(other: Score): (r: int)
      reads this, other
      ensures r == 1 <==> points < other.points
      ensures r == -1 <==> points > other.points
      ensures r == 0 <==> points == other.points
    {
      if points < other.points then 1
      else if points > other.points then -1
      else 0
    }
  }

  lemma CompareAntisymmetric(a: Score, b: Score)
    ensures a.CompareTo(b) == -b.CompareTo(a)
  {
  }

  lemma CompareTransitive(a: Score, b: Score, c: Score)
    requires a.CompareTo(b) <= 0 && b.CompareTo(c) <= 0
    ensures a.CompareTo(c) <= 0
  {
  }

  /** Every score ranks no later than the one after it. */
  ghost predicate Ranked(s: seq<Score>)
    reads s
  {
    forall i :: 0 <= i < |s| - 1 ==> s[i].CompareTo(s[i + 1]) <= 0
  }

  /** A table ranked by CompareTo lists the highest score first. */
  lemma {:induction false} RankedHighestFirst(s: seq<Score>)
    requires |s| > 0 && Ranked(s)
    ensures forall k :: 0 <= k < |s| ==> s[k].points <= s[0].points
  {
    if |s| > 1 {
      RankedHighestFirst(s[1..]);
      assert s[0].CompareTo(s[1]) <= 0;
      forall k | 1 <= k < |s|
        ensures s[k].points <= s[0].points
      {
        assert s[k] == s[1..][k - 1];
      }
    }
  }
}
