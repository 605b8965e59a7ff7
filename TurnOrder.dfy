/**
 * Facts about the player roster that do not depend on the heap: how many
 * players are eliminated, and which index the engine's round-robin scan
 * selects next.  A roster of `n` contestants has `n + 1` slots; slot 0 holds
 * the Beatstarter, slots 1..n the contestants.  `out[i]` says whether the
 * player in slot i is eliminated.
 */
module TurnOrder {

  /** Number of eliminated players in a roster. */
  function CountOut(out: seq<bool>): (r: nat)
    ensures r <= |out|
  {
    if out == [] then 0 else (if out[0] then 1 else 0) + CountOut(out[1..])
  }

  /** The count is zero exactly when nobody is eliminated. */
  lemma {:induction false} CountOutNone(out: seq<bool>)
    ensures CountOut(out) == 0 <==> forall i :: 0 <= i < |out| ==> !out[i]
  {
    if out != [] {
      CountOutNone(out[1..]);
      assert forall i :: 1 <= i < |out| ==> out[i] == out[1..][i - 1];
    }
  }

  /** The count reaches the roster size exactly when everybody is eliminated. */
  lemma {:induction false} CountOutAll(out: seq<bool>)
    ensures CountOut(out) == |out| <==> forall i :: 0 <= i < |out| ==> out[i]
  {
    if out != [] {
      CountOutAll(out[1..]);
      assert forall i :: 1 <= i < |out| ==> out[i] == out[1..][i - 1];
    }
  }

  /** Eliminating one more player raises the count by exactly one. */
  lemma {:induction false} CountOutMark(out: seq<bool>, c: nat)
    requires c < |out| && !out[c]
    ensures CountOut(out[c := true]) == CountOut(out) + 1
  {
    if c == 0 {
      assert out[c := true][1..] == out[1..];
    } else {
      assert out[c := true][1..] == out[1..][c - 1 := true];
      CountOutMark(out[1..], c - 1);
    }
  }

  /** Marking a slot out raises the count by one, or not at all if it already was. */
  lemma CountOutSet(out: seq<bool>, c: nat)
    requires c < |out|
    ensures CountOut(out[c := true]) == CountOut(out) + (if out[c] then 0 else 1)
  {
    if out[c] {
      assert out[c := true] == out;
    } else {
      CountOutMark(out, c);
    }
  }

  /**
   * Fewer eliminations than contestants leave some contestant (a slot other
   * than 0) still in the game.
   */
  lemma ContestantStillIn(out: seq<bool>)
    requires |out| >= 2 && CountOut(out) < |out| - 1
    ensures exists k :: 1 <= k < |out| && !out[k]
  {
    var rest := out[1..];
    assert CountOut(rest) < |rest|;
    CountOutAll(rest);
    var i :| 0 <= i < |rest| && !rest[i];
    assert !out[i + 1];
  }

  /**
   * The slot the turn scan moves to from slot `c` in a roster of `n`
   * contestants: the sentinel -1 moves to slot 0 (the Beatstarter), every
   * other slot to the next contestant, wrapping from n to 1.
   */
  function Succ(c: int, n: int): (r: int)
    requires n >= 2 && -1 <= c <= n
    ensures 0 <= r <= n
    ensures r == 0 <==> c == -1
  {
    if c == -1 then 0 else if c < n then c + 1 else 1
  }

  /** The remainder of Java's `%` on int: truncated division, sign of the dividend. */
  function JavaRem(a: int, b: int): (r: int)
    requires b > 0
  {
    if a >= 0 then a % b else -((-a) % b)
  }

  /**
   * The engine computes the next slot as `(c % n) + 1` with Java's `%`;
   * that is Succ on every slot the engine can hold.  Because Java's `%`
   * keeps the sign of the dividend, `-1 % n` is -1 and the sentinel reaches
   * slot 0.
   */
  lemma SuccIsJavaExpression(c: int, n: int)
    requires n >= 2 && -1 <= c <= n
    ensures Succ(c, n) == JavaRem(c, n) + 1
  {
    if c == -1 {
      assert 1 % n == 1;
    } else if c < n {
      assert c % n == c;
    } else {
      assert n % n == 0;
    }
  }

  /**
   * A scan starting after slot `a` passes slot `k` before reaching slot `b`.
   * From the sentinel -1 the scan visits 0, 1, 2, ...; from any real slot it
   * visits a + 1, ..., n, 1, 2, ... and never slot 0.
   */
  predicate Skipped(a: int, k: int, b: int)
  {
    if a < b then a < k < b else a < k || 1 <= k < b
  }

  /**
   * `b` is the slot the turn scan selects after slot `a`: the player is still
   * in, every slot passed on the way is eliminated, and slot 0 is selected
   * only from the sentinel.
   */
  predicate IsNext(out: seq<bool>, a: int, b: int)
  {
    && 0 <= b < |out| && !out[b]
    && (b == 0 ==> a == -1)
    && forall k :: 0 <= k < |out| && Skipped(a, k, b) ==> out[k]
  }

  /** The scan's choice is determined by the roster and the previous slot. */
  lemma IsNextUnique(out: seq<bool>, a: int, b1: int, b2: int)
    requires -1 <= a < |out|
    requires IsNext(out, a, b1) && IsNext(out, a, b2)
    ensures b1 == b2
  {
  }

  /** The first scan of a game, from the sentinel, selects the Beatstarter. */
  lemma FirstTurnIsBeatstarter(out: seq<bool>, b: int)
    requires |out| >= 1 && !out[0] && IsNext(out, -1, b)
    ensures b == 0
  {
  }

  /**
   * One step of the scan: moving past an eliminated slot `b` adds exactly `b`
   * to the passed slots, as long as the scan has not yet reached `j`, a
   * contestant still in.
   */
  lemma SkipStep(out: seq<bool>, a: int, b: int, j: int)
    requires |out| >= 3 && -1 <= a < |out| && 0 <= b < |out|
    requires 1 <= j < |out| && !out[j] && out[b]
    requires b == 0 ==> a == -1
    requires forall k :: 0 <= k < |out| && Skipped(a, k, b) ==> out[k]
    ensures forall k :: 0 <= k < |out| && Skipped(a, k, Succ(b, |out| - 1)) ==> out[k]
  {
    assert !Skipped(a, j, b);
  }

  /**
   * Exactly the contestants in slots 1..p are eliminated: the shape of the
   * roster while every turn so far has ended in an elimination.
   */
  predicate OutUpTo(out: seq<bool>, p: int)
  {
    forall i :: 1 <= i < |out| ==> (out[i] <==> i <= p)
  }

  /** Eliminating contestant p + 1 extends the eliminated prefix by one slot. */
  lemma OutUpToMark(out: seq<bool>, p: nat)
    requires p + 1 < |out| && OutUpTo(out, p)
    ensures OutUpTo(out[p + 1 := true], p + 1)
  {
  }

  /** With slots 1..p eliminated, the scan after slot p selects slot p + 1. */
  lemma {:induction false} NextAfterPrefix(out: seq<bool>, p: nat, b: int)
    requires p + 1 < |out| && OutUpTo(out, p) && IsNext(out, p, b)
    ensures b == p + 1
  {
    if b != p + 1 {
      assert Skipped(p, p + 1, b);
    }
  }

  /** With slots 1..n-1 of n contestants eliminated, slot n holds the only contestant still in. */
  lemma LastContestant(out: seq<bool>, n: nat)
    requires |out| == n + 1 && n >= 1 && OutUpTo(out, n - 1)
    ensures !out[n] && forall i :: 1 <= i < n ==> out[i]
    ensures forall k :: 1 <= k <= n && !out[k] ==> k == n
  {
  }

  /**
   * Every contestant the turn has passed since it left slot `w`, on its way
   * to slot `c`, is out.  With `c == w` that is a full round: everybody but
   * the player in slot `w`.
   */
  predicate OutSince(out: seq<bool>, w: int, c: int)
  {
    forall k :: 1 <= k < |out| && k != w && Skipped(w, k, c) ==> out[k]
  }

  /**
   * The turn moves on from an eliminated player `c` to `b`: if everybody
   * passed between `w`, who is still in, and `c` was out, then so is
   * everybody passed between `w` and `b`, since the scan stops at `w` at the latest.
   */
  lemma OutSinceStep(out: seq<bool>, w: int, c: int, b: int)
    requires 1 <= w < |out| && 1 <= c < |out| && c != w && !out[w] && out[c]
    requires OutSince(out, w, c) && IsNext(out, c, b)
    ensures OutSince(out, w, b)
  {
    assert !Skipped(c, w, b);
    forall k | 1 <= k < |out| && k != w && Skipped(w, k, b)
      ensures out[k]
    {
      assert Skipped(w, k, c) || k == c || Skipped(c, k, b);
    }
  }

  /** If every slot but `w` is out, the count misses at most one slot. */
  lemma {:induction false} CountOutAllBut(out: seq<bool>, w: int)
    requires forall k :: 0 <= k < |out| && k != w ==> out[k]
    ensures CountOut(out) + 1 >= |out|
  {
    if out != [] {
      assert forall k :: 0 <= k < |out| - 1 ==> out[1..][k] == out[k + 1];
      if w == 0 {
        CountOutAll(out[1..]);
      } else {
        CountOutAllBut(out[1..], w - 1);
      }
    }
  }

  /** A full round since slot `w` leaves at most slots 0 and `w` in. */
  lemma FullRoundCount(out: seq<bool>, w: int)
    requires 1 <= w < |out| && OutSince(out, w, w)
    ensures CountOut(out) + 2 >= |out|
  {
    var rest := out[1..];
    forall k | 0 <= k < |rest| && k != w - 1
      ensures rest[k]
    {
      assert Skipped(w, k + 1, w);
    }
    CountOutAllBut(rest, w - 1);
  }

  /**
   * Players still in are not counted: `idx` lists, in increasing order,
   * slots that are in, and the count leaves room for all of them.
   */
  lemma {:induction false} CountOutSpares(out: seq<bool>, idx: seq<int>)
    requires forall a :: 0 <= a < |idx| ==> 0 <= idx[a] < |out| && !out[idx[a]]
    requires forall a, b :: 0 <= a < b < |idx| ==> idx[a] < idx[b]
    ensures CountOut(out) + |idx| <= |out|
    decreases |out|
  {
    if out == [] {
    } else if |idx| > 0 && idx[0] == 0 {
      var rest := seq(|idx| - 1, a requires 0 <= a < |idx| - 1 => idx[a + 1] - 1);
      assert forall a :: 0 <= a < |rest| ==> idx[0] < idx[a + 1] == rest[a] + 1;
      CountOutSpares(out[1..], rest);
    } else {
      var rest := seq(|idx|, a requires 0 <= a < |idx| => idx[a] - 1);
      assert forall a :: 0 <= a < |rest| ==> idx[0] <= idx[a] == rest[a] + 1;
      CountOutSpares(out[1..], rest);
    }
  }

  /** How many steps the scan from slot `c` needs to reach slot `j`. */
  function ScanDistance(c: int, j: int, n: int): (r: nat)
    requires 0 <= c <= n && 1 <= j <= n
  {
    if c <= j then j - c else j - c + n
  }

  /** Each step of the scan brings it closer to a contestant still in. */
  lemma ScanAdvances(c: int, j: int, n: int)
    requires n >= 2 && 0 <= c <= n && 1 <= j <= n && c != j
    ensures ScanDistance(Succ(c, n), j, n) < ScanDistance(c, j, n)
  {
  }

  /**
   * The slot a scan from `c` stops at: the first slot still in, looking at
   * no more than `fuel` slots after `c`.  The engine's loop has no such
   * bound; ScanReaches shows that n + 1 steps always suffice while a
   * contestant is in.
   */
  function ScanFrom(out: seq<bool>, c: int, n: int, fuel: nat): (r: int)
    requires n >= 2 && |out| == n + 1 && 0 <= c <= n
    ensures 0 <= r <= n
    decreases fuel
  {
    if fuel == 0 || !out[c] then c else ScanFrom(out, Succ(c, n), n, fuel - 1)
  }

  /** The slot nextPlayer selects after slot `a` (the sentinel -1 before the first turn). */
  function NextSlot(out: seq<bool>, a: int, n: int): (r: int)
    requires n >= 2 && |out| == n + 1 && -1 <= a <= n
    ensures 0 <= r <= n
  {
    ScanFrom(out, Succ(a, n), n, n + 1)
  }

  /**
   * A scan that has only passed eliminated slots, with enough steps left to
   * reach the contestant `j` who is still in, stops at the slot IsNext
   * describes.
   */
  lemma {:induction false} ScanReaches(out: seq<bool>, a: int, c: int, n: int, fuel: nat, j: int)
    requires n >= 2 && |out| == n + 1 && -1 <= a <= n && 0 <= c <= n
    requires 1 <= j <= n && !out[j] && ScanDistance(c, j, n) < fuel
    requires c == 0 ==> a == -1
    requires forall k :: 0 <= k < |out| && Skipped(a, k, c) ==> out[k]
    ensures IsNext(out, a, ScanFrom(out, c, n, fuel))
    decreases fuel
  {
    if out[c] {
      SkipStep(out, a, c, j);
      ScanAdvances(c, j, n);
      ScanReaches(out, a, Succ(c, n), n, fuel - 1, j);
    }
  }

  /** While some contestant is in, NextSlot is the slot the turn scan selects. */
  lemma NextSlotIsNext(out: seq<bool>, a: int, n: int)
    requires n >= 2 && |out| == n + 1 && -1 <= a <= n && CountOut(out) < n
    ensures IsNext(out, a, NextSlot(out, a, n))
  {
    ContestantStillIn(out);
    var j :| 1 <= j < |out| && !out[j];
    ScanReaches(out, a, Succ(a, n), n, n + 1, j);
  }
}
