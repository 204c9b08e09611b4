/** `analyze_blunders`: replay a game half-move by half-move, ask the engine
    for the score of every position from the 20th half-move on, and count the
    positions whose score is not a mate and is more than 200 centipawns away
    from zero. The engine's answers are given as the game's `evals`. */
module BlunderAnalysis {
  import opened Games

  /** Half-moves numbered below this are not evaluated. */
  const FirstEvaluatedPly: nat := 20
  /** A score counts as a blunder when its magnitude exceeds this many centipawns. */
  const BlunderThreshold: nat := 200

  function Abs(x: int): nat
  {
    if x < 0 then -x else x
  }

  /** The position after half-move `ply` (numbered from 1) with engine score
      `s` counts as a blunder. */
  predicate IsBlunder(ply: int, s: Score)
  {
    ply >= FirstEvaluatedPly && s.Cp? && Abs(s.cp) > BlunderThreshold
  }

  /** The number of blunders in a game whose positions score `evals`. */
  function Blunders(evals: seq<Score>): nat
  {
    if evals == [] then 0
    else Blunders(evals[..|evals| - 1]) + (if IsBlunder(|evals|, evals[|evals| - 1]) then 1 else 0)
  }

  /** The indices of `evals` whose positions count as blunders. */
  ghost function BlunderPlies(evals: seq<Score>): set<nat>
  {
    set k: nat | k < |evals| && IsBlunder(k + 1, evals[k])
  }

  /** The loop of `analyze_blunders`, with `evals[k]` standing for the engine's
      relative score after half-move `k + 1`. */
  method AnalyzeBlunders(evals: seq<Score>) returns (blunders: nat)
    ensures blunders == Blunders(evals)
    ensures blunders == |BlunderPlies(evals)|
  {
    blunders := 0;
    var moveNum := 0;
    for k := 0 to |evals|
      invariant moveNum == k
      invariant blunders == Blunders(evals[..k])
    {
      assert evals[..k + 1][..k] == evals[..k];
      moveNum := moveNum + 1;
      if moveNum < FirstEvaluatedPly {
        continue;
      }
      var score := evals[k];
      if score.Mate? {
        continue;
      }
      if Abs(score.cp) > BlunderThreshold {
        blunders := blunders + 1;
      }
    }
    assert evals[..|evals|] == evals;
    BlundersCountPlies(evals);
  }

  /** The recursive count is the number of blunder positions. */
  lemma {:induction false} BlundersCountPlies(evals: seq<Score>)
    ensures Blunders(evals) == |BlunderPlies(evals)|
    decreases |evals|
  {
    if evals != [] {
      var n := |evals|;
      var p := evals[..n - 1];
      BlundersCountPlies(p);
      if IsBlunder(n, evals[n - 1]) {
        assert BlunderPlies(evals) == BlunderPlies(p) + {n - 1};
      } else {
        assert BlunderPlies(evals) == BlunderPlies(p);
      }
    } else {
      assert BlunderPlies(evals) == {};
    }
  }

  /** A game of fewer than 20 half-moves has no blunders, whatever the engine says. */
  lemma {:induction false} ShortGameHasNoBlunders(evals: seq<Score>)
    requires |evals| < FirstEvaluatedPly
    ensures Blunders(evals) == 0
    decreases |evals|
  {
    if evals != [] {
      ShortGameHasNoBlunders(evals[..|evals| - 1]);
    }
  }

  /** Only half-moves 20 to n can count, so a game of n half-moves has at most
      n - 19 blunders. */
  lemma {:induction false} BlundersBounded(evals: seq<Score>)
    ensures Blunders(evals) <= if |evals| < FirstEvaluatedPly then 0 else |evals| - (FirstEvaluatedPly - 1)
    decreases |evals|
  {
    if evals != [] {
      BlundersBounded(evals[..|evals| - 1]);
    }
  }

  /** Mate scores never count: replacing any score by a mate removes exactly
      that position from the blunders, if it was one. */
  lemma {:induction false} MateIsNeverCounted(evals: seq<Score>, k: nat)
    requires k < |evals|
    ensures BlunderPlies(evals[k := Mate]) == BlunderPlies(evals) - {k}
    ensures Blunders(evals[k := Mate]) == Blunders(evals) - (if IsBlunder(k + 1, evals[k]) then 1 else 0)
  {
    var e := evals[k := Mate];
    assert BlunderPlies(e) == BlunderPlies(evals) - {k};
    BlundersCountPlies(evals);
    BlundersCountPlies(e);
  }

  /** The threshold is strict: a score of exactly 200 centipawns either way is
      not a blunder, 201 is. */
  lemma {:induction false} ThresholdIsStrict(ply: int)
    requires ply >= FirstEvaluatedPly
    ensures !IsBlunder(ply, Cp(200)) && !IsBlunder(ply, Cp(-200))
    ensures IsBlunder(ply, Cp(201)) && IsBlunder(ply, Cp(-201))
  {
  }

  /** When every position gets the same score, a blunder score is counted once
      per half-move from the 20th on (the bound above is reached), any other score never. */
  lemma {:induction false} UniformScores(n: nat, s: Score)
    ensures Blunders(seq(n, _ => s)) ==
      if IsBlunder(FirstEvaluatedPly, s) && n >= FirstEvaluatedPly then n - (FirstEvaluatedPly - 1) else 0
  {
    if n > 0 {
      UniformScores(n - 1, s);
      assert seq(n, _ => s)[..n - 1] == seq(n - 1, _ => s);
    }
  }
}
