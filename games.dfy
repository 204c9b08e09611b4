/** The values the analysis script passes around: a game as read from the PGN
    corpus (its two relevant header fields and, standing for its moves, what
    the engine reports after each half-move), the engine's score and the three
    time-control buckets. */
module Games {

  datatype Option<+T> = None | Some(value: T)

  /** The engine's score of one position, relative to the side to move:
      either a forced mate or a centipawn value. */
  datatype Score = Mate | Cp(cp: int)

  /** One game from the PGN file. A header the file does not carry is `None`.
      `evals[k]` is the engine's score of the position after half-move `k + 1`;
      the moves themselves and the engine that scores them are not modelled. */
  datatype Game = Game(timeControl: Option<string>, result: Option<string>, evals: seq<Score>)

  /** The three buckets, in the order the script's dictionaries list them. */
  datatype Category = Bullet | Blitz | Classical

  const CategoryOrder: seq<Category> := [Bullet, Blitz, Classical]

  /** The TimeControl header, defaulting to the literal "classical" when absent. */
  function TimeControlHeader(g: Game): (tc: string)
    ensures g.timeControl.Some? ==> tc == g.timeControl.value
    ensures g.timeControl.None? ==> tc == "classical"
  {
    match g.timeControl
    case Some(tc) => tc
    case None => "classical"
  }

  /** The Result header, defaulting to "*" (unknown result) when absent. */
  function ResultHeader(g: Game): (r: string)
    ensures g.result.Some? ==> r == g.result.value
    ensures g.result.None? ==> r == "*"
  {
    match g.result
    case Some(r) => r
    case None => "*"
  }

  /** The Result header of every game, in order. */
  function ResultsOf(gs: seq<Game>): seq<string>
  {
    seq(|gs|, i requires 0 <= i < |gs| => ResultHeader(gs[i]))
  }

  lemma {:induction false} ResultsOfAppend(xs: seq<Game>, ys: seq<Game>)
    ensures ResultsOf(xs + ys) == ResultsOf(xs) + ResultsOf(ys)
  {
  }
}
