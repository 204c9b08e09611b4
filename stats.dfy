/** `calculate_stats` of script.py: the win rate, draw rate and mean blunder
    count of a set of result rows, with exact rationals in place of floats. */
module Stats {
  import opened Games

  /** One row of the script's table: the time-control label, the Result header
      and the blunder count placed in that row. */
  datatype Row = Row(timeControl: Category, result: string, blunders: nat)

  /** The outcome of `calculate_stats`. `blunderAvg` is `None` where the
      floating-point mean of an empty column is NaN. */
  datatype Summary = Summary(winRate: real, drawRate: real, blunderAvg: Option<real>)

  /** A decisive game: either side won. */
  predicate IsDecisive(result: string)
  {
    result == "1-0" || result == "0-1"
  }

  predicate IsDraw(result: string)
  {
    result == "1/2-1/2"
  }

  /** The label column of a table. */
  function LabelColumn(rows: seq<Row>): seq<Category>
  {
    seq(|rows|, i requires 0 <= i < |rows| => rows[i].timeControl)
  }

  /** The result column of a table. */
  function ResultColumn(rows: seq<Row>): seq<string>
  {
    seq(|rows|, i requires 0 <= i < |rows| => rows[i].result)
  }

  /** The blunder column of a table. */
  function BlunderColumn(rows: seq<Row>): seq<nat>
  {
    seq(|rows|, i requires 0 <= i < |rows| => rows[i].blunders)
  }

  /** The rows labelled `c`, in order. */
  function Subset(rows: seq<Row>, c: Category): (sub: seq<Row>)
    ensures |sub| <= |rows|
  {
    if rows == [] then []
    else Subset(rows[..|rows| - 1], c) + (if rows[|rows| - 1].timeControl == c then [rows[|rows| - 1]] else [])
  }

  /** Selecting label `c` keeps exactly the rows labelled `c`: each selected
      row is a row of the table with that label, and each such row is selected. */
  lemma {:induction false} SubsetSpec(rows: seq<Row>, c: Category)
    ensures forall r :: r in Subset(rows, c) ==> r in rows && r.timeControl == c
    ensures forall r :: r in rows && r.timeControl == c ==> r in Subset(rows, c)
    decreases |rows|
  {
    if rows != [] {
      var init, last := rows[..|rows| - 1], rows[|rows| - 1];
      SubsetSpec(init, c);
      assert rows == init + [last];
    }
  }

  /** There are as many selected rows as `c` occurs in the label column. */
  lemma {:induction false} SubsetCount(rows: seq<Row>, c: Category)
    ensures |Subset(rows, c)| == multiset(LabelColumn(rows))[c]
    decreases |rows|
  {
    if rows != [] {
      var init, last := rows[..|rows| - 1], rows[|rows| - 1];
      SubsetCount(init, c);
      assert LabelColumn(rows) == LabelColumn(init) + [last.timeControl];
    }
  }

  /** The number of decisive rows. */
  function Wins(rows: seq<Row>): (w: nat)
  {
    if rows == [] then 0
    else Wins(rows[..|rows| - 1]) + (if IsDecisive(rows[|rows| - 1].result) then 1 else 0)
  }

  /** The number of drawn rows. */
  function Draws(rows: seq<Row>): (d: nat)
  {
    if rows == [] then 0
    else Draws(rows[..|rows| - 1]) + (if IsDraw(rows[|rows| - 1].result) then 1 else 0)
  }

  /** The wins are how often "1-0" and "0-1" occur in the result column, and
      the draws how often "1/2-1/2" does. */
  lemma {:induction false} ResultCounts(rows: seq<Row>)
    ensures Wins(rows) == multiset(ResultColumn(rows))["1-0"] + multiset(ResultColumn(rows))["0-1"]
    ensures Draws(rows) == multiset(ResultColumn(rows))["1/2-1/2"]
    decreases |rows|
  {
    if rows != [] {
      var init, last := rows[..|rows| - 1], rows[|rows| - 1];
      ResultCounts(init);
      assert ResultColumn(rows) == ResultColumn(init) + [last.result];
    }
  }

  /** The sum of the blunder column. */
  function BlunderTotal(rows: seq<Row>): nat
  {
    if rows == [] then 0
    else BlunderTotal(rows[..|rows| - 1]) + rows[|rows| - 1].blunders
  }

  /** No row is both decisive and drawn, so wins and draws together never
      exceed the number of rows. */
  lemma {:induction false} WinsAndDrawsWithinTotal(rows: seq<Row>)
    ensures Wins(rows) + Draws(rows) <= |rows|
    decreases |rows|
  {
    if rows != [] {
      WinsAndDrawsWithinTotal(rows[..|rows| - 1]);
    }
  }

  /** `count / total * 100`, or 0 for an empty total. */
  function Rate(count: nat, total: nat): (r: real)
    ensures total == 0 ==> r == 0.0
    ensures total > 0 ==> 0.0 <= r && r * (total as real) == 100.0 * (count as real)
  {
    if total > 0 then
      var t := total as real;
      var q := count as real / t;
      assert q * t == count as real;
      assert q * 100.0 * t == q * t * 100.0;
      q * 100.0
    else 0.0
  }

  /** The mean of the blunder column, or `None` (NaN) for no rows. */
  function MeanBlunders(rows: seq<Row>): (m: Option<real>)
    ensures m.Some? <==> |rows| > 0
    ensures m.Some? ==> 0.0 <= m.value && m.value * (|rows| as real) == BlunderTotal(rows) as real
  {
    if |rows| > 0 then
      var q := BlunderTotal(rows) as real / |rows| as real;
      assert q * (|rows| as real) == BlunderTotal(rows) as real;
      Some(q)
    else None
  }

  /** `calculate_stats` on one subset of rows: the win and draw rates are the
      percentages of decisive and drawn rows, and the mean is that of the
      blunder column. An empty subset gives rates of 0 and no mean. */
  function CalculateStats(subset: seq<Row>): (s: Summary)
    ensures |subset| == 0 ==> s == Summary(0.0, 0.0, None)
    ensures |subset| > 0 ==> s.winRate * (|subset| as real) == 100.0 * (Wins(subset) as real)
    ensures |subset| > 0 ==> s.drawRate * (|subset| as real) == 100.0 * (Draws(subset) as real)
    ensures s.blunderAvg == MeanBlunders(subset)
  {
    var total := |subset|;
    Summary(Rate(Wins(subset), total), Rate(Draws(subset), total), MeanBlunders(subset))
  }

  /** The two rates are non-negative and add up to at most 100, because no
      result is both decisive and a draw. */
  lemma {:induction false} StatsBounded(subset: seq<Row>)
    ensures var s := CalculateStats(subset);
      0.0 <= s.winRate && 0.0 <= s.drawRate && s.winRate + s.drawRate <= 100.0
  {
    WinsAndDrawsWithinTotal(subset);
    RateSum(Wins(subset), Draws(subset), |subset|);
  }

  /** The rates of two disjoint counts of one total add up to at most 100. */
  lemma {:induction false} RateSum(wins: nat, draws: nat, total: nat)
    requires wins + draws <= total
    ensures Rate(wins, total) + Rate(draws, total) <= 100.0
  {
    if total > 0 {
      RatesWithinHundred(wins, draws, total, Rate(wins, total), Rate(draws, total));
    }
  }

  /** Two percentages of one total whose counts add up to at most the total add
      up to at most 100. */
  lemma {:induction false} RatesWithinHundred(wins: nat, draws: nat, total: nat, winRate: real, drawRate: real)
    requires wins + draws <= total
    requires total > 0
    requires winRate * (total as real) == 100.0 * (wins as real)
    requires drawRate * (total as real) == 100.0 * (draws as real)
    ensures winRate + drawRate <= 100.0
  {
    var t := total as real;
    var excess := winRate + drawRate - 100.0;
    assert excess * t == 100.0 * ((wins + draws) as real) - 100.0 * t;
    assert excess * t <= 0.0;
  }

  /** The statistics of each bucket, in the order the script reports them;
      each bucket's summary is computed from the rows with its label alone. */
  function Report(rows: seq<Row>): (report: seq<(Category, Summary)>)
    ensures |report| == |CategoryOrder|
    ensures forall i :: 0 <= i < |report| ==>
      report[i].0 == CategoryOrder[i] && report[i].1 == CalculateStats(Subset(rows, report[i].0))
  {
    seq(|CategoryOrder|, i requires 0 <= i < |CategoryOrder| =>
      (CategoryOrder[i], CalculateStats(Subset(rows, CategoryOrder[i]))))
  }
}
