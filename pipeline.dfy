/** The body of `main` in script.py: the parsed buckets are flattened into one
    list with a parallel list of labels, every game is analysed for blunders,
    and the three columns become the rows the statistics are computed from. */
module Pipeline {
  import opened Games
  import opened Classification
  import opened Categorizer
  import opened BlunderAnalysis
  import opened Stats

  /** `[c] * n`. */
  function Repeat(c: Category, n: nat): (r: seq<Category>)
    ensures |r| == n
    ensures forall i :: 0 <= i < n ==> r[i] == c
  {
    seq(n, _ => c)
  }

  /** The first `k` bucket lists of `games`, in report order, end to end. */
  function Layout(games: map<Category, seq<Game>>, k: nat): seq<Game>
    requires k <= |CategoryOrder|
    requires forall c: Category :: c in games
  {
    if k == 0 then [] else Layout(games, k - 1) + games[CategoryOrder[k - 1]]
  }

  /** The labels that go with `Layout(games, k)`. */
  function LabelLayout(games: map<Category, seq<Game>>, k: nat): seq<Category>
    requires k <= |CategoryOrder|
    requires forall c: Category :: c in games
  {
    if k == 0 then [] else LabelLayout(games, k - 1) + Repeat(CategoryOrder[k - 1], |games[CategoryOrder[k - 1]]|)
  }

  /** The flattening loop of `main`: each bucket's list is appended to `flat`
      and as many copies of its label to `labels`, bullet first, then blitz,
      then classical. */
  method Flatten(games: map<Category, seq<Game>>) returns (flat: seq<Game>, labels: seq<Category>)
    requires forall c: Category :: c in games
    ensures flat == games[Bullet] + games[Blitz] + games[Classical]
    ensures labels == Repeat(Bullet, |games[Bullet]|) + Repeat(Blitz, |games[Blitz]|) + Repeat(Classical, |games[Classical]|)
    ensures |flat| == |labels|
  {
    flat, labels := [], [];
    for k := 0 to |CategoryOrder|
      invariant flat == Layout(games, k)
      invariant labels == LabelLayout(games, k)
    {
      var c := CategoryOrder[k];
      flat := flat + games[c];
      labels := labels + Repeat(c, |games[c]|);
    }
    assert Layout(games, 1) == games[Bullet] && LabelLayout(games, 1) == Repeat(Bullet, |games[Bullet]|);
    assert Layout(games, 2) == games[Bullet] + games[Blitz];
  }

  /** The blunder count of every game, in order. */
  function BlunderCounts(gs: seq<Game>): (counts: seq<nat>)
  {
    seq(|gs|, i requires 0 <= i < |gs| => Blunders(gs[i].evals))
  }

  /** The parallel map over the flattened games, done one game at a time: the
      map hands back the counts in the order of its input. */
  method AnalyzeAll(gs: seq<Game>) returns (counts: seq<nat>)
    ensures |counts| == |gs|
    ensures forall i :: 0 <= i < |gs| ==> counts[i] == Blunders(gs[i].evals)
    ensures counts == BlunderCounts(gs)
  {
    counts := [];
    for i := 0 to |gs|
      invariant |counts| == i
      invariant forall j :: 0 <= j < i ==> counts[j] == Blunders(gs[j].evals)
    {
      var b := AnalyzeBlunders(gs[i].evals);
      counts := counts + [b];
    }
  }

  /** The table built from three columns of one length: its columns are
      exactly the three given ones. */
  function Zip(labels: seq<Category>, results: seq<string>, counts: seq<nat>): (rows: seq<Row>)
    requires |labels| == |results| == |counts|
    ensures LabelColumn(rows) == labels
    ensures ResultColumn(rows) == results
    ensures BlunderColumn(rows) == counts
  {
    seq(|labels|, i requires 0 <= i < |labels| => Row(labels[i], results[i], counts[i]))
  }

  /** Any table is rebuilt from its own three columns. */
  lemma {:induction false} ZipColumns(rows: seq<Row>)
    ensures Zip(LabelColumn(rows), ResultColumn(rows), BlunderColumn(rows)) == rows
  {
  }

  lemma {:induction false} ZipConcat(l1: seq<Category>, r1: seq<string>, c1: seq<nat>, l2: seq<Category>, r2: seq<string>, c2: seq<nat>)
    requires |l1| == |r1| == |c1| && |l2| == |r2| == |c2|
    ensures Zip(l1 + l2, r1 + r2, c1 + c2) == Zip(l1, r1, c1) + Zip(l2, r2, c2)
  {
  }

  /** The accepted games of bucket `c`. */
  function Accepted(source: seq<Game>, cap: nat, c: Category): seq<Game>
  {
    Take(Bucket(source, c), cap)
  }

  /** What the flattening produces from a parsed source. */
  function Grouped(source: seq<Game>, cap: nat): seq<Game>
  {
    Accepted(source, cap, Bullet) + Accepted(source, cap, Blitz) + Accepted(source, cap, Classical)
  }

  /** The labels of a bullet block `a`, a blitz block `b` and a classical
      block `d` laid end to end. */
  function BlockLabels(a: seq<Game>, b: seq<Game>, d: seq<Game>): seq<Category>
  {
    Repeat(Bullet, |a|) + Repeat(Blitz, |b|) + Repeat(Classical, |d|)
  }

  /** The labels the flattening produces from a parsed source. */
  function GroupedLabels(source: seq<Game>, cap: nat): seq<Category>
  {
    BlockLabels(Accepted(source, cap, Bullet), Accepted(source, cap, Blitz), Accepted(source, cap, Classical))
  }

  /** Where the block of bucket `c` starts in `Grouped(source, cap)`. */
  function Offset(source: seq<Game>, cap: nat, c: Category): nat
  {
    Start(Accepted(source, cap, Bullet), Accepted(source, cap, Blitz), c)
  }

  /** As many results were recorded as games were grouped, so the three columns
      of the table always have one length. */
  lemma {:induction false} AdmittedCount(source: seq<Game>, cap: nat)
    ensures |ResultsOf(Admit(source, cap))| == |Grouped(source, cap)| == |GroupedLabels(source, cap)|
  {
    BucketPartition(Admit(source, cap));
    AdmitBucket(source, cap, Bullet);
    AdmitBucket(source, cap, Blitz);
    AdmitBucket(source, cap, Classical);
  }

  /** The table as the script builds it: the results column keeps the order in
      which games arrived, while the other two columns follow the buckets. */
  function RowsAsWritten(source: seq<Game>, cap: nat): seq<Row>
  {
    AdmittedCount(source, cap);
    Zip(GroupedLabels(source, cap), ResultsOf(Admit(source, cap)), BlunderCounts(Grouped(source, cap)))
  }

  /** The table with each row's result taken from that row's own game. */
  function PairedRows(source: seq<Game>, cap: nat): seq<Row>
  {
    AdmittedCount(source, cap);
    Zip(GroupedLabels(source, cap), ResultsOf(Grouped(source, cap)), BlunderCounts(Grouped(source, cap)))
  }

  /** The rows of one bucket's games, each with its own result and count. */
  function BucketRows(c: Category, gs: seq<Game>): seq<Row>
  {
    Zip(Repeat(c, |gs|), ResultsOf(gs), BlunderCounts(gs))
  }

  /** `main` up to the statistics: parse, flatten, analyse, tabulate and
      summarise each bucket. */
  method AnalyzeCorpus(source: seq<Game>, cap: nat) returns (rows: seq<Row>, report: seq<(Category, Summary)>)
    ensures rows == RowsAsWritten(source, cap)
    ensures |rows| == |Grouped(source, cap)|
    ensures report == Report(rows)
  {
    var games, results;
    ghost var consumed;
    games, results, consumed := ParsePgnGames(source, cap);
    var flat, labels := Flatten(games);
    var counts := AnalyzeAll(flat);
    AdmittedCount(source, cap);
    rows := Zip(labels, results, counts);
    report := Report(rows);
  }

  /** The table with each row's result read from the grouped games. */
  method AnalyzeCorpusPaired(source: seq<Game>, cap: nat) returns (rows: seq<Row>, report: seq<(Category, Summary)>)
    ensures rows == PairedRows(source, cap)
    ensures report == Report(rows)
  {
    var games, results;
    ghost var consumed;
    games, results, consumed := ParsePgnGames(source, cap);
    var flat, labels := Flatten(games);
    var counts := AnalyzeAll(flat);
    rows := Zip(labels, ResultsOf(flat), counts);
    report := Report(rows);
  }

  // Properties of the flattening

  /** Every game in bucket `c` has category `c`. */
  lemma {:induction false} BucketMembers(s: seq<Game>, c: Category)
    ensures forall g :: g in Bucket(s, c) ==> CategoryOf(g) == c
    decreases |s|
  {
    if s != [] {
      BucketMembers(s[..|s| - 1], c);
    }
  }

  /** Each label names the bucket its game was classified into. */
  lemma {:induction false} GroupedLabelsMatch(source: seq<Game>, cap: nat)
    ensures |GroupedLabels(source, cap)| == |Grouped(source, cap)|
    ensures forall i :: 0 <= i < |Grouped(source, cap)| ==> GroupedLabels(source, cap)[i] == CategoryOf(Grouped(source, cap)[i])
  {
    var a, b, d := Accepted(source, cap, Bullet), Accepted(source, cap, Blitz), Accepted(source, cap, Classical);
    BucketMembers(source, Bullet);
    BucketMembers(source, Blitz);
    BucketMembers(source, Classical);
    forall i | 0 <= i < |Grouped(source, cap)|
      ensures GroupedLabels(source, cap)[i] == CategoryOf(Grouped(source, cap)[i])
    {
      if i < |a| {
        assert Grouped(source, cap)[i] == a[i] && a[i] in Bucket(source, Bullet);
      } else if i < |a| + |b| {
        assert Grouped(source, cap)[i] == b[i - |a|] && b[i - |a|] in Bucket(source, Blitz);
      } else {
        assert Grouped(source, cap)[i] == d[i - |a| - |b|] && d[i - |a| - |b|] in Bucket(source, Classical);
      }
    }
  }

  // Selecting one bucket's rows

  lemma {:induction false} SubsetConcat(xs: seq<Row>, ys: seq<Row>, c: Category)
    ensures Subset(xs + ys, c) == Subset(xs, c) + Subset(ys, c)
    decreases |ys|
  {
    if ys != [] {
      var init, last := ys[..|ys| - 1], ys[|ys| - 1];
      assert xs + ys == (xs + init) + [last];
      SubsetConcat(xs, init, c);
    } else {
      assert xs + ys == xs;
    }
  }

  /** Selecting label `c` from rows that all carry it keeps them all. */
  lemma {:induction false} SubsetAll(rows: seq<Row>, c: Category)
    requires forall i :: 0 <= i < |rows| ==> rows[i].timeControl == c
    ensures Subset(rows, c) == rows
    decreases |rows|
  {
    if rows != [] {
      SubsetAll(rows[..|rows| - 1], c);
      assert rows == rows[..|rows| - 1] + [rows[|rows| - 1]];
    }
  }

  /** Selecting label `c` from rows none of which carries it keeps none. */
  lemma {:induction false} SubsetNone(rows: seq<Row>, c: Category)
    requires forall i :: 0 <= i < |rows| ==> rows[i].timeControl != c
    ensures Subset(rows, c) == []
    decreases |rows|
  {
    if rows != [] {
      SubsetNone(rows[..|rows| - 1], c);
    }
  }

  /** Selecting label `c` from a bullet block, a blitz block and a classical
      block laid end to end gives back the block labelled `c`. */
  lemma {:induction false} SubsetOfBlocks(za: seq<Row>, zb: seq<Row>, zd: seq<Row>, c: Category)
    requires forall i :: 0 <= i < |za| ==> za[i].timeControl == Bullet
    requires forall i :: 0 <= i < |zb| ==> zb[i].timeControl == Blitz
    requires forall i :: 0 <= i < |zd| ==> zd[i].timeControl == Classical
    ensures c == Bullet ==> Subset(za + zb + zd, c) == za
    ensures c == Blitz ==> Subset(za + zb + zd, c) == zb
    ensures c == Classical ==> Subset(za + zb + zd, c) == zd
  {
    SubsetConcat(za + zb, zd, c);
    SubsetConcat(za, zb, c);
    match c
    case Bullet =>
      SubsetAll(za, c);
      SubsetNone(zb, c);
      SubsetNone(zd, c);
      assert za + [] + [] == za;
    case Blitz =>
      SubsetNone(za, c);
      SubsetAll(zb, c);
      SubsetNone(zd, c);
      assert [] + zb + [] == zb;
    case Classical =>
      SubsetNone(za, c);
      SubsetNone(zb, c);
      SubsetAll(zd, c);
      assert [] + [] + zd == zd;
  }

  /** Selecting label `c` from the table over a bullet block `a`, a blitz
      block `b` and a classical block `d`, with results `ra`, `rb` and `rd`
      beside them, gives the table of the block labelled `c`. */
  lemma {:induction false} BlockSubset(a: seq<Game>, b: seq<Game>, d: seq<Game>, ra: seq<string>, rb: seq<string>, rd: seq<string>, c: Category)
    requires |ra| == |a| && |rb| == |b| && |rd| == |d|
    ensures var rows := Zip(BlockLabels(a, b, d), ra + rb + rd, BlunderCounts(a + b + d));
      (c == Bullet ==> Subset(rows, c) == Zip(Repeat(Bullet, |a|), ra, BlunderCounts(a))) &&
      (c == Blitz ==> Subset(rows, c) == Zip(Repeat(Blitz, |b|), rb, BlunderCounts(b))) &&
      (c == Classical ==> Subset(rows, c) == Zip(Repeat(Classical, |d|), rd, BlunderCounts(d)))
  {
    ThreeBlocks(a, b, d, ra, rb, rd);
    SubsetOfBlocks(Zip(Repeat(Bullet, |a|), ra, BlunderCounts(a)), Zip(Repeat(Blitz, |b|), rb, BlunderCounts(b)),
      Zip(Repeat(Classical, |d|), rd, BlunderCounts(d)), c);
  }

  /** The table over three consecutive blocks is the three blocks' tables end
      to end. */
  lemma {:induction false} ThreeBlocks(a: seq<Game>, b: seq<Game>, d: seq<Game>, ra: seq<string>, rb: seq<string>, rd: seq<string>)
    requires |ra| == |a| && |rb| == |b| && |rd| == |d|
    ensures Zip(BlockLabels(a, b, d), ra + rb + rd, BlunderCounts(a + b + d))
      == Zip(Repeat(Bullet, |a|), ra, BlunderCounts(a)) + Zip(Repeat(Blitz, |b|), rb, BlunderCounts(b))
        + Zip(Repeat(Classical, |d|), rd, BlunderCounts(d))
  {
    assert BlunderCounts(a + b + d) == BlunderCounts(a) + BlunderCounts(b) + BlunderCounts(d);
    ZipConcat(Repeat(Bullet, |a|), ra, BlunderCounts(a), Repeat(Blitz, |b|), rb, BlunderCounts(b));
    ZipConcat(Repeat(Bullet, |a|) + Repeat(Blitz, |b|), ra + rb, BlunderCounts(a) + BlunderCounts(b),
      Repeat(Classical, |d|), rd, BlunderCounts(d));
  }

  /** Whatever results column is placed beside the grouped games, the rows
      labelled `c` are exactly the block of bucket `c`: its labels, its blunder
      counts and the slice of the results column at the block's position. */
  lemma {:induction false} GroupSubset(source: seq<Game>, cap: nat, results: seq<string>, c: Category)
    requires |results| == |Grouped(source, cap)|
    ensures var n, o := |Accepted(source, cap, c)|, Offset(source, cap, c);
      o + n <= |results| &&
      Subset(Zip(GroupedLabels(source, cap), results, BlunderCounts(Grouped(source, cap))), c)
        == Zip(Repeat(c, n), results[o..o + n], BlunderCounts(Accepted(source, cap, c)))
  {
    var a, b, d := Accepted(source, cap, Bullet), Accepted(source, cap, Blitz), Accepted(source, cap, Classical);
    BlockSlice(a, b, d, results, c);
    assert Accepted(source, cap, c) == Pick(a, b, d, c) by {
      match c
      case Bullet =>
      case Blitz =>
      case Classical =>
    }
  }

  /** The block labelled `c` among a bullet block `a`, a blitz block `b` and a
      classical block `d`. */
  function Pick(a: seq<Game>, b: seq<Game>, d: seq<Game>, c: Category): seq<Game>
  {
    match c
    case Bullet => a
    case Blitz => b
    case Classical => d
  }

  /** Where the block labelled `c` starts when the blocks are laid end to end. */
  function Start(a: seq<Game>, b: seq<Game>, c: Category): nat
  {
    match c
    case Bullet => 0
    case Blitz => |a|
    case Classical => |a| + |b|
  }

  /** Selecting label `c` from the table over three blocks gives the block
      labelled `c`, with the slice of the results column beside it. */
  lemma {:induction false} BlockSlice(a: seq<Game>, b: seq<Game>, d: seq<Game>, results: seq<string>, c: Category)
    requires |results| == |a + b + d|
    ensures var block, o := Pick(a, b, d, c), Start(a, b, c);
      o + |block| <= |results| &&
      Subset(Zip(BlockLabels(a, b, d), results, BlunderCounts(a + b + d)), c)
        == Zip(Repeat(c, |block|), results[o..o + |block|], BlunderCounts(block))
  {
    var ra, rb, rd := results[..|a|], results[|a|..|a| + |b|], results[|a| + |b|..];
    SplitThree(results, |a|, |a| + |b|);
    BlockSubset(a, b, d, ra, rb, rd, c);
  }

  /** A sequence is its three slices at `i` and `j` end to end, and the slices
      are what the block offsets select. */
  lemma {:induction false} SplitThree<T>(s: seq<T>, i: nat, j: nat)
    requires i <= j <= |s|
    ensures s == s[..i] + s[i..j] + s[j..]
    ensures s[0..0 + i] == s[..i] && s[j..j + (|s| - j)] == s[j..]
  {
  }

  /** The table as written: each bucket's rows carry the right label and the
      right blunder counts, but their results are whichever results arrived at
      those positions of the arrival-order list. */
  lemma {:induction false} AsWrittenSubset(source: seq<Game>, cap: nat, c: Category)
    ensures var n, o := |Accepted(source, cap, c)|, Offset(source, cap, c);
      o + n <= |Admit(source, cap)| &&
      Subset(RowsAsWritten(source, cap), c)
        == Zip(Repeat(c, n), ResultsOf(Admit(source, cap))[o..o + n], BlunderCounts(Accepted(source, cap, c)))
  {
    AdmittedCount(source, cap);
    GroupSubset(source, cap, ResultsOf(Admit(source, cap)), c);
  }

  /** The result column is a permutation of the results of the accepted games:
      no result is lost or duplicated, only placed in another row. */
  lemma {:induction false} ResultColumnPermutes(source: seq<Game>, cap: nat)
    ensures multiset(ResultsOf(Admit(source, cap))) == multiset(ResultsOf(Grouped(source, cap)))
  {
    var s := Admit(source, cap);
    ResultsPartition(s);
    AdmitBucket(source, cap, Bullet);
    AdmitBucket(source, cap, Blitz);
    AdmitBucket(source, cap, Classical);
    ResultsOfAppend(Accepted(source, cap, Bullet), Accepted(source, cap, Blitz));
    ResultsOfAppend(Accepted(source, cap, Bullet) + Accepted(source, cap, Blitz), Accepted(source, cap, Classical));
  }

  lemma {:induction false} ResultsPartition(s: seq<Game>)
    ensures multiset(ResultsOf(s)) == multiset(ResultsOf(Bucket(s, Bullet))) + multiset(ResultsOf(Bucket(s, Blitz)))
      + multiset(ResultsOf(Bucket(s, Classical)))
    decreases |s|
  {
    if s != [] {
      var init, g := s[..|s| - 1], s[|s| - 1];
      assert s == init + [g];
      ResultsPartition(init);
      ResultsPartitionStep(init, g);
    }
  }

  lemma {:induction false} ResultsPartitionStep(init: seq<Game>, g: Game)
    requires multiset(ResultsOf(init)) == multiset(ResultsOf(Bucket(init, Bullet)))
      + multiset(ResultsOf(Bucket(init, Blitz))) + multiset(ResultsOf(Bucket(init, Classical)))
    ensures multiset(ResultsOf(init + [g])) == multiset(ResultsOf(Bucket(init + [g], Bullet)))
      + multiset(ResultsOf(Bucket(init + [g], Blitz))) + multiset(ResultsOf(Bucket(init + [g], Classical)))
  {
    ResultsOfAppend(init, [g]);
    assert ResultsOf([g]) == [ResultHeader(g)];
    BucketResultsStep(init, g, Bullet);
    BucketResultsStep(init, g, Blitz);
    BucketResultsStep(init, g, Classical);
    AddToOneBucket(multiset(ResultsOf(init)), multiset(ResultsOf(Bucket(init, Bullet))),
      multiset(ResultsOf(Bucket(init, Blitz))), multiset(ResultsOf(Bucket(init, Classical))),
      multiset(ResultsOf(Bucket(init + [g], Bullet))), multiset(ResultsOf(Bucket(init + [g], Blitz))),
      multiset(ResultsOf(Bucket(init + [g], Classical))), ResultHeader(g), CategoryOf(g));
  }

  /** Adding one element to the part labelled `k` of a three-way split adds it
      to the whole. */
  lemma {:induction false} AddToOneBucket<T>(whole: multiset<T>, b: multiset<T>, z: multiset<T>, d: multiset<T>,
      b': multiset<T>, z': multiset<T>, d': multiset<T>, x: T, k: Category)
    requires whole == b + z + d
    requires b' == b + if k == Bullet then multiset{x} else multiset{}
    requires z' == z + if k == Blitz then multiset{x} else multiset{}
    requires d' == d + if k == Classical then multiset{x} else multiset{}
    ensures whole + multiset{x} == b' + z' + d'
  {
  }

  lemma {:induction false} BucketResultsStep(init: seq<Game>, g: Game, c: Category)
    ensures multiset(ResultsOf(Bucket(init + [g], c)))
      == multiset(ResultsOf(Bucket(init, c))) + if CategoryOf(g) == c then multiset{ResultHeader(g)} else multiset{}
  {
    BucketAppend(init, g, c);
    if CategoryOf(g) == c {
      ResultsOfAppend(Bucket(init, c), [g]);
      assert ResultsOf([g]) == [ResultHeader(g)];
    } else {
      assert Bucket(init, c) + [] == Bucket(init, c);
    }
  }

  /** With results read from the grouped games, the rows labelled `c` are the
      rows of bucket `c`'s own games. */
  lemma {:induction false} PairedSubset(source: seq<Game>, cap: nat, c: Category)
    ensures Subset(PairedRows(source, cap), c) == BucketRows(c, Accepted(source, cap, c))
  {
    var a, b, d := Accepted(source, cap, Bullet), Accepted(source, cap, Blitz), Accepted(source, cap, Classical);
    ResultsOfAppend(a, b);
    ResultsOfAppend(a + b, d);
    BlockSubset(a, b, d, ResultsOf(a), ResultsOf(b), ResultsOf(d), c);
  }

  /** Each bucket's summary in the corrected table is computed from that
      bucket's games alone. */
  lemma {:induction false} PairedReport(source: seq<Game>, cap: nat, i: nat)
    requires i < |CategoryOrder|
    ensures Report(PairedRows(source, cap))[i]
      == (CategoryOrder[i], CalculateStats(BucketRows(CategoryOrder[i], Accepted(source, cap, CategoryOrder[i]))))
  {
    PairedSubset(source, cap, CategoryOrder[i]);
  }

  /** A blitz draw that arrives before a bullet win. */
  const BlitzDraw := Game(Some("300+0"), Some("1/2-1/2"), [])
  const BulletWin := Game(Some("60+0"), Some("1-0"), [])

  lemma {:induction false} DrawThenWinCategories()
    ensures CategoryOf(BlitzDraw) == Blitz && CategoryOf(BulletWin) == Bullet
  {
    HeuristicExamples();
  }

  /** With cap 1 both games of `[BlitzDraw, BulletWin]` are accepted. */
  lemma {:induction false} DrawThenWinAdmitted()
    ensures Admit([BlitzDraw, BulletWin], 1) == [BlitzDraw, BulletWin]
  {
    var source := [BlitzDraw, BulletWin];
    DrawThenWinCategories();
    assert source[..1] == [BlitzDraw] && [BlitzDraw][..0] == [];
    assert Admit([BlitzDraw], 1) == [BlitzDraw];
    assert Bucket([BlitzDraw], Bullet) == [];
  }

  /** Each game lands in its own bucket, and the bullet game is grouped
      first. */
  lemma {:induction false} DrawThenWinGrouped()
    ensures Grouped([BlitzDraw, BulletWin], 1) == [BulletWin, BlitzDraw]
    ensures GroupedLabels([BlitzDraw, BulletWin], 1) == [Bullet, Blitz]
  {
    var source := [BlitzDraw, BulletWin];
    DrawThenWinCategories();
    assert source[..1] == [BlitzDraw] && [BlitzDraw][..0] == [];
    assert Bucket([BlitzDraw], Bullet) == [] && Bucket([BlitzDraw], Classical) == [];
    assert Bucket(source, Bullet) == [BulletWin];
    assert Bucket(source, Blitz) == [BlitzDraw];
    assert Bucket(source, Classical) == [];
  }

  /** The script gives the bullet game's row the blitz game's draw, where the
      corrected table gives it its own win. */
  lemma {:induction false} MispairedResults()
    ensures ResultHeader(Grouped([BlitzDraw, BulletWin], 1)[0]) == "1-0"
    ensures RowsAsWritten([BlitzDraw, BulletWin], 1)[0] == Row(Bullet, "1/2-1/2", 0)
    ensures PairedRows([BlitzDraw, BulletWin], 1)[0] == Row(Bullet, "1-0", 0)
  {
    DrawThenWinAdmitted();
    DrawThenWinGrouped();
    var source := [BlitzDraw, BulletWin];
    assert ResultsOf(Admit(source, 1))[0] == "1/2-1/2";
    assert BlunderCounts(Grouped(source, 1))[0] == Blunders([]) == 0;
  }

  /** The columns of that example. */
  lemma {:induction false} DrawThenWinColumns()
    ensures ResultsOf([BlitzDraw, BulletWin]) == ["1/2-1/2", "1-0"]
    ensures ResultsOf([BulletWin, BlitzDraw]) == ["1-0", "1/2-1/2"]
    ensures BlunderCounts([BulletWin, BlitzDraw]) == [0, 0]
  {
    assert Blunders([]) == 0;
  }

  /** The script's table for that example in full. */
  lemma {:induction false} DrawThenWinAsWritten()
    ensures RowsAsWritten([BlitzDraw, BulletWin], 1) == [Row(Bullet, "1/2-1/2", 0), Row(Blitz, "1-0", 0)]
  {
    DrawThenWinAdmitted();
    DrawThenWinGrouped();
    DrawThenWinColumns();
  }

  /** The corrected table for that example in full. */
  lemma {:induction false} DrawThenWinPaired()
    ensures PairedRows([BlitzDraw, BulletWin], 1) == [Row(Bullet, "1-0", 0), Row(Blitz, "1/2-1/2", 0)]
  {
    DrawThenWinGrouped();
    DrawThenWinColumns();
  }

  /** In that example the script reports no bullet wins, where the corrected
      table reports every bullet game won. */
  lemma {:induction false} MispairedWinRate()
    ensures CalculateStats(Subset(RowsAsWritten([BlitzDraw, BulletWin], 1), Bullet)).winRate == 0.0
    ensures CalculateStats(Subset(PairedRows([BlitzDraw, BulletWin], 1), Bullet)).winRate == 100.0
  {
    DrawThenWinAsWritten();
    DrawThenWinPaired();
    var draw, win := Row(Bullet, "1/2-1/2", 0), Row(Bullet, "1-0", 0);
    TwoRowsSubset(draw, Row(Blitz, "1-0", 0));
    TwoRowsSubset(win, Row(Blitz, "1/2-1/2", 0));
    SingleRowWinRate(draw);
    SingleRowWinRate(win);
  }

  lemma {:induction false} TwoRowsSubset(r: Row, s: Row)
    requires r.timeControl == Bullet && s.timeControl == Blitz
    ensures Subset([r, s], Bullet) == [r]
  {
    assert [r, s][..1] == [r] && [r][..0] == [];
  }

  /** One row's win rate is 100 when its result is decisive and 0 otherwise. */
  lemma {:induction false} SingleRowWinRate(r: Row)
    ensures CalculateStats([r]).winRate == if IsDecisive(r.result) then 100.0 else 0.0
  {
    assert [r][..0] == [];
    assert Wins([r]) == if IsDecisive(r.result) then 1 else 0;
  }
}
