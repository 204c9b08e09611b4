/** `parse_pgn_games`: read games one at a time, put each in its time-control
    bucket while that bucket holds fewer than `cap` games, record the Result
    header of every accepted game, and stop when the file is exhausted or all
    three buckets are full. */
module Categorizer {
  import opened Games
  import opened Classification

  /** The games of `s` that fall into bucket `c`, in their order in `s`. */
  function Bucket(s: seq<Game>, c: Category): (b: seq<Game>)
    ensures |b| <= |s|
  {
    if s == [] then []
    else
      var last := s[|s| - 1];
      Bucket(s[..|s| - 1], c) + (if CategoryOf(last) == c then [last] else [])
  }

  lemma {:induction false} BucketAppend(s: seq<Game>, g: Game, c: Category)
    ensures Bucket(s + [g], c) == Bucket(s, c) + (if CategoryOf(g) == c then [g] else [])
  {
    assert (s + [g])[..|s|] == s;
  }

  lemma {:induction false} PrefixExtend<T>(s: seq<T>, i: nat)
    requires i < |s|
    ensures s[..i + 1] == s[..i] + [s[i]]
  {
  }

  /** The first `n` elements of `s`, or all of `s` when it is shorter. */
  function Take<T>(s: seq<T>, n: nat): (r: seq<T>)
  {
    if |s| <= n then s else s[..n]
  }

  /** The games the categorizer accepts from `s`, in arrival order, when every
      record of `s` is offered: a game is accepted exactly when its bucket holds
      fewer than `cap` of the games accepted before it. */
  function Admit(s: seq<Game>, cap: nat): seq<Game>
  {
    if s == [] then []
    else
      var prev, last := Admit(s[..|s| - 1], cap), s[|s| - 1];
      if |Bucket(prev, CategoryOf(last))| < cap then prev + [last] else prev
  }

  /** The accepted games are drawn from the source: none is invented or
      accepted twice, so there are never more of them than records. */
  lemma {:induction false} AdmitFromSource(s: seq<Game>, cap: nat)
    ensures multiset(Admit(s, cap)) <= multiset(s)
    ensures |Admit(s, cap)| <= |s|
    decreases |s|
  {
    if s != [] {
      var p, g := s[..|s| - 1], s[|s| - 1];
      assert s == p + [g];
      AdmitFromSource(p, cap);
      AdmitAppend(p, g, cap);
    }
  }

  lemma {:induction false} AdmitAppend(s: seq<Game>, g: Game, cap: nat)
    ensures Admit(s + [g], cap) ==
      if |Bucket(Admit(s, cap), CategoryOf(g))| < cap then Admit(s, cap) + [g] else Admit(s, cap)
  {
    assert (s + [g])[..|s|] == s;
  }

  /** Each bucket of the accepted games is the first `cap` games of that
      bucket in the source, in source order. */
  lemma {:induction false} AdmitBucket(s: seq<Game>, cap: nat, c: Category)
    ensures Bucket(Admit(s, cap), c) == Take(Bucket(s, c), cap)
    decreases |s|
  {
    if s != [] {
      var p, g := s[..|s| - 1], s[|s| - 1];
      assert s == p + [g];
      AdmitBucket(p, cap, c);
      AdmitBucketStep(p, g, cap, c);
    }
  }

  /** The inductive step of `AdmitBucket`: offering one more game keeps each
      bucket of the accepted games equal to the first `cap` of that bucket. */
  lemma {:induction false} AdmitBucketStep(p: seq<Game>, g: Game, cap: nat, c: Category)
    requires Bucket(Admit(p, cap), c) == Take(Bucket(p, c), cap)
    ensures Bucket(Admit(p + [g], cap), c) == Take(Bucket(p + [g], c), cap)
  {
    var a, b := Admit(p, cap), Bucket(p, c);
    AdmitAppend(p, g, cap);
    BucketAppend(p, g, c);
    BucketAppend(a, g, c);
    TakeAppend(b, g, cap);
    var accepted := |Bucket(a, CategoryOf(g))| < cap;
    if CategoryOf(g) == c {
      if accepted {
        assert |b| < cap;
      } else {
        assert |b| >= cap;
      }
    } else {
      assert Bucket(p + [g], c) == b;
      if accepted {
        assert Bucket(Admit(p + [g], cap), c) == Bucket(a, c);
      }
    }
  }

  lemma {:induction false} TakeAppend<T>(b: seq<T>, x: T, n: nat)
    ensures Take(b + [x], n) == if |b| < n then b + [x] else Take(b, n)
  {
    if |b| >= n {
      assert (b + [x])[..n] == b[..n];
    }
  }

  /** No bucket of the accepted games holds more than `cap` games. */
  lemma {:induction false} AdmitBounded(s: seq<Game>, cap: nat, c: Category)
    ensures |Bucket(Admit(s, cap), c)| <= cap
  {
    AdmitBucket(s, cap, c);
  }

  /** Every game lands in exactly one bucket. */
  lemma {:induction false} BucketPartition(s: seq<Game>)
    ensures multiset(s) == multiset(Bucket(s, Bullet)) + multiset(Bucket(s, Blitz)) + multiset(Bucket(s, Classical))
    ensures |s| == |Bucket(s, Bullet)| + |Bucket(s, Blitz)| + |Bucket(s, Classical)|
    decreases |s|
  {
    if s != [] {
      var p, g := s[..|s| - 1], s[|s| - 1];
      assert s == p + [g];
      BucketPartition(p);
      BucketAppend(p, g, Bullet);
      BucketAppend(p, g, Blitz);
      BucketAppend(p, g, Classical);
    }
  }

  /** Every bucket holds at least `cap` games. */
  ghost predicate Saturated(accepted: seq<Game>, cap: nat)
  {
    |Bucket(accepted, Bullet)| >= cap && |Bucket(accepted, Blitz)| >= cap && |Bucket(accepted, Classical)| >= cap
  }

  /** Once every bucket is full, no later record is accepted: stopping early
      loses nothing. */
  lemma {:induction false} SaturatedAdmitsNothing(s: seq<Game>, t: seq<Game>, cap: nat)
    requires Saturated(Admit(s, cap), cap)
    ensures Admit(s + t, cap) == Admit(s, cap)
    decreases |t|
  {
    if t == [] {
      assert s + t == s;
    } else {
      var t', g := t[..|t| - 1], t[|t| - 1];
      assert s + t == (s + t') + [g];
      SaturatedAdmitsNothing(s, t', cap);
      AdmitAppend(s + t', g, cap);
    }
  }

  /** No non-empty prefix of `source` shorter than `i` saturates the buckets. */
  ghost predicate NoEarlierStop(source: seq<Game>, cap: nat, i: nat)
    requires i <= |source|
  {
    forall j :: 0 < j < i ==> !Saturated(Admit(source[..j], cap), cap)
  }

  lemma {:induction false} NoEarlierStopStep(source: seq<Game>, cap: nat, i: nat)
    requires 0 < i <= |source|
    requires NoEarlierStop(source, cap, i - 1)
    requires 1 < i ==> !Saturated(Admit(source[..i - 1], cap), cap)
    ensures NoEarlierStop(source, cap, i)
  {
  }

  /** The reading loop stops after `consumed` records: at the first record after
      which every bucket is full, or when the source has no more records. */
  ghost predicate StopsAt(source: seq<Game>, cap: nat, consumed: nat)
  {
    consumed <= |source| &&
    (consumed == |source| || (0 < consumed && Saturated(Admit(source[..consumed], cap), cap))) &&
    NoEarlierStop(source, cap, consumed)
  }

  /** `games` and `results` are what `parse_pgn_games` holds after reading the
      records `offered`: each bucket list holds the accepted games of that bucket
      and `results` the Result headers of all accepted games, in arrival order. */
  ghost predicate Tracks(games: map<Category, seq<Game>>, results: seq<string>, offered: seq<Game>, cap: nat)
  {
    (forall c: Category :: c in games && games[c] == Bucket(Admit(offered, cap), c)) &&
    results == ResultsOf(Admit(offered, cap))
  }

  /** Reading a record whose bucket is below the cap appends it to that bucket
      and its Result header to the results. */
  lemma {:induction false} TracksAccept(games: map<Category, seq<Game>>, results: seq<string>, offered: seq<Game>, cap: nat, g: Game)
    requires Tracks(games, results, offered, cap)
    requires |games[CategoryOf(g)]| < cap
    ensures Tracks(games[CategoryOf(g) := games[CategoryOf(g)] + [g]], results + [ResultHeader(g)], offered + [g], cap)
  {
    var c, accepted := CategoryOf(g), Admit(offered, cap);
    var games' := games[c := games[c] + [g]];
    AdmitAppend(offered, g, cap);
    assert Admit(offered + [g], cap) == accepted + [g];
    forall c': Category
      ensures c' in games' && games'[c'] == Bucket(Admit(offered + [g], cap), c')
    {
      BucketAppend(accepted, g, c');
    }
    ResultsOfAppend(accepted, [g]);
    assert results + [ResultHeader(g)] == ResultsOf(Admit(offered + [g], cap));
  }

  /** Reading a record whose bucket is full changes neither the buckets nor the results. */
  lemma {:induction false} TracksReject(games: map<Category, seq<Game>>, results: seq<string>, offered: seq<Game>, cap: nat, g: Game)
    requires Tracks(games, results, offered, cap)
    requires |games[CategoryOf(g)]| >= cap
    ensures Tracks(games, results, offered + [g], cap)
  {
    AdmitAppend(offered, g, cap);
  }

  /** The per-bucket game lists, counters and result list of `parse_pgn_games`. */
  class Buckets {
    const cap: nat
    var games: map<Category, seq<Game>>
    var counts: map<Category, nat>
    var results: seq<string>
    /** The records read so far, in order. */
    ghost var offered: seq<Game>

    /** Every bucket has a list and a counter, the counter is the list's length,
        and the lists and results are those of the games accepted from `offered`. */
    ghost predicate Valid()
      reads this
    {
      (forall c: Category :: c in games && c in counts && counts[c] == |games[c]|) &&
      Tracks(games, results, offered, cap)
    }

    constructor (cap: nat)
      ensures Valid() && this.cap == cap && offered == []
      ensures games == map[Bullet := [], Blitz := [], Classical := []]
      ensures counts == map[Bullet := 0, Blitz := 0, Classical := 0]
      ensures results == []
    {
      this.cap := cap;
      games := map[Bullet := [], Blitz := [], Classical := []];
      counts := map[Bullet := 0, Blitz := 0, Classical := 0];
      results := [];
      offered := [];
      new;
      forall c: Category ensures c in games && c in counts && counts[c] == |games[c]| && games[c] == [] {
        if c == Bullet {} else if c == Blitz {} else {}
      }
    }

    /** Classify `g` and accept it when its bucket is below the cap; an accepted
        game is appended to its bucket and its Result header to `results`. */
    method Offer(g: Game) returns (ok: bool)
      requires Valid()
      modifies this
      ensures Valid() && offered == old(offered) + [g]
      ensures ok <==> old(counts)[CategoryOf(g)] < cap
      ensures ok ==>
        var c := CategoryOf(g);
        games == old(games)[c := old(games)[c] + [g]] &&
        counts == old(counts)[c := old(counts)[c] + 1] &&
        results == old(results) + [ResultHeader(g)]
      ensures !ok ==> games == old(games) && counts == old(counts) && results == old(results)
    {
      var c := CategoryOf(g);
      ok := counts[c] < cap;
      if ok {
        TracksAccept(games, results, offered, cap, g);
        games := games[c := games[c] + [g]];
        counts := counts[c := counts[c] + 1];
        results := results + [ResultHeader(g)];
      } else {
        TracksReject(games, results, offered, cap, g);
      }
      offered := offered + [g];
    }

    /** Every counter has reached the cap. */
    function AllFull(): (full: bool)
      reads this
      requires Valid()
      ensures full <==> Saturated(Admit(offered, cap), cap)
    {
      counts[Bullet] >= cap && counts[Blitz] >= cap && counts[Classical] >= cap
    }
  }

  /** Whichever exit the reading loop takes, the games it accepted are those it
      would have accepted from the whole source. */
  lemma {:induction false} StopLosesNothing(source: seq<Game>, cap: nat, i: nat)
    requires i <= |source|
    requires i == |source| || Saturated(Admit(source[..i], cap), cap)
    ensures Admit(source, cap) == Admit(source[..i], cap)
  {
    if i < |source| {
      assert source == source[..i] + source[i..];
      SaturatedAdmitsNothing(source[..i], source[i..], cap);
    } else {
      assert source[..i] == source;
    }
  }

  /** Whichever exit the reading loop takes, its lists are those of the whole source. */
  lemma {:induction false} StoppedTracksSource(source: seq<Game>, cap: nat, i: nat, games: map<Category, seq<Game>>, results: seq<string>)
    requires i <= |source|
    requires i == |source| || Saturated(Admit(source[..i], cap), cap)
    requires Tracks(games, results, source[..i], cap)
    ensures Tracks(games, results, source, cap)
  {
    StopLosesNothing(source, cap, i);
  }

  /** What `parse_pgn_games` returns: the first `cap` games of each bucket of the
      source, and the results of all accepted games. */
  lemma {:induction false} AcceptedState(source: seq<Game>, cap: nat, games: map<Category, seq<Game>>, results: seq<string>)
    requires Tracks(games, results, source, cap)
    ensures forall c: Category :: c in games && games[c] == Take(Bucket(source, c), cap)
    ensures forall c: Category :: |games[c]| <= cap
    ensures results == ResultsOf(Admit(source, cap))
    ensures |results| == |games[Bullet]| + |games[Blitz]| + |games[Classical]|
  {
    forall c: Category ensures games[c] == Take(Bucket(source, c), cap) && |games[c]| <= cap {
      AdmitBucket(source, cap, c);
    }
    BucketPartition(Admit(source, cap));
  }

  /** `parse_pgn_games` over the records of a PGN file; `consumed` is how many
      records it read. */
  method ParsePgnGames(source: seq<Game>, cap: nat)
      returns (games: map<Category, seq<Game>>, results: seq<string>, ghost consumed: nat)
    ensures StopsAt(source, cap, consumed)
    ensures forall c: Category :: c in games && games[c] == Take(Bucket(source, c), cap)
    ensures forall c: Category :: |games[c]| <= cap
    ensures results == ResultsOf(Admit(source, cap))
    ensures |results| == |games[Bullet]| + |games[Blitz]| + |games[Classical]|
  {
    var buckets := new Buckets(cap);
    var i := 0;
    while true
      invariant 0 <= i <= |source|
      invariant buckets.Valid() && buckets.cap == cap && buckets.offered == source[..i]
      invariant NoEarlierStop(source, cap, i)
      invariant 0 < i ==> !Saturated(Admit(source[..i], cap), cap)
      decreases |source| - i
    {
      if i == |source| {
        break;
      }
      var g := source[i];
      PrefixExtend(source, i);
      var _ := buckets.Offer(g);
      i := i + 1;
      NoEarlierStopStep(source, cap, i);
      if buckets.AllFull() {
        break;
      }
    }
    games, results, consumed := buckets.games, buckets.results, i;
    StoppedTracksSource(source, cap, i, games, results);
    AcceptedState(source, cap, games, results);
  }
}
