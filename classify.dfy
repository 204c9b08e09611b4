/** The time-control heuristic of script.py: a header is bullet when it
    contains "60", otherwise blitz when it contains "300", otherwise classical. */
module Classification {
  import opened Games

  /** `needle` occurs in `hay` starting at index `i`. */
  ghost predicate OccursAt(hay: string, needle: string, i: int)
  {
    0 <= i && i + |needle| <= |hay| && hay[i..i + |needle|] == needle
  }

  /** Python's `needle in hay` for strings: `needle` is a substring of `hay`. */
  ghost predicate Occurs(hay: string, needle: string)
  {
    exists i :: OccursAt(hay, needle, i)
  }

  /** Executable substring test: `needle` is a prefix of `hay` or of one of its suffixes. */
  predicate Contains(hay: string, needle: string)
    decreases |hay|
  {
    needle <= hay || (|hay| > 0 && Contains(hay[1..], needle))
  }

  lemma {:induction false} ContainsIffOccurs(hay: string, needle: string)
    ensures Contains(hay, needle) <==> Occurs(hay, needle)
    decreases |hay|
  {
    if needle <= hay {
      assert OccursAt(hay, needle, 0);
    } else if |hay| > 0 {
      ContainsIffOccurs(hay[1..], needle);
      if Contains(hay[1..], needle) {
        var i :| OccursAt(hay[1..], needle, i);
        OccursShift(hay, needle, i);
      }
      if Occurs(hay, needle) {
        var i :| OccursAt(hay, needle, i);
        assert i != 0;
        OccursShift(hay, needle, i - 1);
      }
    }
  }

  /** An occurrence in the tail of `hay` is an occurrence in `hay` one place on. */
  lemma {:induction false} OccursShift(hay: string, needle: string, i: nat)
    requires |hay| > 0
    ensures OccursAt(hay[1..], needle, i) <==> OccursAt(hay, needle, i + 1)
  {
    if i + |needle| <= |hay| - 1 {
      assert hay[1..][i..i + |needle|] == hay[i + 1..i + 1 + |needle|];
    }
  }

  /** A needle whose first character appears nowhere in `hay` does not occur in it. */
  lemma {:induction false} FirstCharAbsent(hay: string, needle: string)
    requires |needle| > 0
    requires forall i :: 0 <= i < |hay| ==> hay[i] != needle[0]
    ensures !Occurs(hay, needle)
  {
    forall i
      ensures !OccursAt(hay, needle, i)
    {
      if 0 <= i && i + |needle| <= |hay| {
        assert hay[i..i + |needle|][0] == hay[i];
      }
    }
  }

  /** The bucket a TimeControl header string falls into; the first matching
      rule wins. In terms of substrings: bullet exactly when "60" occurs, blitz
      exactly when "300" occurs but "60" does not, classical otherwise. */
  function Classify(tc: string): (c: Category)
    ensures c == Bullet <==> Occurs(tc, "60")
    ensures c == Blitz <==> !Occurs(tc, "60") && Occurs(tc, "300")
    ensures c == Classical <==> !Occurs(tc, "60") && !Occurs(tc, "300")
  {
    ContainsIffOccurs(tc, "60");
    ContainsIffOccurs(tc, "300");
    if Contains(tc, "60") then Bullet
    else if Contains(tc, "300") then Blitz
    else Classical
  }

  /** The bucket of a game: the classification of its TimeControl header, and
      classical for a game without one, since the "classical" default contains
      neither "60" nor "300". */
  function CategoryOf(g: Game): (c: Category)
    ensures g.timeControl.Some? ==> c == Classify(g.timeControl.value)
    ensures g.timeControl.None? ==> c == Classical
  {
    FirstCharAbsent("classical", "60");
    FirstCharAbsent("classical", "300");
    Classify(TimeControlHeader(g))
  }

  /** The heuristic looks at digits, not at the clock: "600+0" (ten minutes)
      counts as bullet and "180+2" (three minutes) as classical. */
  lemma {:induction false} HeuristicExamples()
    ensures Classify("60+0") == Bullet
    ensures Classify("300+0") == Blitz
    ensures Classify("600+0") == Bullet
    ensures Classify("180+2") == Classical
  {
    assert OccursAt("60+0", "60", 0);
    assert OccursAt("300+0", "300", 0);
    assert OccursAt("600+0", "60", 0);
    FirstCharAbsent("300+0", "60");
    FirstCharAbsent("180+2", "60");
    FirstCharAbsent("180+2", "300");
  }
}
