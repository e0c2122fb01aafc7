/**
 * What `calculateScore` computes, category by category, stated without the
 * tally object, the sorted string or the regular expression; and the two
 * quirks of the code as written: "3k" and "4k" always score 0, and placeholder
 * zero dice score like any other face.
 */
module ScoringProperties {
  import opened ParseInt
  import opened Scoring

  /** Every die shows the same face. */
  predicate AllSame(dice: seq<int>) {
    forall i :: 0 <= i < |dice| ==> dice[i] == dice[0]
  }

  /** Some face occurs exactly `c` times. */
  ghost predicate Occurs(dice: seq<int>, c: nat) {
    exists v :: IsDie(v) && Count(dice, v) == c
  }

  /** The faces `a`, `a + 1`, `a + 2` and `a + 3` all occur. */
  predicate HasRun(dice: seq<int>, a: int) {
    a in dice && a + 1 in dice && a + 2 in dice && a + 3 in dice
  }

  /** The faces shown are exactly `lo..hi`. */
  ghost predicate ValuesAre(dice: seq<int>, lo: int, hi: int) {
    forall x :: x in dice <==> lo <= x <= hi
  }

  // ---------------------------------------------------------------------------
  // Parsing the identifiers

  lemma UpperIdStrings()
    ensures NumberString(1) == "1" && NumberString(2) == "2" && NumberString(3) == "3"
    ensures NumberString(4) == "4" && NumberString(5) == "5" && NumberString(6) == "6"
  {
    DecimalStringSmall(1); DecimalStringSmall(2); DecimalStringSmall(3);
    DecimalStringSmall(4); DecimalStringSmall(5); DecimalStringSmall(6);
  }

  /** `parseInt("3k") == 3` and `parseInt("4k") == 4`: both take the numeric branch. */
  lemma KindIdsParse()
    ensures ParseIntPrefix("3k") == Some(3) && ParseIntPrefix("4k") == Some(4)
  {
    assert "3" + "k" == "3k" && "4" + "k" == "4k";
    assert ValueOf("3", 10) == 3 by { assert "3"[..0] == []; }
    assert ValueOf("4", 10) == 4 by { assert "4"[..0] == []; }
    ParseDecimalThen("3", "k");
    ParseDecimalThen("4", "k");
  }

  /** The five letter identifiers are NaN to `parseInt`, so they reach their own branches. */
  lemma LetterIdsParse()
    ensures ParseIntPrefix("kn") == None && ParseIntPrefix("ch") == None
    ensures ParseIntPrefix("fh") == None && ParseIntPrefix("ks") == None
    ensures ParseIntPrefix("gs") == None
  {
    ParseLeadingLetter("kn"); ParseLeadingLetter("ch"); ParseLeadingLetter("fh");
    ParseLeadingLetter("ks"); ParseLeadingLetter("gs");
  }

  /** A key of the tally is the string of a face, so an id that is no such string finds nothing. */
  lemma NotATallyKey(dice: seq<int>, id: string)
    requires AreDice(dice)
    requires forall v :: IsDie(v) ==> id != NumberString(v)
    ensures Lookup(Tally(dice), id) == 0
  {
    TallyCounts(dice);
    if id in Tally(dice) {
      var v := FaceOf(id);
      assert false;
    }
  }

  // ---------------------------------------------------------------------------
  // The numeric branch

  /** "1".."6" score the face times the number of dice showing it. */
  lemma UpperCategory(dice: seq<int>, n: int)
    requires AreDice(dice) && 1 <= n <= 6
    ensures Score(NumberString(n), dice) == n * Count(dice, n)
  {
    var id := NumberString(n);
    DecimalStringRoundTrip(n);
    assert Truthy(ParseIntPrefix(id));
    TallyCounts(dice);
    assert Lookup(Tally(dice), id) == Count(dice, n);
  }

  /**
   * Any other id that `parseInt` reads as a nonzero number ("3k", "4k", "7",
   * " 2", "02", "-1", ...) scores 0: the tally has no property of that name.
   */
  lemma OtherNumericIdScoresZero(dice: seq<int>, id: string)
    requires AreDice(dice) && Truthy(ParseIntPrefix(id))
    requires forall n :: 1 <= n <= 6 ==> id != NumberString(n)
    ensures Score(id, dice) == 0
  {
    forall v | IsDie(v) ensures id != NumberString(v) {
      if v == 0 {
        DecimalStringRoundTrip(0);
      }
    }
    NotATallyKey(dice, id);
  }

  /** Neither "3k" nor "4k" is the string of a face 1..6. */
  lemma KindIdsAreNotFaces()
    ensures forall n :: 1 <= n <= 6 ==> "3k" != NumberString(n) && "4k" != NumberString(n)
  {
    forall n | 1 <= n <= 6 ensures "3k" != NumberString(n) && "4k" != NumberString(n) {
      DecimalStringSmall(n);
    }
  }

  /** Three and four of a kind never score: their branches (lines 27-28) are dead code. */
  lemma KindCategoriesScoreZero(dice: seq<int>)
    requires AreDice(dice)
    ensures Score("3k", dice) == 0 && Score("4k", dice) == 0
  {
    KindIdsParse();
    KindIdsAreNotFaces();
    OtherNumericIdScoresZero(dice, "3k");
    OtherNumericIdScoresZero(dice, "4k");
  }

  // ---------------------------------------------------------------------------
  // The letter categories

  lemma FiveOccurrences(dice: seq<int>)
    requires IsRoll(dice)
    ensures Occurs(dice, 5) <==> AllSame(dice)
  {
    if Occurs(dice, 5) {
      var v :| IsDie(v) && Count(dice, v) == 5;
      CountAll(dice, v);
    }
    if AllSame(dice) {
      CountAll(dice, dice[0]);
    }
  }

  /** "kn" scores 50 exactly when all five dice are equal. */
  lemma FiveOfAKind(dice: seq<int>)
    requires IsRoll(dice)
    ensures Score("kn", dice) == if AllSame(dice) then 50 else 0
  {
    assert Score("kn", dice) == if SomeCountAtLeast(Tally(dice).Values, 5) then 50 else 0 by {
      ParseLeadingLetter("kn");
    }
    FiveCounted(dice);
  }

  /** On five dice, a count of five or more in the tally means all five are equal. */
  lemma FiveCounted(dice: seq<int>)
    requires IsRoll(dice)
    ensures SomeCountAtLeast(Tally(dice).Values, 5) <==> AllSame(dice)
  {
    var vals := Tally(dice).Values;
    FiveOccurrences(dice);
    TallyValues(dice, 5);
    if SomeCountAtLeast(vals, 5) {
      var c :| c in vals && c >= 5;
      TallyValues(dice, c);
      var v :| IsDie(v) && Count(dice, v) == c;
      assert c == 5;
    }
  }

  /** "ch" scores the sum of the five dice. */
  lemma ChanceIsSum(dice: seq<int>)
    requires IsRoll(dice)
    ensures Score("ch", dice) == dice[0] + dice[1] + dice[2] + dice[3] + dice[4]
  {
    assert Score("ch", dice) == Sum(dice) by {
      ParseLeadingLetter("ch");
    }
    SumOfFive(dice);
  }

  lemma SumOfFive(dice: seq<int>)
    requires |dice| == 5
    ensures Sum(dice) == dice[0] + dice[1] + dice[2] + dice[3] + dice[4]
  {
    assert Sum(dice) == Sum(dice[..4]) + dice[4];
    assert dice[..4][..3] == dice[..3];
    assert Sum(dice[..4]) == Sum(dice[..3]) + dice[3];
    assert dice[..3][..2] == dice[..2];
    assert Sum(dice[..3]) == Sum(dice[..2]) + dice[2];
    assert dice[..2][..1] == dice[..1];
    assert Sum(dice[..2]) == Sum(dice[..1]) + dice[1];
    assert dice[..1][..0] == [];
  }

  /** "fh" scores 25 when one face occurs twice and another three times, or one face five times. */
  lemma FullHouse(dice: seq<int>)
    requires AreDice(dice)
    ensures Score("fh", dice) == if (Occurs(dice, 2) && Occurs(dice, 3)) || Occurs(dice, 5) then 25 else 0
  {
    var vals := Tally(dice).Values;
    assert Score("fh", dice) == if (2 in vals && 3 in vals) || 5 in vals then 25 else 0 by {
      ParseLeadingLetter("fh");
    }
    TallyValues(dice, 2);
    TallyValues(dice, 3);
    TallyValues(dice, 5);
  }

  /** On a roll of five dice, the five-times case of "fh" is a five of a kind. */
  lemma FullHouseRoll(dice: seq<int>)
    requires IsRoll(dice)
    ensures Score("fh", dice) == if (Occurs(dice, 2) && Occurs(dice, 3)) || AllSame(dice) then 25 else 0
  {
    FullHouse(dice);
    FiveOccurrences(dice);
  }

  /** The pattern of four consecutive faces from `a`. */
  function RunPattern(a: int): string
    requires 0 <= a <= 6
  {
    [DigitChar(a), DigitChar(a + 1), DigitChar(a + 2), DigitChar(a + 3)]
  }

  /** In an ascending list, a value one above another sits right after it. */
  lemma Adjacent(u: seq<int>, i: int, j: int)
    requires StrictlyIncreasing(u)
    requires 0 <= i < |u| && 0 <= j < |u| && u[j] == u[i] + 1
    ensures j == i + 1
  {
    assert i + 1 < |u| ==> u[i] < u[i + 1];
  }

  /** `s` spells the single-digit list `u`, one character per element. */
  predicate Spells(s: string, u: seq<int>) {
    |s| == |u| && forall i :: 0 <= i < |u| ==> 0 <= u[i] <= 6 && s[i] == DigitChar(u[i])
  }

  /** Where the run pattern occurs in the spelling, the list holds the four faces. */
  lemma RunFromOccurrence(u: seq<int>, s: string, a: int, i: int)
    requires Spells(s, u) && 0 <= a <= 6 && OccursAt(s, RunPattern(a), i)
    ensures HasRun(u, a)
  {
    var t := RunPattern(a);
    forall k | i <= k < i + 4 ensures u[k] == a + (k - i) {
      assert s[k] == s[i..i + 4][k - i] == t[k - i];
      assert DigitOf(DigitChar(u[k])) == DigitOf(DigitChar(a + (k - i)));
    }
    assert u[i] == a && u[i + 1] == a + 1 && u[i + 2] == a + 2 && u[i + 3] == a + 3;
  }

  /** In an ascending list holding the four faces, the spelling holds the run pattern. */
  lemma OccurrenceFromRun(u: seq<int>, s: string, a: int)
    requires StrictlyIncreasing(u) && Spells(s, u) && 0 <= a <= 6 && HasRun(u, a)
    ensures Contains(s, RunPattern(a))
  {
    var i :| 0 <= i < |u| && u[i] == a;
    var j1 :| 0 <= j1 < |u| && u[j1] == a + 1;
    Adjacent(u, i, j1);
    var j2 :| 0 <= j2 < |u| && u[j2] == a + 2;
    Adjacent(u, j1, j2);
    var j3 :| 0 <= j3 < |u| && u[j3] == a + 3;
    Adjacent(u, j2, j3);
    var t := RunPattern(a);
    assert s[i] == t[0] && s[i + 1] == t[1] && s[i + 2] == t[2] && s[i + 3] == t[3];
    assert s[i..i + 4] == t;
    assert OccursAt(s, t, i);
  }

  /** The joined ascending digits contain the run from `a` exactly when the four faces are there. */
  lemma RunInJoined(u: seq<int>, a: int)
    requires StrictlyIncreasing(u) && 0 <= a <= 6
    requires forall i :: 0 <= i < |u| ==> 0 <= u[i] <= 6
    ensures Contains(Join(u), RunPattern(a)) <==> HasRun(u, a)
  {
    var s := Join(u);
    JoinDigits(u);
    assert Spells(s, u);
    if Contains(s, RunPattern(a)) {
      var i :| 0 <= i <= |s| - 4 && OccursAt(s, RunPattern(a), i);
      RunFromOccurrence(u, s, a, i);
    }
    if HasRun(u, a) {
      OccurrenceFromRun(u, s, a);
    }
  }

  /** The sorted distinct dice, joined, contain the run from `a` exactly when the dice show those four faces. */
  lemma SortedRun(dice: seq<int>, a: int)
    requires AreDice(dice) && 0 <= a <= 6
    ensures Contains(Join(DistinctSorted(dice)), RunPattern(a)) <==> HasRun(dice, a)
  {
    var u := DistinctSorted(dice);
    DistinctSortedIncreasing(dice);
    forall i | 0 <= i < |u| ensures 0 <= u[i] <= 6 {
      assert u[i] in dice;
    }
    RunInJoined(u, a);
    assert HasRun(u, a) <==> HasRun(dice, a);
  }

  /** "ks" scores 30 exactly when 1-2-3-4, 2-3-4-5 or 3-4-5-6 all occur among the dice. */
  lemma SmallStraight(dice: seq<int>)
    requires AreDice(dice)
    ensures Score("ks", dice) == if HasRun(dice, 1) || HasRun(dice, 2) || HasRun(dice, 3) then 30 else 0
  {
    var s := Join(DistinctSorted(dice));
    assert Score("ks", dice) == if HasSmallStraight(s) then 30 else 0 by {
      ParseLeadingLetter("ks");
    }
    assert "1234" == RunPattern(1) && "2345" == RunPattern(2) && "3456" == RunPattern(3);
    SortedRun(dice, 1);
    SortedRun(dice, 2);
    SortedRun(dice, 3);
  }

  /** An ascending list of five that spans four is the five consecutive values from its head. */
  lemma FiveSpanningFour(u: seq<int>)
    requires StrictlyIncreasing(u) && |u| == 5 && u[4] - u[0] == 4
    ensures u == [u[0], u[0] + 1, u[0] + 2, u[0] + 3, u[0] + 4]
  {
    assert u[0] < u[1] < u[2] < u[3] < u[4];
  }

  /** Five distinct sorted values spanning four are exactly the faces 0-4, 1-5 or 2-6. */
  lemma SortedSpan(dice: seq<int>)
    requires AreDice(dice)
    ensures IsLargeStraight(DistinctSorted(dice)) <==> ValuesAre(dice, 0, 4) || ValuesAre(dice, 1, 5) || ValuesAre(dice, 2, 6)
  {
    var u := DistinctSorted(dice);
    DistinctSortedIncreasing(dice);
    if |u| == 5 && u[4] - u[0] == 4 {
      FiveSpanningFour(u);
      var a := u[0];
      assert u[0] in dice && u[4] in dice;
      forall x ensures x in dice <==> a <= x <= a + 4 {
        assert x in dice <==> x in u;
      }
      assert ValuesAre(dice, a, a + 4);
      assert a == 0 || a == 1 || a == 2;
    }
    if ValuesAre(dice, 0, 4) {
      StraightFrom(dice, 0);
    }
    if ValuesAre(dice, 1, 5) {
      StraightFrom(dice, 1);
    }
    if ValuesAre(dice, 2, 6) {
      StraightFrom(dice, 2);
    }
  }

  /** "gs" scores 40 exactly when the faces shown are 0-4, 1-5 or 2-6. */
  lemma LargeStraight(dice: seq<int>)
    requires AreDice(dice)
    ensures Score("gs", dice) ==
            if ValuesAre(dice, 0, 4) || ValuesAre(dice, 1, 5) || ValuesAre(dice, 2, 6) then 40 else 0
  {
    assert Score("gs", dice) == if IsLargeStraight(DistinctSorted(dice)) then 40 else 0 by {
      ParseLeadingLetter("gs");
    }
    SortedSpan(dice);
  }

  /** Dice showing exactly the faces `a..a + 4` sort to those five values. */
  lemma StraightFrom(dice: seq<int>, a: int)
    requires ValuesAre(dice, a, a + 4)
    ensures DistinctSorted(dice) == [a, a + 1, a + 2, a + 3, a + 4]
  {
    var u := DistinctSorted(dice);
    var w := [a, a + 1, a + 2, a + 3, a + 4];
    DistinctSortedIncreasing(dice);
    forall x ensures x in u <==> x in w {
      assert x in u <==> x in dice;
    }
    AscendingUnique(u, w);
  }

  /** The ids of the upper section, "1".."6". */
  predicate IsUpperId(id: string) {
    |id| == 1 && '1' <= id[0] <= '6'
  }

  /** The ids with a branch of their own that `parseInt` does not swallow. */
  predicate IsLetterId(id: string) {
    id == "kn" || id == "ch" || id == "fh" || id == "ks" || id == "gs"
  }

  /** Every other id scores 0: "3k", "4k", other numbers and unknown names alike. */
  lemma UnknownIdScoresZero(dice: seq<int>, id: string)
    requires AreDice(dice)
    requires !IsUpperId(id) && !IsLetterId(id)
    ensures Score(id, dice) == 0
  {
    if Truthy(ParseIntPrefix(id)) {
      forall n | 1 <= n <= 6 ensures id != NumberString(n) {
        DecimalStringSmall(n);
      }
      OtherNumericIdScoresZero(dice, id);
    } else {
      KindIdsParse();
      assert id != "3k" && id != "4k";
    }
  }

  /** A numeric id scores a count times the face it names, at most 6 times the number of dice. */
  lemma NumericScoreRange(dice: seq<int>, id: string)
    requires AreDice(dice) && Truthy(ParseIntPrefix(id))
    ensures 0 <= Score(id, dice) <= 6 * |dice|
  {
    assert Score(id, dice) == Lookup(Tally(dice), id) * ParseIntPrefix(id).value;
    CountTimesFace(dice, id);
  }

  lemma CountTimesFace(dice: seq<int>, id: string)
    requires AreDice(dice) && Truthy(ParseIntPrefix(id))
    ensures 0 <= Lookup(Tally(dice), id) * ParseIntPrefix(id).value <= 6 * |dice|
  {
    var n := ParseIntPrefix(id);
    var c := Lookup(Tally(dice), id);
    TallyCounts(dice);
    if id in Tally(dice) {
      var v := FaceOf(id);
      DecimalStringRoundTrip(v);
      assert n.value == v;
      assert c == Count(dice, v) <= |dice|;
      ProductBound(c, v, |dice|);
    } else {
      assert c == 0;
    }
  }

  lemma ProductBound(c: int, v: int, n: int)
    requires 0 <= c <= n && 0 <= v <= 6
    ensures 0 <= c * v <= n * 6
  {
    assert c * v <= c * 6 <= n * 6;
  }

  /** The branches after the numeric test score one of the fixed values, or the sum. */
  lemma LetterScoreValues(dice: seq<int>, id: string)
    requires AreDice(dice) && !Truthy(ParseIntPrefix(id))
    ensures Score(id, dice) in {0, 25, 30, 40, 50} || Score(id, dice) == Sum(dice)
  {
  }

  /** Every score is non-negative, and at most 50 on a roll of five dice. */
  lemma ScoreRange(dice: seq<int>, id: string)
    requires AreDice(dice)
    ensures 0 <= Score(id, dice)
    ensures |dice| == 5 ==> Score(id, dice) <= 50
  {
    SumBounds(dice);
    if Truthy(ParseIntPrefix(id)) {
      NumericScoreRange(dice, id);
    } else {
      LetterScoreValues(dice, id);
    }
  }

  // ---------------------------------------------------------------------------
  // Placeholder zero dice

  /**
   * Dice not rolled yet are not special: five placeholder zeros are a five of
   * a kind and a full house.
   */
  lemma ZeroDiceScore(dice: seq<int>)
    requires |dice| == 5 && forall i :: 0 <= i < 5 ==> dice[i] == 0
    ensures Score("kn", dice) == 50
    ensures Score("fh", dice) == 25
  {
    FiveOfAKind(dice);
    FullHouseRoll(dice);
  }
}
