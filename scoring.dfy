/**
 * The server-side scoring function `calculateScore(id, dice)`: a category
 * identifier and a roll of dice give a point value.
 *
 * The function follows the source step by step: a tally of the dice keyed by
 * `String(v)`, the sum, the tally's values, the distinct values sorted, then
 * a dispatch that first tests `parseInt(id)` and only then the symbolic
 * identifiers.  The dice are taken to be integers 0..6 (0 is the placeholder of
 * a die not rolled yet), which is what the client sends.
 */
module Scoring {
  import opened ParseInt

  predicate IsDie(v: int) {
    0 <= v <= 6
  }

  predicate AreDice(dice: seq<int>) {
    forall i :: 0 <= i < |dice| ==> IsDie(dice[i])
  }

  /** A full roll: five dice. */
  predicate IsRoll(dice: seq<int>) {
    |dice| == 5 && AreDice(dice)
  }

  /** The number of dice showing `v`. */
  function Count(dice: seq<int>, v: int): (n: nat)
    ensures n <= |dice|
  {
    if dice == [] then 0
    else Count(dice[..|dice| - 1], v) + (if dice[|dice| - 1] == v then 1 else 0)
  }

  /** The sum of the dice, `dice.reduce((a, b) => a + b, 0)`. */
  function Sum(dice: seq<int>): int {
    if dice == [] then 0 else Sum(dice[..|dice| - 1]) + dice[|dice| - 1]
  }

  /** The decimal digits of `v` with its sign; `String(v)` for the faces 0..6 the tally keys on. */
  function NumberString(v: int): string {
    if v < 0 then "-" + DecimalString(-v) else DecimalString(v)
  }

  /** `counts[key] || 0`. */
  function Lookup(counts: map<string, nat>, key: string): nat {
    if key in counts then counts[key] else 0
  }

  /**
   * `dice.reduce((a, v) => { a[v] = (a[v] || 0) + 1; return a; }, {})`: an
   * object whose property `String(v)` holds how many dice show `v`.
   */
  function Tally(dice: seq<int>): map<string, nat> {
    if dice == [] then map[]
    else
      var counts := Tally(dice[..|dice| - 1]);
      var key := NumberString(dice[|dice| - 1]);
      counts[key := Lookup(counts, key) + 1]
  }

  /** `u` with `x` added at its place in ascending order, unless `u` already holds it. */
  function Insert(u: seq<int>, x: int): (r: seq<int>)
    ensures forall y :: y in r <==> y == x || y in u
  {
    if u == [] then [x]
    else if x == u[0] then u
    else if x < u[0] then [x] + u
    else [u[0]] + Insert(u[1..], x)
  }

  /**
   * `[...new Set(dice)].sort()`: the distinct values, each added once.  The
   * default sort compares the decimal strings; for values 0..6 that is the
   * numeric order, so the result is ascending.
   */
  function DistinctSorted(dice: seq<int>): (r: seq<int>)
    ensures forall x :: x in r <==> x in dice
  {
    if dice == [] then [] else Insert(DistinctSorted(dice[..|dice| - 1]), dice[|dice| - 1])
  }

  /** `u.join('')`: the decimal strings of the elements, concatenated. */
  function Join(u: seq<int>): string {
    if u == [] then "" else Join(u[..|u| - 1]) + NumberString(u[|u| - 1])
  }

  /** `t` occurs in `s` at position `i`. */
  predicate OccursAt(s: string, t: string, i: int) {
    0 <= i && i + |t| <= |s| && s[i..i + |t|] == t
  }

  /** `RegExp(t).test(s)` for a pattern `t` made of literal characters. */
  predicate Contains(s: string, t: string) {
    exists i | 0 <= i <= |s| - |t| :: OccursAt(s, t, i)
  }

  /** `Object.values(counts).some(c => c >= k)`. */
  predicate SomeCountAtLeast(vals: set<nat>, k: int) {
    exists c :: c in vals && c >= k
  }

  /** `/1234|2345|3456/.test(joined)`. */
  predicate HasSmallStraight(joined: string) {
    Contains(joined, "1234") || Contains(joined, "2345") || Contains(joined, "3456")
  }

  /** `unique.length === 5 && unique[4] - unique[0] === 4`. */
  predicate IsLargeStraight(unique: seq<int>) {
    |unique| == 5 && unique[4] - unique[0] == 4
  }

  /** `calculateScore(id, dice)`. */
  function Score(id: string, dice: seq<int>): int
    requires AreDice(dice)
  {
    var counts := Tally(dice);
    var sum := Sum(dice);
    var vals := counts.Values;
    var unique := DistinctSorted(dice);
    var n := ParseIntPrefix(id);
    if Truthy(n) then Lookup(counts, id) * n.value
    else if id == "kn" then (if SomeCountAtLeast(vals, 5) then 50 else 0)
    else if id == "ch" then sum
    else if id == "fh" then (if (2 in vals && 3 in vals) || 5 in vals then 25 else 0)
    else if id == "ks" then (if HasSmallStraight(Join(unique)) then 30 else 0)
    else if id == "gs" then (if IsLargeStraight(unique) then 40 else 0)
    else if id == "3k" then (if SomeCountAtLeast(vals, 3) then sum else 0)
    else if id == "4k" then (if SomeCountAtLeast(vals, 4) then sum else 0)
    else 0
  }

  // ---------------------------------------------------------------------------
  // The tally, the sum and the sorted distinct values against their meaning

  /** A property name the tally can hold: the decimal string of a die value. */
  predicate IsFaceKey(k: string) {
    |k| == 1 && '0' <= k[0] <= '6'
  }

  function FaceOf(k: string): (v: int)
    requires IsFaceKey(k)
    ensures IsDie(v) && NumberString(v) == k
  {
    DecimalStringSmall(k[0] as int - '0' as int);
    k[0] as int - '0' as int
  }

  lemma DieKeyIsFaceKey(v: int)
    requires IsDie(v)
    ensures IsFaceKey(NumberString(v)) && FaceOf(NumberString(v)) == v
  {
    DecimalStringSmall(v);
  }

  /** The tally holds, under `String(v)`, exactly the number of dice showing `v`, and nothing else. */
  lemma {:induction false} TallyCounts(dice: seq<int>)
    requires AreDice(dice)
    ensures forall v :: IsDie(v) ==> Lookup(Tally(dice), NumberString(v)) == Count(dice, v)
    ensures forall k :: k in Tally(dice) ==> IsFaceKey(k) && Tally(dice)[k] > 0
  {
    if dice != [] {
      var init := dice[..|dice| - 1];
      var last := dice[|dice| - 1];
      TallyCounts(init);
      DieKeyIsFaceKey(last);
      forall v | IsDie(v)
        ensures Lookup(Tally(dice), NumberString(v)) == Count(dice, v)
      {
        DieKeyIsFaceKey(v);
        if v != last {
          assert NumberString(v) != NumberString(last);
        }
      }
    }
  }

  /** A count appears among the tally's values exactly when some face occurs that often. */
  lemma TallyValues(dice: seq<int>, c: nat)
    requires AreDice(dice) && c > 0
    ensures c in Tally(dice).Values <==> exists v :: IsDie(v) && Count(dice, v) == c
  {
    TallyCounts(dice);
    if c in Tally(dice).Values {
      var k :| k in Tally(dice) && Tally(dice)[k] == c;
      var v := FaceOf(k);
      assert Count(dice, v) == c;
    }
    if exists v :: IsDie(v) && Count(dice, v) == c {
      var v :| IsDie(v) && Count(dice, v) == c;
      assert NumberString(v) in Tally(dice);
      assert Tally(dice)[NumberString(v)] in Tally(dice).Values;
    }
  }

  lemma {:induction false} CountZero(dice: seq<int>, v: int)
    ensures Count(dice, v) == 0 <==> v !in dice
  {
    if dice != [] {
      CountZero(dice[..|dice| - 1], v);
      assert dice == dice[..|dice| - 1] + [dice[|dice| - 1]];
    }
  }

  /** Every die shows `v` exactly when all of them are counted. */
  lemma {:induction false} CountAll(dice: seq<int>, v: int)
    ensures Count(dice, v) == |dice| <==> forall i :: 0 <= i < |dice| ==> dice[i] == v
  {
    if dice != [] {
      var init := dice[..|dice| - 1];
      CountAll(init, v);
      if Count(dice, v) == |dice| {
        assert Count(init, v) == |init|;
        forall i | 0 <= i < |dice| ensures dice[i] == v {
          if i < |init| { assert dice[i] == init[i]; }
        }
      }
      if forall i :: 0 <= i < |dice| ==> dice[i] == v {
        assert forall i :: 0 <= i < |init| ==> init[i] == v;
      }
    }
  }

  lemma {:induction false} SumBounds(dice: seq<int>)
    requires AreDice(dice)
    ensures 0 <= Sum(dice) <= 6 * |dice|
  {
    if dice != [] {
      SumBounds(dice[..|dice| - 1]);
    }
  }

  predicate StrictlyIncreasing(u: seq<int>) {
    forall i, j :: 0 <= i < j < |u| ==> u[i] < u[j]
  }

  /** A list whose head is below every element of an ascending tail is ascending. */
  lemma ConsIncreasing(x: int, w: seq<int>)
    requires StrictlyIncreasing(w)
    requires forall y :: y in w ==> x < y
    ensures StrictlyIncreasing([x] + w)
  {
    forall i, j | 0 <= i < j < |[x] + w| ensures ([x] + w)[i] < ([x] + w)[j] {
      assert ([x] + w)[j] == w[j - 1];
      assert w[j - 1] in w;
      if i > 0 {
        assert ([x] + w)[i] == w[i - 1];
      }
    }
  }

  lemma {:induction false} InsertIncreasing(u: seq<int>, x: int)
    requires StrictlyIncreasing(u)
    ensures StrictlyIncreasing(Insert(u, x))
  {
    if u != [] && x > u[0] {
      var t := u[1..];
      assert StrictlyIncreasing(t);
      InsertIncreasing(t, x);
      forall y | y in Insert(t, x) ensures u[0] < y {
        if y != x {
          var i :| 0 <= i < |t| && t[i] == y;
          assert u[i + 1] == y;
        }
      }
      ConsIncreasing(u[0], Insert(t, x));
    } else if u != [] && x < u[0] {
      forall y | y in u ensures x < y {
        var i :| 0 <= i < |u| && u[i] == y;
        assert u[0] <= u[i];
      }
      ConsIncreasing(x, u);
    }
  }

  /** `DistinctSorted` is ascending. */
  lemma {:induction false} DistinctSortedIncreasing(dice: seq<int>)
    ensures StrictlyIncreasing(DistinctSorted(dice))
  {
    if dice != [] {
      var init := dice[..|dice| - 1];
      DistinctSortedIncreasing(init);
      InsertIncreasing(DistinctSorted(init), dice[|dice| - 1]);
    }
  }

  /** Without its last element an ascending list holds every other value it held. */
  lemma DropLast(u: seq<int>)
    requires StrictlyIncreasing(u) && u != []
    ensures forall x :: x in u ==> x <= u[|u| - 1]
    ensures forall x :: x in u[..|u| - 1] <==> x in u && x != u[|u| - 1]
  {
    forall x | x in u ensures x <= u[|u| - 1] {
      var i :| 0 <= i < |u| && u[i] == x;
    }
    var init := u[..|u| - 1];
    assert u == init + [u[|u| - 1]];
    forall x | x in init ensures x != u[|u| - 1] {
      var i :| 0 <= i < |init| && init[i] == x;
      assert u[i] == x;
    }
  }

  /**
   * An ascending list is determined by its elements: any other ascending list
   * of the same values is equal to it.
   */
  lemma {:induction false} AscendingUnique(u: seq<int>, w: seq<int>)
    requires StrictlyIncreasing(u) && StrictlyIncreasing(w)
    requires forall x :: x in u <==> x in w
    ensures u == w
    decreases |u| + |w|
  {
    assert u != [] ==> u[0] in u && u[0] in w;
    assert w != [] ==> w[0] in w && w[0] in u;
    if u != [] && w != [] {
      SameLast(u, w);
      var u', w' := u[..|u| - 1], w[..|w| - 1];
      DropLast(u);
      DropLast(w);
      forall x ensures x in u' <==> x in w' {
        assert x in u' <==> x in u && x != u[|u| - 1];
      }
      AscendingUnique(u', w');
      assert u == u' + [u[|u| - 1]] && w == w' + [w[|w| - 1]];
    }
  }

  /** Two non-empty ascending lists of the same values end alike, and so do their prefixes. */
  lemma SameLast(u: seq<int>, w: seq<int>)
    requires StrictlyIncreasing(u) && StrictlyIncreasing(w) && u != [] && w != []
    requires forall x :: x in u <==> x in w
    ensures u[|u| - 1] == w[|w| - 1]
    ensures StrictlyIncreasing(u[..|u| - 1]) && StrictlyIncreasing(w[..|w| - 1])
  {
    var a, b := u[|u| - 1], w[|w| - 1];
    DropLast(u);
    DropLast(w);
    assert a in u && b in w;
    assert a == b;
  }

  /** The joined string of single-digit values has one digit per element. */
  lemma {:induction false} JoinDigits(u: seq<int>)
    requires forall i :: 0 <= i < |u| ==> 0 <= u[i] < 10
    ensures |Join(u)| == |u|
    ensures forall i :: 0 <= i < |u| ==> Join(u)[i] == DigitChar(u[i])
  {
    if u != [] {
      JoinDigits(u[..|u| - 1]);
      DecimalStringSmall(u[|u| - 1]);
    }
  }
}
