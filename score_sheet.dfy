/**
 * A player's score sheet: an object from category id to points, as
 * `player.scores` holds it.  The select-category handler recomputes the
 * player's total from the sheet on every commit: the sum of all values, plus a
 * bonus of 35 when the six upper categories "1".."6" add up to 63 or more.
 */
module ScoreSheet {

  /** The upper categories, in the order the handler visits them. */
  const UpperKeys: seq<string> := ["1", "2", "3", "4", "5", "6"]

  const BonusThreshold := 63
  const BonusPoints := 35

  /** `scores[k] || 0`: a category not filled in counts 0. */
  function Entry(scores: map<string, int>, k: string): int {
    if k in scores then scores[k] else 0
  }

  /** The entries of `keys`, added from the first to the last. */
  function SumEntries(scores: map<string, int>, keys: seq<string>): int {
    if keys == [] then 0 else SumEntries(scores, keys[..|keys| - 1]) + Entry(scores, keys[|keys| - 1])
  }

  /** The upper sum the bonus depends on. */
  function UpperSum(scores: map<string, int>): int {
    SumEntries(scores, UpperKeys)
  }

  /** The values of `scores` under `keys`, in no particular order. */
  ghost function SumOver(scores: map<string, int>, keys: set<string>): int
    requires keys <= scores.Keys
    decreases keys
  {
    if keys == {} then 0
    else
      var k :| k in keys;
      scores[k] + SumOver(scores, keys - {k})
  }

  /** `Object.values(scores).reduce((a, b) => a + b, 0)`: the sum of every value. */
  ghost function SumValues(scores: map<string, int>): int {
    SumOver(scores, scores.Keys)
  }

  function Bonus(upper: int): int {
    if upper >= BonusThreshold then BonusPoints else 0
  }

  /** The total the handler stores for a sheet. */
  ghost function SheetTotal(scores: map<string, int>): int {
    SumValues(scores) + Bonus(UpperSum(scores))
  }

  // ---------------------------------------------------------------------------
  // The two loops of the handler

  /** `["1", ..., "6"].forEach(id => upper += (scores[id] || 0))`. */
  method ComputeUpper(scores: map<string, int>) returns (upper: int)
    ensures upper == UpperSum(scores)
    ensures upper == Entry(scores, "1") + Entry(scores, "2") + Entry(scores, "3") +
                     Entry(scores, "4") + Entry(scores, "5") + Entry(scores, "6")
  {
    upper := 0;
    for i := 0 to |UpperKeys|
      invariant upper == SumEntries(scores, UpperKeys[..i])
    {
      assert UpperKeys[..i + 1][..i] == UpperKeys[..i];
      upper := upper + Entry(scores, UpperKeys[i]);
    }
    assert UpperKeys[..|UpperKeys|] == UpperKeys;
    UpperSumExplicit(scores);
  }

  /** `Object.values(scores).reduce((a, b) => a + b, 0)`, visiting the properties one by one. */
  method ComputeSheetSum(scores: map<string, int>) returns (sum: int)
    ensures sum == SumValues(scores)
  {
    sum := 0;
    var rest := scores.Keys;
    while rest != {}
      invariant rest <= scores.Keys
      invariant sum + SumOver(scores, rest) == SumValues(scores)
      decreases rest
    {
      var k :| k in rest;
      SumOverPick(scores, rest, k);
      sum := sum + scores[k];
      rest := rest - {k};
    }
  }

  // ---------------------------------------------------------------------------
  // Properties

  /** The upper sum adds the six upper entries. */
  lemma UpperSumExplicit(scores: map<string, int>)
    ensures UpperSum(scores) == Entry(scores, "1") + Entry(scores, "2") + Entry(scores, "3") +
                                Entry(scores, "4") + Entry(scores, "5") + Entry(scores, "6")
  {
    var u := UpperKeys;
    assert u[..5] == ["1", "2", "3", "4", "5"] && u[..4] == ["1", "2", "3", "4"];
    assert u[..3] == ["1", "2", "3"] && u[..2] == ["1", "2"] && u[..1] == ["1"];
    assert u[..6][..5] == u[..5] && u[..5][..4] == u[..4] && u[..4][..3] == u[..3];
    assert u[..3][..2] == u[..2] && u[..2][..1] == u[..1] && u[..1][..0] == [];
    assert SumEntries(scores, u) == SumEntries(scores, u[..5]) + Entry(scores, "6");
    assert SumEntries(scores, u[..5]) == SumEntries(scores, u[..4]) + Entry(scores, "5");
    assert SumEntries(scores, u[..4]) == SumEntries(scores, u[..3]) + Entry(scores, "4");
    assert SumEntries(scores, u[..3]) == SumEntries(scores, u[..2]) + Entry(scores, "3");
    assert SumEntries(scores, u[..2]) == SumEntries(scores, u[..1]) + Entry(scores, "2");
    assert SumEntries(scores, u[..1]) == SumEntries(scores, []) + Entry(scores, "1");
  }

  /** The sum over a set of keys does not depend on which key is taken first. */
  lemma {:induction false} SumOverPick(scores: map<string, int>, keys: set<string>, k: string)
    requires keys <= scores.Keys && k in keys
    ensures SumOver(scores, keys) == scores[k] + SumOver(scores, keys - {k})
    decreases keys
  {
    var j :| j in keys && SumOver(scores, keys) == scores[j] + SumOver(scores, keys - {j});
    if j != k {
      SumOverPick(scores, keys - {j}, k);
      SumOverPick(scores, keys - {k}, j);
      assert keys - {j} - {k} == keys - {k} - {j};
    }
  }

  /** Two sheets that agree on `keys` sum alike over them. */
  lemma {:induction false} SumOverAgree(s: map<string, int>, t: map<string, int>, keys: set<string>)
    requires keys <= s.Keys && keys <= t.Keys
    requires forall k :: k in keys ==> s[k] == t[k]
    ensures SumOver(s, keys) == SumOver(t, keys)
    decreases keys
  {
    if keys != {} {
      var k :| k in keys;
      SumOverPick(s, keys, k);
      SumOverPick(t, keys, k);
      SumOverAgree(s, t, keys - {k});
    }
  }

  lemma {:induction false} SumOverNonNegative(scores: map<string, int>, keys: set<string>)
    requires keys <= scores.Keys
    requires forall k :: k in keys ==> scores[k] >= 0
    ensures SumOver(scores, keys) >= 0
    decreases keys
  {
    if keys != {} {
      var k :| k in keys;
      SumOverPick(scores, keys, k);
      SumOverNonNegative(scores, keys - {k});
    }
  }

  /** Writing `v` under `k` changes the sum of all values by `v` minus what `k` held. */
  lemma SumValuesUpdate(scores: map<string, int>, k: string, v: int)
    ensures SumValues(scores[k := v]) == SumValues(scores) - Entry(scores, k) + v
  {
    var t := scores[k := v];
    var rest := scores.Keys - {k};
    assert t.Keys - {k} == rest;
    SumOverPick(t, t.Keys, k);
    SumOverAgree(t, scores, rest);
    if k in scores {
      SumOverPick(scores, scores.Keys, k);
    } else {
      assert scores.Keys == rest;
    }
  }

  /** Writing `v` under `k` changes the upper sum by the same amount when `k` is an upper category, else not at all. */
  lemma UpperSumUpdate(scores: map<string, int>, k: string, v: int)
    ensures UpperSum(scores[k := v]) ==
            if k in UpperKeys then UpperSum(scores) - Entry(scores, k) + v else UpperSum(scores)
  {
    UpperSumExplicit(scores);
    UpperSumExplicit(scores[k := v]);
  }

  /** The total after a commit, from the sheet before it. */
  lemma TotalAfterCommit(scores: map<string, int>, k: string, v: int)
    ensures SheetTotal(scores[k := v]) == SumValues(scores) - Entry(scores, k) + v + Bonus(UpperSum(scores[k := v]))
  {
    SumValuesUpdate(scores, k, v);
  }

  /** A sheet of non-negative scores has a non-negative total. */
  lemma TotalNonNegative(scores: map<string, int>)
    requires forall k :: k in scores ==> scores[k] >= 0
    ensures SumValues(scores) >= 0 && SheetTotal(scores) >= 0
  {
    SumOverNonNegative(scores, scores.Keys);
  }

  /** Removing a key the key list does not mention leaves its entries alone. */
  lemma {:induction false} EntriesWithout(scores: map<string, int>, keys: seq<string>, k: string)
    requires k !in keys
    ensures SumEntries(scores - {k}, keys) == SumEntries(scores, keys)
  {
    if keys != [] {
      EntriesWithout(scores, keys[..|keys| - 1], k);
    }
  }

  /** With non-negative scores, the entries of distinct keys add up to no more than the sum of every value. */
  lemma {:induction false} EntriesWithinSum(scores: map<string, int>, keys: seq<string>)
    requires forall i, j :: 0 <= i < j < |keys| ==> keys[i] != keys[j]
    requires forall k :: k in scores ==> scores[k] >= 0
    ensures SumEntries(scores, keys) <= SumValues(scores)
  {
    if keys == [] {
      TotalNonNegative(scores);
    } else {
      var init, last := keys[..|keys| - 1], keys[|keys| - 1];
      assert last !in init by {
        forall i | 0 <= i < |init| ensures init[i] != last {
          assert init[i] == keys[i];
        }
      }
      if last in scores {
        var rest := scores - {last};
        EntriesWithout(scores, init, last);
        EntriesWithinSum(rest, init);
        assert rest.Keys == scores.Keys - {last};
        SumOverAgree(rest, scores, rest.Keys);
        SumOverPick(scores, scores.Keys, last);
      } else {
        EntriesWithinSum(scores, init);
      }
    }
  }

  /** With non-negative scores the upper sum is part of the sum of every value. */
  lemma UpperWithinSum(scores: map<string, int>)
    requires forall k :: k in scores ==> scores[k] >= 0
    ensures 0 <= UpperSum(scores) <= SumValues(scores)
  {
    UpperSumExplicit(scores);
    EntriesWithinSum(scores, UpperKeys);
  }
}
