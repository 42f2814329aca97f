/**
 * Category scoring for a Kniffel hand of five dice (`src/scoring.rs`).
 *
 * The single-expression rules (upper section, Kniffel, chance) are functions. The rules
 * that the source computes with a local counts array or a sorted, deduplicated vector are
 * methods with loops. Each of those methods is proved against a reference predicate that
 * is stated on the multiset or the set of faces of the hand.
 */
module Scoring {
  import opened SliceOps

  /** A hand as the engine produces it after a roll: five dice, each showing 1..6. */
  predicate IsRolledHand(dice: seq<int>) {
    |dice| == 5 && forall i :: 0 <= i < |dice| ==> 1 <= dice[i] <= 6
  }

  /** Number of dice showing `v` (the `filter(..).count()` of the source). */
  function Count(dice: seq<int>, v: int): (c: nat)
    ensures c == multiset(dice)[v]
    ensures c <= |dice|
  {
    if dice == [] then 0
    else
      assert dice == [dice[0]] + dice[1..];
      (if dice[0] == v then 1 else 0) + Count(dice[1..], v)
  }

  /** Sum of the dice (`iter().sum()`). */
  function Sum(dice: seq<int>): int {
    if dice == [] then 0 else dice[0] + Sum(dice[1..])
  }

  lemma {:induction false} SumBounds(dice: seq<int>, lo: int, hi: int)
    requires forall i :: 0 <= i < |dice| ==> lo <= dice[i] <= hi
    ensures lo * |dice| <= Sum(dice) <= hi * |dice|
  {
    if dice != [] {
      SumBounds(dice[1..], lo, hi);
    }
  }

  lemma {:induction false} SumRemove(s: seq<int>, k: nat)
    requires k < |s|
    ensures Sum(s) == s[k] + Sum(s[..k] + s[k + 1..])
  {
    if k == 0 {
      assert s[..0] + s[1..] == s[1..];
    } else {
      SumRemove(s[1..], k - 1);
      assert s[1..][..k - 1] + s[1..][k..] == (s[..k] + s[k + 1..])[1..];
    }
  }

  /** The sum of a hand does not depend on the order of its dice. */
  lemma {:induction false} SumPermutation(a: seq<int>, b: seq<int>)
    requires multiset(a) == multiset(b)
    ensures Sum(a) == Sum(b)
  {
    if a == [] {
      assert |b| == |multiset(b)| == 0;
    } else {
      assert a[0] in multiset(b);
      var k :| 0 <= k < |b| && b[k] == a[0];
      SumRemove(b, k);
      var rest := b[..k] + b[k + 1..];
      assert multiset(b) == multiset(rest) + multiset{a[0]} by {
        assert b == b[..k] + [b[k]] + b[k + 1..];
        assert multiset(b) == multiset(b[..k]) + multiset{b[k]} + multiset(b[k + 1..]);
      }
      assert multiset(a) == multiset(a[1..]) + multiset{a[0]} by {
        assert a == [a[0]] + a[1..];
      }
      assert multiset(a[1..]) == multiset(rest) by {
        assert multiset(a[1..]) == multiset(a) - multiset{a[0]};
        assert multiset(rest) == multiset(b) - multiset{a[0]};
      }
      SumPermutation(a[1..], rest);
    }
  }

  /**
   * `get_score_1_to_6`: the upper-section score for `value` is `value` times the number of
   * dice showing it.
   */
  function ScoreUpper(dice: seq<int>, value: int): (r: int)
    requires |dice| == 5
    ensures r == value * multiset(dice)[value]
    ensures 1 <= value ==> 0 <= r <= 5 * value
  {
    Count(dice, value) * value
  }

  /**
   * `get_score_kniffel`: 50 exactly when all five dice show the same face.
   */
  function ScoreKniffel(dice: seq<int>): (r: int)
    requires |dice| == 5
    ensures r == 0 || r == 50
    ensures r == 50 <==> exists v :: multiset(dice)[v] == 5
  {
    if forall i :: 0 <= i < 5 ==> dice[i] == dice[0] then
      assert Count(dice, dice[0]) == 5 by { CountAll(dice, dice[0]); }
      50
    else
      assert forall v :: multiset(dice)[v] != 5 by {
        forall v
          ensures multiset(dice)[v] != 5
        {
          CountAll(dice, v);
        }
      }
      0
  }

  lemma {:induction false} CountAll(dice: seq<int>, v: int)
    ensures Count(dice, v) == |dice| <==> forall i :: 0 <= i < |dice| ==> dice[i] == v
  {
    if dice != [] {
      CountAll(dice[1..], v);
      assert forall i :: 1 <= i < |dice| ==> dice[i] == dice[1..][i - 1];
    }
  }

  /** `get_score_chance`: the sum of the dice, 5..30 for a rolled hand. */
  function ScoreChance(dice: seq<int>): (r: int)
    requires |dice| == 5
    ensures IsRolledHand(dice) ==> 5 <= r <= 30
  {
    assert IsRolledHand(dice) ==> 5 <= Sum(dice) <= 30 by {
      if IsRolledHand(dice) {
        SumBounds(dice, 1, 6);
      }
    }
    Sum(dice)
  }

  lemma {:induction false} SumByFaces(s: seq<int>)
    requires forall i :: 0 <= i < |s| ==> 1 <= s[i] <= 6
    ensures Sum(s) == Count(s, 1) + 2 * Count(s, 2) + 3 * Count(s, 3)
                      + 4 * Count(s, 4) + 5 * Count(s, 5) + 6 * Count(s, 6)
  {
    if s != [] {
      SumByFaces(s[1..]);
    }
  }

  /**
   * For a rolled hand, chance scores exactly what the six upper-section categories
   * score together.
   */
  lemma ChanceIsUpperTotal(dice: seq<int>)
    requires IsRolledHand(dice)
    ensures ScoreChance(dice) == ScoreUpper(dice, 1) + ScoreUpper(dice, 2) + ScoreUpper(dice, 3)
                                 + ScoreUpper(dice, 4) + ScoreUpper(dice, 5) + ScoreUpper(dice, 6)
  {
    SumByFaces(dice);
  }

  /** The counts array of the source: `counts[f - 1]` is the number of dice showing f. */
  method CountFaces(dice: seq<int>) returns (counts: seq<nat>)
    ensures |counts| == 6
    ensures forall k :: 0 <= k < 6 ==> counts[k] == multiset(dice)[k + 1]
  {
    var c := new nat[6](_ => 0);
    for i := 0 to |dice|
      invariant forall k :: 0 <= k < 6 ==> c[k] == multiset(dice[..i])[k + 1]
    {
      var roll := dice[i];
      assert dice[..i + 1] == dice[..i] + [roll];
      if 1 <= roll <= 6 {
        c[roll - 1] := c[roll - 1] + 1;
      }
    }
    assert dice[..|dice|] == dice;
    counts := c[..];
  }

  /** Reference rule for n-of-a-kind: some face 1..6 shows on at least `threshold` dice. */
  predicate HasXOfAKind(dice: seq<int>, threshold: int) {
    exists f :: 1 <= f <= 6 && multiset(dice)[f] >= threshold
  }

  /**
   * `get_score_for_x_of_a_kind`: the sum of all dice when some face reaches the threshold
   * (at least, not exactly), otherwise 0.
   */
  method ScoreXOfAKind(dice: seq<int>, threshold: int) returns (score: int)
    requires |dice| == 5
    ensures score == (if HasXOfAKind(dice, threshold) then Sum(dice) else 0)
  {
    var counts := CountFaces(dice);
    if exists k :: 0 <= k < 6 && counts[k] >= threshold {
      score := Sum(dice);
    } else {
      assert !HasXOfAKind(dice, threshold) by {
        forall f | 1 <= f <= 6
          ensures multiset(dice)[f] < threshold
        {
          assert counts[f - 1] == multiset(dice)[f];
        }
      }
      score := 0;
    }
  }

  /** Reference rule for a full house: one face shows exactly three times and one exactly twice. */
  predicate IsFullHouse(dice: seq<int>) {
    && (exists f :: 1 <= f <= 6 && multiset(dice)[f] == 3)
    && (exists f :: 1 <= f <= 6 && multiset(dice)[f] == 2)
  }

  /** `get_score_full_house`: 25 for a full house, otherwise 0. */
  method ScoreFullHouse(dice: seq<int>) returns (score: int)
    requires |dice| == 5
    ensures score == (if IsFullHouse(dice) then 25 else 0)
  {
    var counts := CountFaces(dice);
    var hasThree := exists k :: 0 <= k < 6 && counts[k] == 3;
    var hasTwo := exists k :: 0 <= k < 6 && counts[k] == 2;
    assert hasThree <==> exists f :: 1 <= f <= 6 && multiset(dice)[f] == 3 by {
      if !hasThree {
        forall f | 1 <= f <= 6
          ensures multiset(dice)[f] != 3
        {
          assert counts[f - 1] == multiset(dice)[f];
        }
      }
    }
    assert hasTwo <==> exists f :: 1 <= f <= 6 && multiset(dice)[f] == 2 by {
      if !hasTwo {
        forall f | 1 <= f <= 6
          ensures multiset(dice)[f] != 2
        {
          assert counts[f - 1] == multiset(dice)[f];
        }
      }
    }
    if hasThree && hasTwo {
      score := 25;
    } else {
      score := 0;
    }
  }

  /** Reference rule for a small straight: the faces include 1-2-3-4, 2-3-4-5 or 3-4-5-6. */
  predicate IsSmallStraight(dice: seq<int>) {
    {1, 2, 3, 4} <= Faces(dice) || {2, 3, 4, 5} <= Faces(dice) || {3, 4, 5, 6} <= Faces(dice)
  }

  /** Reference rule for a large straight: the faces are exactly 1..5 or exactly 2..6. */
  predicate IsLargeStraight(dice: seq<int>) {
    Faces(dice) == {1, 2, 3, 4, 5} || Faces(dice) == {2, 3, 4, 5, 6}
  }

  /** `to_vec` + `sort_unstable` + `dedup`: the distinct faces of the hand, ascending. */
  method UniqueRolls(dice: seq<int>) returns (unique: seq<int>)
    ensures StrictlySorted(unique)
    ensures Faces(unique) == Faces(dice)
  {
    var rolls := new int[|dice|](i requires 0 <= i < |dice| => dice[i]);
    assert rolls[..] == dice;
    SortInPlace(rolls);
    assert Faces(rolls[..]) == Faces(dice) by {
      forall x
        ensures x in rolls[..] <==> x in dice
      {
        assert x in rolls[..] <==> x in multiset(rolls[..]);
        assert x in dice <==> x in multiset(dice);
      }
    }
    unique := Dedup(rolls[..]);
  }

  /** `get_score_small_straight`: 30 for a small straight, otherwise 0. */
  method ScoreSmallStraight(dice: seq<int>) returns (score: int)
    requires |dice| == 5
    ensures score == (if IsSmallStraight(dice) then 30 else 0)
  {
    var unique := UniqueRolls(dice);
    var straights := [[1, 2, 3, 4], [2, 3, 4, 5], [3, 4, 5, 6]];
    for s := 0 to |straights|
      invariant forall j :: 0 <= j < s ==> !(Faces(straights[j]) <= Faces(unique))
    {
      if forall num :: num in straights[s] ==> num in unique {
        assert Faces(straights[s]) <= Faces(unique);
        assert Faces(straights[s]) == Faces(straights[0]) || Faces(straights[s]) == Faces(straights[1])
            || Faces(straights[s]) == Faces(straights[2]);
        return 30;
      }
      assert !(Faces(straights[s]) <= Faces(unique)) by {
        var num :| num in straights[s] && num !in unique;
        assert num in Faces(straights[s]);
      }
    }
    assert Faces(straights[0]) == {1, 2, 3, 4};
    assert Faces(straights[1]) == {2, 3, 4, 5};
    assert Faces(straights[2]) == {3, 4, 5, 6};
    return 0;
  }

  /** `get_score_large_straight`: 40 for a large straight, otherwise 0. */
  method ScoreLargeStraight(dice: seq<int>) returns (score: int)
    requires |dice| == 5
    ensures score == (if IsLargeStraight(dice) then 40 else 0)
  {
    var sortedRolls := UniqueRolls(dice);
    var straights := [[1, 2, 3, 4, 5], [2, 3, 4, 5, 6]];
    assert Faces(straights[0]) == {1, 2, 3, 4, 5};
    assert Faces(straights[1]) == {2, 3, 4, 5, 6};
    for s := 0 to |straights|
      invariant forall j :: 0 <= j < s ==> Faces(sortedRolls) != Faces(straights[j])
    {
      if sortedRolls == straights[s] {
        return 40;
      }
      if Faces(sortedRolls) == Faces(straights[s]) {
        StrictlySortedByFaces(sortedRolls, straights[s]);
      }
    }
    return 0;
  }
}
