/**
 * The help table: calculate_probabilities in Dice_Game.py counts, over all
 * throws of the dice, how often each sum occurs, and how many throws there
 * are. The `Counter` is a map from a sum to its count; a sum that has not
 * been seen has no entry. Each probability is kept as the exact ratio
 * count / total instead of a rounded float.
 */
module Probabilities {
  import opened Validation
  import opened Throws

  /** An exact probability `num / den`. */
  datatype Ratio = Ratio(num: nat, den: nat)

  /** The counts `m` are those of the multiset `ms`: a sum has an entry
      exactly when it occurs, and its entry is how often it occurs. */
  ghost predicate Represents(m: map<int, nat>, ms: multiset<int>) {
    && (forall s :: s in m <==> s in ms)
    && (forall s :: s in m ==> m[s] == ms[s])
  }

  ghost function AnyKey(m: map<int, nat>): (k: int)
    requires m != map[]
    ensures k in m
  {
    assert exists k :: k in m by {
      if forall k :: k !in m { assert false; }
    }
    var k :| k in m; k
  }

  /** The sum of all counts of a map. */
  ghost function TotalCount(m: map<int, nat>): nat
    decreases |m|
  {
    if m == map[] then 0
    else var k := AnyKey(m); m[k] + TotalCount(m - {k})
  }

  /** Any entry can be taken out first when the counts are added up. */
  lemma TotalCountRemove(m: map<int, nat>, k: int)
    requires k in m
    ensures TotalCount(m) == m[k] + TotalCount(m - {k})
    decreases |m|
  {
    var j := AnyKey(m);
    if j != k {
      TotalCountRemove(m - {j}, k);
      TotalCountRemove(m - {k}, j);
      assert m - {j} - {k} == m - {k} - {j};
    }
  }

  /** Setting one entry changes the total by the difference. */
  lemma TotalCountUpdate(m: map<int, nat>, s: int, v: nat)
    ensures TotalCount(m[s := v]) + (if s in m then m[s] else 0) == TotalCount(m) + v
  {
    var m' := m[s := v];
    TotalCountRemove(m', s);
    assert m' - {s} == m - {s};
    if s in m {
      TotalCountRemove(m, s);
    } else {
      assert m - {s} == m;
    }
  }

  /** One step of the counting loop: `outcomes[s] += 1` for the next sum
      keeps the counter equal to the sums counted so far, and its total
      equal to their number. */
  lemma CountStep(outcomes: map<int, nat>, sums: seq<int>, i: nat)
    requires i < |sums|
    requires Represents(outcomes, multiset(sums[..i]))
    ensures var s := sums[i];
      var next := outcomes[s := (if s in outcomes then outcomes[s] else 0) + 1];
      && Represents(next, multiset(sums[..i + 1]))
      && TotalCount(next) == TotalCount(outcomes) + 1
  {
    var s := sums[i];
    assert sums[..i + 1] == sums[..i] + [s];
    TotalCountUpdate(outcomes, s, (if s in outcomes then outcomes[s] else 0) + 1);
  }

  /** Once the counter holds the whole distribution, its keys are sums a
      throw can reach. */
  lemma CountsWithinBounds(outcomes: map<int, nat>, dice: seq<Die>)
    requires Represents(outcomes, SumDistribution(dice))
    requires NonEmptyDice(dice)
    ensures forall s :: s in outcomes ==> MinSum(dice) <= s <= MaxSum(dice)
  {
    forall s | s in outcomes
      ensures MinSum(dice) <= s <= MaxSum(dice)
    {
      DistributionBounds(dice, s);
    }
  }

  /** The counting loop of calculate_probabilities: for each throw of the
      product, one more for its sum and one more throw in all. */
  method CountSums(dice: seq<Die>) returns (outcomes: map<int, nat>, totalRolls: nat)
    ensures totalRolls == ProductOfLengths(dice)
    ensures (forall i :: 0 <= i < |dice| ==> |dice[i]| == FACES) ==> totalRolls == Pow(FACES, |dice|)
    ensures Represents(outcomes, SumDistribution(dice))
    ensures forall s :: s in outcomes ==> outcomes[s] > 0
    ensures TotalCount(outcomes) == totalRolls
    ensures NonEmptyDice(dice) ==> forall s :: s in outcomes ==> MinSum(dice) <= s <= MaxSum(dice)
  {
    var rolls := Rolls(dice);
    ghost var sums := Sums(dice);
    SumsMatchRolls(dice);
    outcomes, totalRolls := map[], 0;
    for i := 0 to |rolls|
      invariant totalRolls == i
      invariant Represents(outcomes, multiset(sums[..i]))
      invariant TotalCount(outcomes) == totalRolls
    {
      var s := Sum(rolls[i]);
      CountStep(outcomes, sums, i);
      outcomes := outcomes[s := (if s in outcomes then outcomes[s] else 0) + 1];
      totalRolls := totalRolls + 1;
    }
    assert sums[..|rolls|] == sums;
    DistributionBounds(dice, 0);
    if NonEmptyDice(dice) {
      CountsWithinBounds(outcomes, dice);
    }
    if forall i :: 0 <= i < |dice| ==> |dice[i]| == FACES {
      SixFacedRollCount(dice);
    }
  }

  /** `p` is the table of calculate_probabilities for `dice`: one entry per
      sum a throw can have, each the exact share of throws with that sum,
      all over the same denominator, the number of throws. */
  ghost predicate Tabulates(p: map<int, Ratio>, dice: seq<Die>) {
    && (forall s :: s in p <==> s in SumDistribution(dice))
    && (forall s :: s in p ==>
          p[s] == Ratio(SumDistribution(dice)[s], ProductOfLengths(dice)))
  }

  /** The numerators of a table. */
  function Numerators(p: map<int, Ratio>): (m: map<int, nat>)
    ensures m.Keys == p.Keys
  {
    map s | s in p :: p[s].num
  }

  /** calculate_probabilities, without the rounding to four places: the
      probabilities are positive, at most one, and add up to one. */
  method CalculateProbabilities(dice: seq<Die>) returns (probabilities: map<int, Ratio>)
    ensures Tabulates(probabilities, dice)
    ensures forall s :: s in probabilities ==> 0 < probabilities[s].num <= probabilities[s].den
    ensures TotalCount(Numerators(probabilities)) == ProductOfLengths(dice)
  {
    var outcomes, totalRolls := CountSums(dice);
    probabilities := map s | s in outcomes :: Ratio(outcomes[s], totalRolls);
    assert Numerators(probabilities) == outcomes;
    forall s | s in outcomes ensures outcomes[s] <= totalRolls {
      TotalCountRemove(outcomes, s);
    }
  }
}
