/**
 * Throwing the dice: roll_dice in Dice_Game.py, the sum of a throw, and
 * every possible throw in the order `itertools.product(*dice)` lists them.
 *
 * `random.choice` is replaced by the index of the face it picks, supplied
 * by the caller.
 */
module Throws {
  import opened Validation

  /** A face index for every die, each one within its die. */
  predicate ValidPicks(dice: seq<Die>, picks: seq<nat>) {
    |picks| == |dice| && forall i :: 0 <= i < |dice| ==> picks[i] < |dice[i]|
  }

  /** One face of each die, die by die. */
  predicate IsRoll(dice: seq<Die>, roll: seq<int>) {
    |roll| == |dice| && forall i :: 0 <= i < |dice| ==> roll[i] in dice[i]
  }

  /** Every die has at least one face. */
  predicate NonEmptyDice(dice: seq<Die>) {
    forall i :: 0 <= i < |dice| ==> |dice[i]| > 0
  }

  /** roll_dice: the i-th value is the face picked on die i. */
  function RollDice(dice: seq<Die>, picks: seq<nat>): (roll: seq<int>)
    requires ValidPicks(dice, picks)
    ensures IsRoll(dice, roll)
    ensures forall i :: 0 <= i < |dice| ==> roll[i] == dice[i][picks[i]]
  {
    seq(|dice|, i requires 0 <= i < |dice| => dice[i][picks[i]])
  }

  /** Python's `sum` over a throw. */
  function Sum(s: seq<int>): int {
    if |s| == 0 then 0 else s[0] + Sum(s[1..])
  }

  function IndexOf(die: Die, x: int): (k: nat)
    requires x in die
    ensures k < |die| && die[k] == x
  {
    if die[0] == x then 0 else 1 + IndexOf(die[1..], x)
  }

  function MinFace(die: Die): (m: int)
    requires |die| > 0
    ensures m in die && forall j :: 0 <= j < |die| ==> m <= die[j]
  {
    if |die| == 1 then die[0]
    else var rest := MinFace(die[1..]); if die[0] <= rest then die[0] else rest
  }

  function MaxFace(die: Die): (m: int)
    requires |die| > 0
    ensures m in die && forall j :: 0 <= j < |die| ==> die[j] <= m
  {
    if |die| == 1 then die[0]
    else var rest := MaxFace(die[1..]); if die[0] >= rest then die[0] else rest
  }

  /** The smallest sum a throw can have: every die shows its lowest face. */
  function MinSum(dice: seq<Die>): int
    requires NonEmptyDice(dice)
  {
    if |dice| == 0 then 0 else MinFace(dice[0]) + MinSum(dice[1..])
  }

  /** The largest sum a throw can have: every die shows its highest face. */
  function MaxSum(dice: seq<Die>): int
    requires NonEmptyDice(dice)
  {
    if |dice| == 0 then 0 else MaxFace(dice[0]) + MaxSum(dice[1..])
  }

  /** Every throw sums to a value between the lowest and the highest sum. */
  lemma {:induction false} RollSumBounds(dice: seq<Die>, roll: seq<int>)
    requires NonEmptyDice(dice) && IsRoll(dice, roll)
    ensures MinSum(dice) <= Sum(roll) <= MaxSum(dice)
  {
    if |dice| > 0 {
      assert roll[0] in dice[0];
      RollSumBounds(dice[1..], roll[1..]);
    }
  }

  // ------------------------------------------------------------------
  // The cartesian product of the dice
  // ------------------------------------------------------------------

  /** `[face] + t` for every t of `tails`, in order. */
  function Prepend(face: int, tails: seq<seq<int>>): (r: seq<seq<int>>)
    ensures |r| == |tails|
  {
    seq(|tails|, i requires 0 <= i < |tails| => [face] + tails[i])
  }

  /** Every face of a die in front of every throw of the remaining dice,
      the first die varying slowest. */
  function Extend(faces: Die, tails: seq<seq<int>>): seq<seq<int>> {
    if |faces| == 0 then [] else Prepend(faces[0], tails) + Extend(faces[1..], tails)
  }

  /** `itertools.product(*dice)`: all throws, in the order they are listed.
      With no dice there is exactly one throw, the empty one. */
  function Rolls(dice: seq<Die>): seq<seq<int>> {
    if |dice| == 0 then [[]] else Extend(dice[0], Rolls(dice[1..]))
  }

  /** The product of the numbers of faces. */
  function ProductOfLengths(dice: seq<Die>): nat {
    if |dice| == 0 then 1 else |dice[0]| * ProductOfLengths(dice[1..])
  }

  function Pow(b: nat, k: nat): nat {
    if k == 0 then 1 else b * Pow(b, k - 1)
  }

  lemma {:induction false} ExtendLength(faces: Die, tails: seq<seq<int>>)
    ensures |Extend(faces, tails)| == |faces| * |tails|
  {
    if |faces| > 0 {
      ExtendLength(faces[1..], tails);
      calc {
        |Extend(faces, tails)|;
        |tails| + (|faces| - 1) * |tails|;
        |faces| * |tails|;
      }
    }
  }

  /** There are as many throws as the product of the numbers of faces. */
  lemma {:induction false} RollsCount(dice: seq<Die>)
    ensures |Rolls(dice)| == ProductOfLengths(dice)
  {
    if |dice| > 0 {
      RollsCount(dice[1..]);
      ExtendLength(dice[0], Rolls(dice[1..]));
    }
  }

  /** With six-faced dice that is six to the number of dice. */
  lemma {:induction false} SixFacedRollCount(dice: seq<Die>)
    requires forall i :: 0 <= i < |dice| ==> |dice[i]| == FACES
    ensures ProductOfLengths(dice) == Pow(FACES, |dice|)
  {
    if |dice| > 0 {
      SixFacedRollCount(dice[1..]);
    }
  }

  lemma PrependMembership(face: int, tails: seq<seq<int>>, roll: seq<int>)
    ensures roll in Prepend(face, tails) <==> |roll| >= 1 && roll[0] == face && roll[1..] in tails
  {
    var p := Prepend(face, tails);
    if roll in p {
      var i :| 0 <= i < |p| && p[i] == roll;
      assert roll[1..] == tails[i];
    }
    if |roll| >= 1 && roll[0] == face && roll[1..] in tails {
      var i :| 0 <= i < |tails| && tails[i] == roll[1..];
      assert p[i] == roll;
    }
  }

  lemma {:induction false} ExtendMembership(faces: Die, tails: seq<seq<int>>, roll: seq<int>)
    ensures roll in Extend(faces, tails) <==> |roll| >= 1 && roll[0] in faces && roll[1..] in tails
  {
    if |faces| > 0 {
      PrependMembership(faces[0], tails, roll);
      ExtendMembership(faces[1..], tails, roll);
      assert roll in Extend(faces, tails) <==>
        roll in Prepend(faces[0], tails) || roll in Extend(faces[1..], tails);
      if |roll| >= 1 {
        assert roll[0] in faces <==> roll[0] == faces[0] || roll[0] in faces[1..];
      }
    }
  }

  /** The product lists exactly the throws: a sequence is listed if and
      only if it holds one face of each die. */
  lemma {:induction false} RollsAreExactlyTheThrows(dice: seq<Die>, roll: seq<int>)
    ensures roll in Rolls(dice) <==> IsRoll(dice, roll)
  {
    if |dice| == 0 {
      assert roll in Rolls(dice) <==> roll == [];
    } else {
      ExtendMembership(dice[0], Rolls(dice[1..]), roll);
      if |roll| >= 1 {
        RollsAreExactlyTheThrows(dice[1..], roll[1..]);
        if IsRoll(dice[1..], roll[1..]) && roll[0] in dice[0] {
          forall i | 0 <= i < |dice| ensures roll[i] in dice[i] {
            if i > 0 { assert roll[i] == roll[1..][i - 1]; }
          }
        }
        if IsRoll(dice, roll) {
          forall i | 0 <= i < |dice| - 1 ensures roll[1..][i] in dice[1..][i] {
            assert roll[i + 1] in dice[i + 1];
          }
        }
      }
    }
  }

  /** The throws roll_dice can make are exactly the throws of the product:
      every choice of faces gives one of them, and each of them is given by
      some choice of faces. */
  lemma ThrowsAreTheProduct(dice: seq<Die>, roll: seq<int>)
    ensures roll in Rolls(dice) <==>
      exists picks :: ValidPicks(dice, picks) && RollDice(dice, picks) == roll
  {
    RollsAreExactlyTheThrows(dice, roll);
    if IsRoll(dice, roll) {
      var picks := seq(|dice|, i requires 0 <= i < |dice| => IndexOf(dice[i], roll[i]));
      assert ValidPicks(dice, picks);
      assert RollDice(dice, picks) == roll;
    }
  }

  // ------------------------------------------------------------------
  // The sums of all throws, computed without listing the throws
  // ------------------------------------------------------------------

  /** Every sum raised by `k`. */
  function Shift(sums: seq<int>, k: int): (r: seq<int>)
    ensures |r| == |sums|
  {
    seq(|sums|, i requires 0 <= i < |sums| => sums[i] + k)
  }

  function ShiftAll(faces: Die, sums: seq<int>): seq<int> {
    if |faces| == 0 then [] else Shift(sums, faces[0]) + ShiftAll(faces[1..], sums)
  }

  /** The sum of every throw, in the order of the product, built die by
      die from the sums of the remaining dice. */
  function Sums(dice: seq<Die>): seq<int> {
    if |dice| == 0 then [0] else ShiftAll(dice[0], Sums(dice[1..]))
  }

  /** The distribution of the sum of a throw: each possible sum, as many
      times as there are throws with that sum. */
  ghost function SumDistribution(dice: seq<Die>): multiset<int> {
    multiset(Sums(dice))
  }

  lemma {:induction false} ShiftAllMatchesExtend(faces: Die, tails: seq<seq<int>>, sums: seq<int>)
    requires |sums| == |tails| && forall j :: 0 <= j < |tails| ==> sums[j] == Sum(tails[j])
    ensures |ShiftAll(faces, sums)| == |Extend(faces, tails)|
    ensures forall i :: 0 <= i < |ShiftAll(faces, sums)| ==>
      ShiftAll(faces, sums)[i] == Sum(Extend(faces, tails)[i])
  {
    if |faces| > 0 {
      ShiftAllMatchesExtend(faces[1..], tails, sums);
      var p := Prepend(faces[0], tails);
      forall j | 0 <= j < |tails| ensures Shift(sums, faces[0])[j] == Sum(p[j]) {
        assert p[j][1..] == tails[j];
      }
    }
  }

  /** The i-th sum is the sum of the i-th throw of the product. */
  lemma {:induction false} SumsMatchRolls(dice: seq<Die>)
    ensures |Sums(dice)| == |Rolls(dice)|
    ensures forall i :: 0 <= i < |Sums(dice)| ==> Sums(dice)[i] == Sum(Rolls(dice)[i])
  {
    if |dice| > 0 {
      SumsMatchRolls(dice[1..]);
      ShiftAllMatchesExtend(dice[0], Rolls(dice[1..]), Sums(dice[1..]));
    }
  }

  /** The distribution has one entry per throw, and every sum in it is a
      sum some throw reaches, between the lowest and the highest sum. */
  lemma DistributionBounds(dice: seq<Die>, s: int)
    ensures |SumDistribution(dice)| == ProductOfLengths(dice)
    ensures s in SumDistribution(dice) ==> exists roll :: IsRoll(dice, roll) && Sum(roll) == s
    ensures NonEmptyDice(dice) && s in SumDistribution(dice) ==> MinSum(dice) <= s <= MaxSum(dice)
    ensures forall roll :: IsRoll(dice, roll) ==> Sum(roll) in SumDistribution(dice)
  {
    SumsMatchRolls(dice);
    RollsCount(dice);
    forall roll | IsRoll(dice, roll) ensures Sum(roll) in SumDistribution(dice) {
      RollsAreExactlyTheThrows(dice, roll);
      var i :| 0 <= i < |Rolls(dice)| && Rolls(dice)[i] == roll;
      assert Sums(dice)[i] == Sum(roll);
    }
    if s in SumDistribution(dice) {
      var i :| 0 <= i < |Sums(dice)| && Sums(dice)[i] == s;
      var roll := Rolls(dice)[i];
      RollsAreExactlyTheThrows(dice, roll);
      if NonEmptyDice(dice) {
        RollSumBounds(dice, roll);
      }
    }
  }
}
