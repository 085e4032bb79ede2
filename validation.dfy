/**
 * Checking a dice configuration before a game starts (validate_dice and
 * initialize_game in Dice_Game.py).
 *
 * The configuration arrives as an untyped Python value, so it is modelled
 * by PyValue, which keeps the type tests of validate_dice: the configuration
 * must be a list, each die must be a list, and each face an int.
 */
module Validation {

  /** The number of faces every die must have. */
  const FACES: nat := 6

  /** A Python value. A bool is a Python type of its own, so it has its
      own case `PyBool`; but `isinstance(b, int)` holds of a bool, so
      `IsPyInt` accepts both. `PyOther` stands for every other kind of
      value (a string, a float, a tuple, None, ...). */
  datatype PyValue =
    | PyInt(i: int)
    | PyBool(b: bool)
    | PyList(items: seq<PyValue>)
    | PyOther

  /** The two ValueError conditions of validate_dice. */
  datatype DiceError =
    | NoDice  // the configuration is not a list, or is an empty one
    | BadDie  // some die is not a list of exactly six ints

  /** What validate_dice does: returns normally, or raises ValueError. */
  datatype Outcome = Pass | Fail(error: DiceError)

  /** A die as the rest of the game sees it once it has been checked. */
  type Die = seq<int>

  /** `isinstance(v, int)`: true of ints and of bools. */
  predicate IsPyInt(v: PyValue) {
    v.PyInt? || v.PyBool?
  }

  /** A list of exactly six values that are all ints. */
  predicate IsSixIntDie(v: PyValue) {
    && v.PyList?
    && |v.items| == FACES
    && forall j :: 0 <= j < |v.items| ==> IsPyInt(v.items[j])
  }

  /** The loop of validate_dice: the dice are looked at in order and the
      first one that is not a list of six ints raises. */
  function CheckEachDie(dice: seq<PyValue>): (r: Outcome)
    ensures r == Pass <==> forall i :: 0 <= i < |dice| ==> IsSixIntDie(dice[i])
    ensures r == Pass || r == Fail(BadDie)
  {
    if |dice| == 0 then Pass
    else if !IsSixIntDie(dice[0]) then Fail(BadDie)
    else CheckEachDie(dice[1..])
  }

  /** validate_dice: a non-empty list of dice, each a list of six ints,
      passes; anything else fails with the ValueError it raises. */
  function ValidateDice(dice: PyValue): (r: Outcome)
    ensures r == Pass <==>
      && dice.PyList?
      && |dice.items| >= 1
      && forall i :: 0 <= i < |dice.items| ==> IsSixIntDie(dice.items[i])
    ensures r == Fail(NoDice) <==> !dice.PyList? || |dice.items| == 0
    ensures r == Fail(BadDie) <==>
      && dice.PyList?
      && |dice.items| >= 1
      && exists i :: 0 <= i < |dice.items| && !IsSixIntDie(dice.items[i])
  {
    if !dice.PyList? || |dice.items| < 1 then Fail(NoDice)
    else CheckEachDie(dice.items)
  }

  /** initialize_game: true exactly when validate_dice does not raise.
      (The error message it prints is left out.) */
  function InitializeGame(dice: PyValue): (ok: bool)
    ensures ok <==> ValidateDice(dice) == Pass
    ensures ok <==>
      && dice.PyList?
      && |dice.items| >= 1
      && forall i :: 0 <= i < |dice.items| ==> IsSixIntDie(dice.items[i])
  {
    match ValidateDice(dice)
    case Pass => true
    case Fail(_) => false
  }

  /** The condition validation establishes, on dice that hold ints. */
  predicate ValidDice(dice: seq<Die>) {
    |dice| >= 1 && forall i :: 0 <= i < |dice| ==> |dice[i]| == FACES
  }

  /** The Python value of a list of lists of ints. */
  function ToPyDice(dice: seq<Die>): (v: PyValue)
    ensures v.PyList? && |v.items| == |dice|
    ensures forall i :: 0 <= i < |dice| ==>
      v.items[i].PyList? && |v.items[i].items| == |dice[i]|
      && forall j :: 0 <= j < |dice[i]| ==> v.items[i].items[j] == PyInt(dice[i][j])
  {
    PyList(seq(|dice|, i requires 0 <= i < |dice| =>
      PyList(seq(|dice[i]|, j requires 0 <= j < |dice[i]| => PyInt(dice[i][j])))))
  }

  /** On dice that are lists of ints, the only thing validation can object
      to is the number of dice and the number of faces of each die. */
  lemma ValidateIntDice(dice: seq<Die>)
    ensures InitializeGame(ToPyDice(dice)) <==> ValidDice(dice)
    ensures |dice| == 0 ==> ValidateDice(ToPyDice(dice)) == Fail(NoDice)
  {
  }
}
