# Dice game — a verified model

This project models the dice game of `Dice_Game.py` in Dafny. Two players
play several rounds: the computer and the user. In each round both throw
every die, and the higher sum takes the round. The player with more round
wins takes the game. Before the game starts, the dice configuration is
checked. A help table is also built: the exact distribution of the sum of
the first three dice.

The model has four modules, one per concern of `Dice_Game.py`:

- `Validation` (`validation.dfy`): `validate_dice` and `initialize_game`.
  The configuration arrives as an untyped Python value. `PyValue` keeps the
  type tests of `validate_dice`: the configuration must be a list, each die a list,
  and each face an int. A Python bool counts as an int here, as it does in
  Python.
- `Throws` (`throws.dfy`): `roll_dice` and the sum of a throw. It also
  lists every throw in the order `itertools.product(*dice)` gives them. A
  second, independent definition builds the sums of all throws die by die
  (`Sums`); the multiset of those sums is the sum distribution
  (`SumDistribution`).
- `Probabilities` (`probabilities.dfy`): the counting loop of
  `calculate_probabilities`. The `Counter` is a `map<int, nat>` with no
  entry for a sum not yet seen. `TotalCount` adds up all counts of such a
  map. Probabilities are exact ratios `count / total`.
- `Game` (`game.dfy`): the round rule, the round loop that keeps the two
  scores, the final verdict, and `play_game`, which ties these together.

`random.choice` is replaced by the index of the face it picks. The caller
supplies these indices: one list per throw, one index per die.

## Model

| member | source | states |
|---|---|---|
| `Validation.CheckEachDie` | Dice_Game.py:8-10 | The loop over the dice passes exactly when every die is a list of six ints; otherwise it fails with the bad-die error, never the no-dice error. |
| `Validation.ValidateDice` | Dice_Game.py:5-10 | Passes exactly when the value is a non-empty list whose every element is a list of six ints. Fails with the no-dice error exactly when the value is not a list or is empty, whatever else holds. Fails with the bad-die error exactly when it is a non-empty list with some bad die. |
| `Validation.InitializeGame` | Dice_Game.py:27-33 | True exactly when `validate_dice` does not raise, i.e. exactly when the configuration is a non-empty list of lists of six ints. |
| `Validation.ValidateIntDice` | Dice_Game.py:5-10 | On lists of lists of ints, validation accepts exactly at least one die with six faces each; an empty list is rejected with the no-dice error. |
| `Throws.RollDice` | Dice_Game.py:12-13 | The throw is as long as the dice, and its i-th value is the face of die i that the i-th pick selects, so a face of that die. |
| `Throws.ThrowsAreTheProduct` | Dice_Game.py:12-17 | A sequence is a throw of `product(*dice)` exactly when some valid choice of faces makes `roll_dice` return it. |
| `Throws.RollsAreExactlyTheThrows` | Dice_Game.py:17 | A sequence is listed by `product(*dice)` if and only if it has one value per die and each value is a face of its die. |
| `Throws.RollsCount` | Dice_Game.py:17-19 | The product lists as many throws as the product of the numbers of faces. |
| `Throws.SixFacedRollCount` | Dice_Game.py:15-19 | With k six-faced dice, the product of the numbers of faces is 6^k. |
| `Throws.RollSumBounds` | Dice_Game.py:16-18 | The sum of any throw lies between the sum of the lowest faces and the sum of the highest faces. |
| `Throws.SumsMatchRolls` | Dice_Game.py:17-18 | The independent die-by-die sums agree, position by position, with the sums of the throws `product(*dice)` lists. |
| `Throws.DistributionBounds` | Dice_Game.py:16-18 | The distribution has one entry per throw. Every sum in it is the sum of some throw, and lies between the lowest and the highest possible sum; conversely, the sum of every throw is in it. |
| `Probabilities.TotalCountUpdate` | Dice_Game.py:18 | Setting one entry of the counter changes the total of all counts by exactly the difference. |
| `Probabilities.CountSums` | Dice_Game.py:15-19 | After the loop, `total_rolls` is the product of the die lengths (6^k for k six-faced dice). The counter holds exactly the sums of the distribution, each with its multiplicity, so every count is positive. The counts add up to `total_rolls`. Every key lies between the lowest and the highest possible sum. |
| `Probabilities.CalculateProbabilities` | Dice_Game.py:15-20 | The table has one entry per possible sum, equal to the exact ratio of its count to the number of throws. Every probability is positive and at most one, and the numerators add up to the common denominator, so the probabilities add up to one. |
| `Game.JudgeRound` | Dice_Game.py:48-55 | The computer takes the round exactly when its sum is higher, the user exactly when theirs is, and it is a tie exactly when the sums are equal. |
| `Game.PlayRound` | Dice_Game.py:44-55 | Both throws are valid throws of the dice. The round's winner follows the comparison of the two sums. |
| `Game.Score` | Dice_Game.py:41-55 | After any sequence of rounds, each player's score is the number of rounds that player took. |
| `Game.RoundScoring` | Dice_Game.py:48-55 | Each round does exactly one of three things: the computer's score goes up by one on a higher computer sum, the user's on a higher user sum, and neither changes on a tie. |
| `Game.RoundsByOutcome` | Dice_Game.py:48-55 | Every round is won by the user, won by the computer, or tied: the three counts add up to the number of rounds. |
| `Game.ScoreBound` | Dice_Game.py:41-55 | After n rounds the two scores add up to n minus the ties, so never to more than n. |
| `Game.FinalVerdict` | Dice_Game.py:57-62 | The user wins the game exactly when their score is higher, the computer exactly when its score is higher, and otherwise the game is a tie. |
| `Game.PlayRounds` | Dice_Game.py:41-55 | The round loop plays one round per pair of face choices, in order (`RoundsPlayed`). Its scores are those of `Score` over the rounds played, and their sum is at most the number of rounds. |
| `Game.PlayGame` | Dice_Game.py:35-62 | Nothing is played exactly when validation fails. Otherwise the help table is that of the first three dice only, over 6^min(3, k) throws. There are `max(rounds, 0)` rounds, each a `PlayRound` with its own face choices, in order. The scores count the rounds each player took and add up to at most the number of rounds. The verdict is `FinalVerdict` of the two scores. |

## Left out

- The interactive menu, the parsing of the user's input and the replay question (Dice_Game.py:64-101): interactive I/O.
- Everything printed: `display_probabilities` and the messages of `initialize_game` and `play_game`. `PlayGame` returns what would be printed instead: the help table, each round's throws and winner, the scores and the verdict.
- The randomness of `random.choice`: the faces it picks are parameters. The model says nothing about how likely each face is.
- `round(count / total_rolls, 4)`: floating-point rounding. Probabilities are exact ratios.
- `Game.PlayGame` takes the dice already as lists of lists of ints. The type tests of `validate_dice` (`isinstance` on the configuration, the dice and the faces) are modelled on `PyValue` in `Validation.ValidateDice`. `Validation.ValidateIntDice` links the two.
- The insertion order of the `Counter` and of the resulting dict is not modelled: a Dafny map has no order. The help table is displayed sorted in any case.
- `random.choice` on an empty die would raise `IndexError`. This cannot happen in `play_game`, because validated dice have six faces; `Throws.RollDice` requires a valid face index instead.
