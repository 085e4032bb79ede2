/**
 * A game of several rounds: play_game in Dice_Game.py. The configuration
 * is checked, the help table is computed over the first three dice, and
 * then in each round the computer and the user each throw all the dice;
 * the higher sum wins the round, and the player with more round wins
 * wins the game.
 *
 * What play_game prints is returned instead: the help table, each
 * round's throws and winner, the final scores and the verdict.
 */
module Game {
  import opened Validation
  import opened Throws
  import opened Probabilities

  datatype Option<T> = None | Some(value: T)

  /** Who takes a round. */
  datatype RoundWinner = ComputerRound | UserRound | TiedRound

  /** Who takes the game. */
  datatype Verdict = UserWinsGame | ComputerWinsGame | GameTied

  datatype Scores = Scores(user: nat, computer: nat)

  /** One round as it is shown: both throws and who took it. */
  datatype RoundRecord = RoundRecord(computerRoll: seq<int>, userRoll: seq<int>, winner: RoundWinner)

  datatype GameReport = GameReport(
    helpTable: map<int, Ratio>,
    rounds: seq<RoundRecord>,
    userScore: nat,
    computerScore: nat,
    verdict: Verdict)

  /** The round rule: the strictly higher sum takes the round, equal sums
      are a tie. */
  function JudgeRound(computerSum: int, userSum: int): (w: RoundWinner)
    ensures w == ComputerRound <==> computerSum > userSum
    ensures w == UserRound <==> userSum > computerSum
    ensures w == TiedRound <==> computerSum == userSum
  {
    if computerSum > userSum then ComputerRound
    else if userSum > computerSum then UserRound
    else TiedRound
  }

  /** One round: both players throw every die, with the faces the random
      source picks, and the sums are compared. */
  function PlayRound(dice: seq<Die>, computerPicks: seq<nat>, userPicks: seq<nat>): (r: RoundRecord)
    requires ValidPicks(dice, computerPicks) && ValidPicks(dice, userPicks)
    ensures IsRoll(dice, r.computerRoll) && IsRoll(dice, r.userRoll)
    ensures r.winner == ComputerRound <==> Sum(r.computerRoll) > Sum(r.userRoll)
    ensures r.winner == UserRound <==> Sum(r.userRoll) > Sum(r.computerRoll)
  {
    var computerRoll := RollDice(dice, computerPicks);
    var userRoll := RollDice(dice, userPicks);
    RoundRecord(computerRoll, userRoll, JudgeRound(Sum(computerRoll), Sum(userRoll)))
  }

  function Winners(rounds: seq<RoundRecord>): (w: seq<RoundWinner>)
    ensures |w| == |rounds| && forall k :: 0 <= k < |rounds| ==> w[k] == rounds[k].winner
  {
    seq(|rounds|, k requires 0 <= k < |rounds| => rounds[k].winner)
  }

  /** The scores after the given rounds, kept the way the game keeps them:
      the round's winner gets one point and a tie gives none. Each player
      ends with the number of rounds they took. */
  function Score(winners: seq<RoundWinner>): (s: Scores)
    ensures s.user == multiset(winners)[UserRound]
    ensures s.computer == multiset(winners)[ComputerRound]
  {
    if |winners| == 0 then Scores(0, 0)
    else
      var before := Score(winners[..|winners| - 1]);
      assert winners == winners[..|winners| - 1] + [winners[|winners| - 1]];
      match winners[|winners| - 1]
      case ComputerRound => Scores(before.user, before.computer + 1)
      case UserRound => Scores(before.user + 1, before.computer)
      case TiedRound => before
  }

  /** Every round is won by one player or tied. */
  lemma {:induction false} RoundsByOutcome(winners: seq<RoundWinner>)
    ensures multiset(winners)[UserRound] + multiset(winners)[ComputerRound]
            + multiset(winners)[TiedRound] == |winners|
  {
    if |winners| > 0 {
      RoundsByOutcome(winners[1..]);
      assert winners == [winners[0]] + winners[1..];
      assert multiset(winners) == multiset{winners[0]} + multiset(winners[1..]);
      match winners[0]
      case UserRound =>
      case ComputerRound =>
      case TiedRound =>
    }
  }

  /** Over n rounds the two scores add up to n less the number of ties,
      so never to more than n. */
  lemma ScoreBound(winners: seq<RoundWinner>)
    ensures Score(winners).user + Score(winners).computer
            == |winners| - multiset(winners)[TiedRound]
    ensures Score(winners).user + Score(winners).computer <= |winners|
  {
    RoundsByOutcome(winners);
  }

  /** Each round does exactly one of three things: the computer's score
      goes up by one when its sum is higher, the user's when theirs is,
      and nothing changes on a tie. */
  lemma RoundScoring(winners: seq<RoundWinner>, computerSum: int, userSum: int)
    ensures var before, after := Score(winners), Score(winners + [JudgeRound(computerSum, userSum)]);
      || (computerSum > userSum && after == Scores(before.user, before.computer + 1))
      || (userSum > computerSum && after == Scores(before.user + 1, before.computer))
      || (computerSum == userSum && after == before)
  {
  }

  /** The scores after one more round, in terms of the scores before it. */
  lemma ScoreAfterRound(played: seq<RoundRecord>, round: RoundRecord)
    ensures var before := Score(Winners(played));
      Score(Winners(played + [round])) ==
        match round.winner
        case ComputerRound => Scores(before.user, before.computer + 1)
        case UserRound => Scores(before.user + 1, before.computer)
        case TiedRound => before
  {
    assert Winners(played + [round]) == Winners(played) + [round.winner];
    assert (Winners(played) + [round.winner])[..|played|] == Winners(played);
  }

  /** The final verdict: the user takes the game with more round wins, the
      computer with more round wins, otherwise it is a tie. */
  function FinalVerdict(userScore: nat, computerScore: nat): (v: Verdict)
    ensures v == UserWinsGame <==> userScore > computerScore
    ensures v == ComputerWinsGame <==> computerScore > userScore
    ensures v == GameTied <==> userScore == computerScore
  {
    if userScore > computerScore then UserWinsGame
    else if computerScore > userScore then ComputerWinsGame
    else GameTied
  }

  /** `range(1, rounds + 1)` has this many elements. */
  function RoundCount(rounds: int): nat {
    if rounds > 0 then rounds else 0
  }

  /** Face choices for every round of a game. */
  predicate PicksForRounds(dice: seq<Die>, rounds: int, picks: seq<seq<nat>>) {
    |picks| == RoundCount(rounds) && PicksFor(dice, picks)
  }

  /** `dice[:3]`. */
  function FirstThree(dice: seq<Die>): (r: seq<Die>)
    ensures |r| == if |dice| < 3 then |dice| else 3
    ensures r == dice[..|r|]
  {
    if |dice| < 3 then dice else dice[..3]
  }

  /** Face choices for `n` rounds, each valid for the dice. */
  predicate PicksFor(dice: seq<Die>, picks: seq<seq<nat>>) {
    forall k :: 0 <= k < |picks| ==> ValidPicks(dice, picks[k])
  }

  /** The rounds played with the given face choices, one round each. */
  function RoundsPlayed(dice: seq<Die>, computerPicks: seq<seq<nat>>, userPicks: seq<seq<nat>>): (r: seq<RoundRecord>)
    requires |computerPicks| == |userPicks|
    requires PicksFor(dice, computerPicks) && PicksFor(dice, userPicks)
    ensures |r| == |computerPicks|
  {
    seq(|computerPicks|, k requires 0 <= k < |computerPicks| =>
      PlayRound(dice, computerPicks[k], userPicks[k]))
  }

  lemma RoundsPlayedStep(dice: seq<Die>, computerPicks: seq<seq<nat>>, userPicks: seq<seq<nat>>, k: nat)
    requires |computerPicks| == |userPicks| && k < |computerPicks|
    requires PicksFor(dice, computerPicks) && PicksFor(dice, userPicks)
    ensures RoundsPlayed(dice, computerPicks[..k + 1], userPicks[..k + 1])
         == RoundsPlayed(dice, computerPicks[..k], userPicks[..k])
            + [PlayRound(dice, computerPicks[k], userPicks[k])]
  {
  }

  /** The round loop of play_game: `n` rounds, each played with its own
      face choices, the round's winner getting one point. */
  method PlayRounds(dice: seq<Die>, n: nat, computerPicks: seq<seq<nat>>, userPicks: seq<seq<nat>>)
    returns (played: seq<RoundRecord>, totalUserScore: nat, totalComputerScore: nat)
    requires |computerPicks| == n && |userPicks| == n
    requires PicksFor(dice, computerPicks) && PicksFor(dice, userPicks)
    ensures played == RoundsPlayed(dice, computerPicks, userPicks)
    ensures Scores(totalUserScore, totalComputerScore) == Score(Winners(played))
    ensures totalUserScore + totalComputerScore <= n
  {
    totalUserScore, totalComputerScore := 0, 0;
    played := [];
    for k := 0 to n
      invariant played == RoundsPlayed(dice, computerPicks[..k], userPicks[..k])
      invariant Scores(totalUserScore, totalComputerScore) == Score(Winners(played))
    {
      var computerRoll, userRoll := RollDice(dice, computerPicks[k]), RollDice(dice, userPicks[k]);
      var computerSum, userSum := Sum(computerRoll), Sum(userRoll);
      if computerSum > userSum {
        totalComputerScore := totalComputerScore + 1;
      } else if userSum > computerSum {
        totalUserScore := totalUserScore + 1;
      }
      var round := RoundRecord(computerRoll, userRoll, JudgeRound(computerSum, userSum));
      RoundsPlayedStep(dice, computerPicks, userPicks, k);
      ScoreAfterRound(played, round);
      played := played + [round];
    }
    assert computerPicks[..n] == computerPicks && userPicks[..n] == userPicks;
    ScoreBound(Winners(played));
  }

  /** play_game. `computerPicks[k]` and `userPicks[k]` are the faces the
      random source picks for the two throws of round k + 1; they are only
      needed when the dice pass validation (otherwise no die is thrown). */
  method PlayGame(dice: seq<Die>, rounds: int, computerPicks: seq<seq<nat>>, userPicks: seq<seq<nat>>)
    returns (report: Option<GameReport>)
    requires ValidDice(dice) ==>
      PicksForRounds(dice, rounds, computerPicks) && PicksForRounds(dice, rounds, userPicks)
    ensures report.None? <==> !ValidDice(dice)
    ensures report.Some? ==>
      var g := report.value;
      && Tabulates(g.helpTable, FirstThree(dice))
      && (forall s :: s in g.helpTable ==> g.helpTable[s].den == Pow(FACES, |FirstThree(dice)|))
      && |g.rounds| == RoundCount(rounds)
      && g.rounds == RoundsPlayed(dice, computerPicks, userPicks)
      && Scores(g.userScore, g.computerScore) == Score(Winners(g.rounds))
      && g.userScore + g.computerScore <= RoundCount(rounds)
      && g.verdict == FinalVerdict(g.userScore, g.computerScore)
  {
    ValidateIntDice(dice);
    if !InitializeGame(ToPyDice(dice)) {
      return None;
    }
    var helpTable := CalculateProbabilities(FirstThree(dice));
    SixFacedRollCount(FirstThree(dice));
    var played, totalUserScore, totalComputerScore :=
      PlayRounds(dice, RoundCount(rounds), computerPicks, userPicks);
    report := Some(GameReport(helpTable, played, totalUserScore, totalComputerScore,
                              FinalVerdict(totalUserScore, totalComputerScore)));
  }
}
