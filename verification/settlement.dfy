/**
 * `GameService.evaluateGame`: a first-match decision over the player's total, the
 * player's card count, the dealer's total and the bet, which names a winner, the
 * amount won or lost, and which of the player's bet-settling methods to call.
 */
module Settlement {
  import JavaInt

  /** The five branches of the decision, in the order they are tried. */
  datatype Verdict = Blackjack | PlayerBust | PlayerWin | DealerWin | Push

  datatype Winner = Player | Dealer | Tie

  /** The `Player` method a verdict settles the bet with. */
  datatype BetCall = WinBet | LoseBet | PushBet

  datatype Outcome = Outcome(verdict: Verdict, winnings: int)

  function WinnerOf(v: Verdict): Winner {
    match v
    case Blackjack | PlayerWin => Player
    case PlayerBust | DealerWin => Dealer
    case Push => Tie
  }

  function CallOf(v: Verdict): BetCall {
    match v
    case Blackjack | PlayerWin => WinBet
    case PlayerBust | DealerWin => LoseBet
    case Push => PushBet
  }

  /** A two-card 21. */
  predicate Natural(playerValue: int, playerCards: nat) {
    playerValue == 21 && playerCards == 2
  }

  /** Blackjack pays 3:2: `(int) (1.5 * bet)`, which rounds toward zero. */
  function BlackjackPayout(bet: int): (w: int)
    ensures bet >= 0 ==> w == 3 * bet / 2
  {
    JavaInt.TruncHalf(3 * bet)
  }

  /**
   * `evaluateGame`. Each verdict is characterised on its own, without reference to
   * the order of the branches, so exactly one of them applies to any input.
   */
  function Evaluate(playerValue: int, playerCards: nat, dealerValue: int, bet: int): (o: Outcome)
    ensures o.verdict == Blackjack <==> Natural(playerValue, playerCards)
    ensures o.verdict == PlayerBust <==> playerValue > 21
    ensures o.verdict == PlayerWin <==>
              !Natural(playerValue, playerCards) && playerValue <= 21 && (dealerValue > 21 || playerValue > dealerValue)
    ensures o.verdict == DealerWin <==> dealerValue <= 21 && playerValue < dealerValue
    ensures o.verdict == Push <==> !Natural(playerValue, playerCards) && playerValue == dealerValue <= 21
    ensures o.verdict == Blackjack ==> o.winnings == BlackjackPayout(bet)
    ensures o.verdict in {PlayerBust, DealerWin} ==> o.winnings == -bet
    ensures o.verdict == PlayerWin ==> o.winnings == bet
    ensures o.verdict == Push ==> o.winnings == 0
  {
    if playerValue == 21 && playerCards == 2 then Outcome(Blackjack, BlackjackPayout(bet))
    else if playerValue > 21 then Outcome(PlayerBust, -bet)
    else if dealerValue > 21 || playerValue > dealerValue then Outcome(PlayerWin, bet)
    else if dealerValue > playerValue then Outcome(DealerWin, -bet)
    else Outcome(Push, 0)
  }

  /** For a positive bet the player gains exactly when the player is the winner, and loses exactly when the dealer is. */
  lemma WinningsFollowWinner(playerValue: int, playerCards: nat, dealerValue: int, bet: int)
    requires bet > 0
    ensures var o := Evaluate(playerValue, playerCards, dealerValue, bet);
            && (o.winnings > 0 <==> WinnerOf(o.verdict) == Player)
            && (o.winnings < 0 <==> WinnerOf(o.verdict) == Dealer)
            && (o.winnings == 0 <==> WinnerOf(o.verdict) == Tie)
  {
  }

  /** A busted player loses even when the dealer busts too. */
  lemma BustLosesFirst(playerValue: int, playerCards: nat, dealerValue: int, bet: int)
    requires playerValue > 21
    ensures WinnerOf(Evaluate(playerValue, playerCards, dealerValue, bet).verdict) == Dealer
  {
  }

  /** A natural is paid 3:2 even against a dealer 21: it never pushes. */
  lemma NaturalNeverPushes(dealerValue: int, bet: int)
    ensures Evaluate(21, 2, dealerValue, bet) == Outcome(Blackjack, BlackjackPayout(bet))
  {
  }
}
