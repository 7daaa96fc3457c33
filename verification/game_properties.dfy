/**
 * Properties that relate the engine's operations to one another: where the cards go,
 * what a sequence of commands produces, and which failures leave changes behind.
 */
module GameProperties {
  import opened Wrappers
  import opened Cards
  import opened GameService
  import Hand = AceUpgradeHand
  import Settlement

  /** Every card the player and the deck hold: both hands and the shared deck. */
  function CardsInPlay(s: Seat, deck: seq<Card>): multiset<Card> {
    multiset(s.hand) + multiset(s.dealerHand) + multiset(deck)
  }

  /** `hit` moves a card from the deck to the hand: no card is created or lost. */
  lemma HitKeepsCards(s: Seat, deck: seq<Card>, acct: Accounting)
    ensures var r := Hit(s, deck, acct); CardsInPlay(r.seat, r.deck) == CardsInPlay(s, deck)
  {
    if deck != [] {
      assert deck == [deck[0]] + deck[1..];
    }
  }

  /** The dealer's draws in `stand` come out of the deck: no card is created or lost. */
  lemma StandKeepsCards(s: Seat, deck: seq<Card>, acct: Accounting)
    ensures var r := Stand(s, deck, acct); CardsInPlay(r.seat, r.deck) == CardsInPlay(s, deck)
  {
    var r := Stand(s, deck, acct);
    var n := |s.dealerHand|;
    assert r.seat.dealerHand == s.dealerHand + r.seat.dealerHand[n..];
  }

  /** `doubleDown` moves cards between the deck and the hands only. */
  lemma DoubleDownKeepsCards(s: Seat, deck: seq<Card>, acct: Accounting)
    ensures var r := DoubleDown(s, deck, acct); CardsInPlay(r.seat, r.deck) == CardsInPlay(s, deck)
  {
    if 2 * s.purse.bet <= s.purse.balance {
      var s1 := s.(purse := Purse(s.purse.balance - s.purse.bet, 2 * s.purse.bet));
      var s2 := if deck == [] then s1 else s1.(hand := Hand.AddCard(s1.hand, deck[0]));
      var deck2 := if deck == [] then deck else deck[1..];
      FinalCardKeepsCards(s, s1, deck);
      StandKeepsCards(s2, deck2, acct);
    }
  }

  /** The card `doubleDown` deals before the dealer plays moves from the deck to the hand. */
  lemma FinalCardKeepsCards(s: Seat, s1: Seat, deck: seq<Card>)
    requires s1.hand == s.hand && s1.dealerHand == s.dealerHand
    ensures var s2 := if deck == [] then s1 else s1.(hand := Hand.AddCard(s1.hand, deck[0]));
            var deck2 := if deck == [] then deck else deck[1..];
            CardsInPlay(s2, deck2) == CardsInPlay(s, deck)
  {
    if deck != [] {
      FrontToHand(s1, deck);
    }
  }

  /** Moving the deck's front card onto the end of the hand keeps the cards together. */
  lemma FrontToHand(t: Seat, deck: seq<Card>)
    requires deck != []
    ensures CardsInPlay(t.(hand := t.hand + [deck[0]]), deck[1..]) == CardsInPlay(t, deck)
  {
    assert deck == [deck[0]] + deck[1..];
    assert multiset(t.hand + [deck[0]]) == multiset(t.hand) + multiset{deck[0]};
  }

  /**
   * A successful `split` keeps the first card with a new card as the player's hand;
   * the second card and the card dealt to it leave play, in the reported second hand.
   */
  lemma SplitSetsAsideTwoCards(s: Seat, deck: seq<Card>)
    requires CanSplit(s.hand) && |deck| >= 2
    ensures var r := Split(s, deck);
            && r.result.Ok? && r.result.value.SplitDone?
            && CardsInPlay(r.seat, r.deck) + multiset(r.result.value.secondHand) == CardsInPlay(s, deck)
  {
    var r := Split(s, deck);
    assert s.hand == [s.hand[0], s.hand[1]];
    assert r.seat.hand == [s.hand[0], deck[0]] && r.seat.dealerHand == s.dealerHand;
    assert r.deck == deck[2..] && r.result.value.secondHand == [s.hand[1], deck[1]];
    assert deck == [deck[0], deck[1]] + deck[2..];
    PairAndDeck(s.hand[0], s.hand[1], deck[0], deck[1], multiset(s.dealerHand), multiset(deck[2..]));
  }

  lemma PairAndDeck(a: Card, b: Card, c0: Card, c1: Card, dealer: multiset<Card>, rest: multiset<Card>)
    ensures multiset{a, c0} + dealer + rest + multiset{b, c1}
            == multiset{a, b} + dealer + (multiset{c0, c1} + rest)
  {
  }

  /**
   * `startGame` discards the old hands and deals the new ones from the deck it uses:
   * afterwards the cards in play are exactly that deck's cards.
   */
  lemma StartGameDealsFromTheDeck(s: Seat, deck: seq<Card>, draws: seq<nat>, acct: Accounting)
    requires !s.gameStarted && s.purse.bet != 0
    ensures var r := StartGame(s, deck, draws, acct);
            CardsInPlay(r.seat, r.deck) == multiset(DeckForDeal(deck, draws))
  {
    var r := StartGame(s, deck, draws, acct);
    DealtFour(DeckForDeal(deck, draws), r.seat.hand, r.seat.dealerHand, r.deck);
  }

  lemma DealtFour(d: seq<Card>, h: seq<Card>, dh: seq<Card>, rest: seq<Card>)
    requires |h| == 2 && |dh| == 2
    requires d == [h[0], dh[0], h[1], dh[1]] + rest
    ensures multiset(d) == multiset(h) + multiset(dh) + multiset(rest)
  {
    assert h == [h[0], h[1]] && dh == [dh[0], dh[1]];
    assert multiset(d) == multiset{h[0], dh[0], h[1], dh[1]} + multiset(rest);
    Interleaved(h[0], dh[0], h[1], dh[1], multiset(rest));
  }

  lemma Interleaved(a: Card, b: Card, c: Card, e: Card, rest: multiset<Card>)
    ensures multiset{a, b, c, e} + rest == multiset{a, c} + multiset{b, e} + rest
  {
  }

  /**
   * Reset, a bet the player's method accepts, then start: both hands hold two cards,
   * four cards have left the fresh deck, and the game is in session unless the player
   * was dealt 21.
   */
  lemma ResetBetStart(s: Seat, deck: seq<Card>, amount: int, resetDraws: seq<nat>, startDraws: seq<nat>, acct: Accounting)
    requires acct.placeBet(Purse(s.purse.balance, 0), amount).bet != 0
    ensures var r1 := ResetGame(s, deck, resetDraws);
            var r2 := PlaceBet(r1.seat, r1.deck, amount, acct);
            var r3 := StartGame(r2.seat, r2.deck, startDraws, acct);
            && r3.result.Ok?
            && |r3.seat.hand| == 2 && |r3.seat.dealerHand| == 2
            && |r3.deck| == 48
            && (r3.seat.gameStarted <==> Hand.Total(r3.seat.hand) != 21)
  {
    var r1 := ResetGame(s, deck, resetDraws);
    assert r1.seat.purse == Purse(s.purse.balance, 0);
    var r2 := PlaceBet(r1.seat, r1.deck, amount, acct);
    assert r2.seat == r1.seat.(purse := acct.placeBet(r1.seat.purse, amount));
    assert r2.deck == r1.deck && |r2.deck| == 52;
    StartFromFullDeck(r2.seat, r2.deck, startDraws, acct);
  }

  /** A start on a full deck deals four of its cards and keeps the other 48. */
  lemma StartFromFullDeck(s: Seat, deck: seq<Card>, draws: seq<nat>, acct: Accounting)
    requires !s.gameStarted && s.purse.bet != 0 && |deck| == 52
    ensures var r := StartGame(s, deck, draws, acct);
            && r.result.Ok?
            && |r.seat.hand| == 2 && |r.seat.dealerHand| == 2
            && |r.deck| == 48
            && (r.seat.gameStarted <==> Hand.Total(r.seat.hand) != 21)
  {
    var r := StartGame(s, deck, draws, acct);
    assert DeckForDeal(deck, draws) == deck;
    assert |deck| == 4 + |r.deck|;
  }

  /** Once the dealer has played out, playing again draws nothing. */
  lemma DealerPlaysOnce(dealer: seq<Card>, deck: seq<Card>)
    ensures var n := DealerDraws(dealer, deck); DealerDraws(dealer + deck[..n], deck[n..]) == 0
  {
  }

  /**
   * `stand` does not check that a game is in session, so a second `stand` draws no
   * card, reaches the same verdict and settles the bet a second time.
   */
  lemma StandTwiceSettlesTwice(s: Seat, deck: seq<Card>, acct: Accounting)
    ensures var r1 := Stand(s, deck, acct);
            var r2 := Stand(r1.seat, r1.deck, acct);
            && r2.seat.dealerHand == r1.seat.dealerHand && r2.deck == r1.deck
            && r1.result.Ok? && r1.result.value.Settled?
            && r2.result.Ok? && r2.result.value.Settled?
            && r2.result.value.outcome.verdict == r1.result.value.outcome.verdict
            && r2.seat.purse == Pay(acct, Settlement.CallOf(r1.result.value.outcome.verdict), r1.seat.purse)
  {
    var r1 := Stand(s, deck, acct);
    var n := |r1.seat.dealerHand| - |s.dealerHand|;
    assert r1.seat.dealerHand == s.dealerHand + deck[..n] by {
      assert r1.seat.dealerHand == r1.seat.dealerHand[..|s.dealerHand|] + r1.seat.dealerHand[|s.dealerHand|..];
    }
    DealerPlaysOnce(s.dealerHand, deck);
    var r2 := Stand(r1.seat, r1.deck, acct);
    assert r2.seat.dealerHand == r1.seat.dealerHand + r1.deck[..|r2.seat.dealerHand| - |r1.seat.dealerHand|] by {
      assert r2.seat.dealerHand == r2.seat.dealerHand[..|r1.seat.dealerHand|] + r2.seat.dealerHand[|r1.seat.dealerHand|..];
    }
  }

  // The refusals of `placeBet`, `startGame`, `doubleDown` and `split` (other than the
  // short deck) are checked before anything changes.

  /** A bet refused because a game is in session leaves player and deck alone. */
  lemma RefusedBetChangesNothing(s: Seat, deck: seq<Card>, amount: int, acct: Accounting)
    ensures var r := PlaceBet(s, deck, amount, acct); r.result.Err? ==> r.seat == s && r.deck == deck
  {
  }

  /** A hand that is not a pair is refused with player and deck alone. */
  lemma RefusedSplitChangesNothing(s: Seat, deck: seq<Card>)
    ensures var r := Split(s, deck); r.result == Err(CannotSplit) ==> r.seat == s && r.deck == deck
  {
  }

  /** A start refused (game in session, no bet) leaves player and deck alone. */
  lemma RefusedStartChangesNothing(s: Seat, deck: seq<Card>, draws: seq<nat>, acct: Accounting)
    ensures var r := StartGame(s, deck, draws, acct); r.result.Err? ==> r.seat == s && r.deck == deck
  {
    if !s.gameStarted && s.purse.bet != 0 {
      assert StartGame(s, deck, draws, acct).result.Ok?;
    }
  }

  /** A double down refused for want of funds leaves player and deck alone. */
  lemma RefusedDoubleChangesNothing(s: Seat, deck: seq<Card>, acct: Accounting)
    ensures var r := DoubleDown(s, deck, acct); r.result.Err? ==> r.seat == s && r.deck == deck
  {
    if 2 * s.purse.bet <= s.purse.balance {
      assert DoubleDown(s, deck, acct).result.Ok?;
    }
  }

  /**
   * Two failures do leave changes behind: `hit` keeps the dealt card when the dealer
   * has no face-up card, and `split` on a one-card deck loses that card.
   */
  lemma FailuresThatCommit(s: Seat, c: Card, acct: Accounting)
    ensures s.dealerHand == [] ==>
              var r := Hit(s, [c], acct);
              r.result == Err(NoDealerCard) && r.seat.hand == s.hand + [c] && r.deck == []
    ensures CanSplit(s.hand) ==>
              var r := Split(s, [c]);
              r.result == Err(DeckExhausted) && r.seat == s && r.deck == []
  {
  }

  /** With no card left, a `hit` on a live hand under 22 changes nothing. */
  lemma HitOnEmptyDeck(s: Seat, acct: Accounting)
    requires s.dealerHand != [] && Hand.Total(s.hand) <= 21
    ensures Hit(s, [], acct) == Step(s, [], Ok(Continue))
  {
  }
}
