/**
 * `generateDeck` spells its aces "Ace", while the `Hand` of its own source tree
 * recognises only "A". Built against that hand, the engine would count every ace as
 * 11 and never demote it. The engine model uses the ace-promoting hand of the
 * top-level tree instead, which recognises "Ace".
 */
module AceSpelling {
  import opened Cards
  import Up = AceUpgradeHand
  import Down = AceDowngradeHand
  import G = GameService

  /** No rank of `generateDeck` is the "A" the `Blackjack-game` hand looks for. */
  lemma ServiceCardsAreNeverDemotable(c: Card)
    requires G.ServiceCard(c)
    ensures !Down.IsAce(c)
  {
    var i :| 0 <= i < |G.ServiceRanks| && c.rank == G.ServiceRanks[i];
  }

  /** As written: on `generateDeck` cards the `Blackjack-game` hand's total is the plain sum. */
  lemma DemotingHandIgnoresServiceAces(h: seq<Card>)
    requires forall c | c in h :: G.ServiceCard(c)
    ensures Down.AceCount(h) == 0
    ensures Down.Total(h) == Down.Sum(h)
  {
    forall c | c in h ensures !Down.IsAce(c) {
      ServiceCardsAreNeverDemotable(c);
    }
    Down.NoAceMeansSum(h);
  }

  /**
   * Two aces dealt from `generateDeck`: the `Blackjack-game` hand totals them 22, a
   * bust, where the ace-promoting hand the engine model uses totals them 12.
   */
  lemma PairOfAces()
    ensures G.ServiceCard(Card("Ace", "Spades", 11)) && G.ServiceCard(Card("Ace", "Hearts", 11))
    ensures Down.Total([Card("Ace", "Spades", 11), Card("Ace", "Hearts", 11)]) == 22
    ensures Up.Total([Card("Ace", "Spades", 11), Card("Ace", "Hearts", 11)]) == 12
  {
    var a, b := Card("Ace", "Spades", 11), Card("Ace", "Hearts", 11);
    assert G.ServiceRanks[12] == a.rank && G.ServiceValues[12] == 11 && a.suit in Suits && b.suit in Suits;
    Down.AddCardTotals([], a);
    Down.AddCardTotals([a], b);
    Up.AddCardTotals([], a);
    Up.AddCardTotals([a], b);
    assert Down.AddCard([], a) == [a] && Down.AddCard([a], b) == [a, b];
    assert Up.IsAce(a) && Up.IsAce(b) && !Down.IsAce(a) && !Down.IsAce(b);
    assert Up.Promotions(12, 1) == 0;
  }
}
