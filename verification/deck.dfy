/**
 * `Deck.java`: a stand-alone deck that deals from the END of its list, unlike the
 * engine's own deck, which deals from the front. Its aces are spelled "A".
 */
module Deck {
  import opened Wrappers
  import opened Cards
  import Shuffle

  const DeckRanks: seq<string> := ["2", "3", "4", "5", "6", "7", "8", "9", "10", "J", "Q", "K", "A"]

  /** The value each rank of `DeckRanks` is worth, position by position. */
  const DeckValues: seq<int> := [2, 3, 4, 5, 6, 7, 8, 9, 10, 10, 10, 10, 11]

  const DeckAce: string := "A"

  datatype Deck = Deck(cards: seq<Card>)

  lemma DeckValueTable()
    ensures |DeckRanks| == |DeckValues| == 13
    ensures forall i | 0 <= i < |DeckRanks| :: RankValue(DeckRanks[i], DeckAce) == DeckValues[i]
    ensures Distinct(DeckRanks) && Distinct(Suits)
  {
    assert "10"[..1] == "1" && "1"[..0] == "";
  }

  function OrderedCards(): seq<Card> {
    BuildDeck(DeckRanks, Suits, DeckAce)
  }

  /** A card `initializeDeck` can produce. */
  predicate DeckCard(c: Card) {
    TableCard(c, DeckRanks, DeckValues, Suits)
  }

  lemma OrderedCardsFacts()
    ensures |OrderedCards()| == 52
    ensures DistinctKeys(OrderedCards())
    ensures forall r, s | r in DeckRanks && s in Suits :: Card(r, s, RankValue(r, DeckAce)) in OrderedCards()
    ensures forall c | c in OrderedCards() :: DeckCard(c)
  {
    DeckValueTable();
    BuildDeckShape(DeckRanks, Suits, DeckAce);
    BuildDeckCovers(DeckRanks, Suits, DeckAce);
    BuildDeckDistinct(DeckRanks, Suits, DeckAce);
    BuildDeckFollowsTable(DeckRanks, DeckValues, Suits, DeckAce);
  }

  /** `initializeDeck` (also the constructor): 52 cards, one per rank and suit, shuffled. */
  function InitializeDeck(draws: seq<nat>): (d: Deck)
    ensures |d.cards| == 52
    ensures DistinctKeys(d.cards)
    ensures forall r, s | r in DeckRanks && s in Suits :: Card(r, s, RankValue(r, DeckAce)) in d.cards
    ensures forall c | c in d.cards :: DeckCard(c)
    ensures multiset(d.cards) == multiset(OrderedCards())
  {
    OrderedCardsFacts();
    Deck(Shuffle.Shuffle(OrderedCards(), draws))
  }

  /** `shuffleDeck`: the same cards in another order. */
  function ShuffleDeck(d: Deck, draws: seq<nat>): (r: Deck)
    ensures |r.cards| == |d.cards|
    ensures multiset(r.cards) == multiset(d.cards)
    ensures DistinctKeys(d.cards) ==> DistinctKeys(r.cards)
  {
    Deck(Shuffle.Shuffle(d.cards, draws))
  }

  /** `dealCard`: the last card, removed; `null` from an empty deck, which stays as it is. */
  function DealCard(d: Deck): (r: (Option<Card>, Deck))
    ensures d.cards == [] ==> r == (None, d)
    ensures d.cards != [] ==> r.0 == Some(d.cards[|d.cards| - 1]) && r.1.cards == d.cards[..|d.cards| - 1]
  {
    if d.cards != [] then (Some(d.cards[|d.cards| - 1]), Deck(d.cards[..|d.cards| - 1]))
    else (None, d)
  }

  /** `isEmpty`: exactly the decks from which `dealCard` yields nothing. */
  predicate IsEmpty(d: Deck): (b: bool)
    ensures b <==> DealCard(d).0 == None
  {
    d.cards == []
  }

  /** `reminaingCards` (so spelled in the source): zero exactly when empty, one fewer after a deal. */
  function RemainingCards(d: Deck): (n: nat)
    ensures n == 0 <==> IsEmpty(d)
    ensures !IsEmpty(d) ==> |DealCard(d).1.cards| == n - 1
  {
    |d.cards|
  }

  /** `resetDeck`: a fresh, full deck. */
  function ResetDeck(d: Deck, draws: seq<nat>): (r: Deck)
    ensures |r.cards| == 52 && DistinctKeys(r.cards)
    ensures multiset(r.cards) == multiset(OrderedCards())
  {
    InitializeDeck(draws)
  }

  lemma EmptyIffNoneRemaining(d: Deck)
    ensures IsEmpty(d) <==> RemainingCards(d) == 0
  {
  }

  /** Putting the dealt card back on the end restores the deck; dealing removes exactly that card. */
  lemma DealRoundTrip(d: Deck)
    requires !IsEmpty(d)
    ensures DealCard(d).0.Some?
    ensures DealCard(d).1.cards + [DealCard(d).0.value] == d.cards
    ensures multiset(DealCard(d).1.cards) + multiset{DealCard(d).0.value} == multiset(d.cards)
    ensures RemainingCards(DealCard(d).1) == RemainingCards(d) - 1
  {
    var (c, rest) := DealCard(d);
    assert rest.cards + [c.value] == d.cards;
  }

  /**
   * Dealing `n` times: the cards come off in reverse deck order, and once the deck is
   * empty further deals yield nothing.
   */
  function DealMany(d: Deck, n: nat): (r: (seq<Card>, Deck))
    ensures |r.0| == if n <= |d.cards| then n else |d.cards|
    ensures r.1.cards == d.cards[..|d.cards| - |r.0|]
    ensures forall i | 0 <= i < |r.0| :: r.0[i] == d.cards[|d.cards| - 1 - i]
    decreases n
  {
    if n == 0 then ([], d)
    else
      match DealCard(d)
      case (None, _) => ([], d)
      case (Some(c), rest) =>
        var (more, left) := DealMany(rest, n - 1);
        ([c] + more, left)
  }

  /** Cards dealt from a deck without repeated pairs come out without repeated pairs. */
  lemma DealtCardsDistinct(d: Deck, n: nat)
    requires DistinctKeys(d.cards)
    ensures DistinctKeys(DealMany(d, n).0)
  {
    var r := DealMany(d, n).0;
    var m := |d.cards|;
    forall i, j | 0 <= i < j < |r| ensures Key(r[i]) != Key(r[j]) {
      assert r[i] == d.cards[m - 1 - i] && r[j] == d.cards[m - 1 - j];
      assert m - 1 - j < m - 1 - i;
    }
  }

  /** Dealing a deck as many times as it has cards empties it, and no card comes out twice. */
  lemma DealingEverythingEmptiesTheDeck(d: Deck)
    requires DistinctKeys(d.cards)
    ensures var r := DealMany(d, |d.cards|);
            && IsEmpty(r.1)
            && |r.0| == |d.cards|
            && DistinctKeys(r.0)
  {
    var r := DealMany(d, |d.cards|);
    assert IsEmpty(r.1) by {
      assert |r.0| == |d.cards|;
    }
    DealtCardsDistinct(d, |d.cards|);
  }
}
