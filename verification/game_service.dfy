/**
 * `GameService`: the blackjack engine. One shared deck, dealt from its front, and
 * per player a hand, a dealer hand, a purse (balance and bet) and a game-in-session
 * flag. Every operation takes the player's state and the deck and returns both,
 * together with a report or the error the source throws. The state is returned on
 * failure too, because two operations change the deck or the player before they throw.
 *
 * Hand totals are the top-level tree's ace-promoting `Hand`, which recognises the
 * "Ace" rank `generateDeck` produces.
 */
module GameService {
  import opened Wrappers
  import opened Cards
  import Shuffle
  import Hand = AceUpgradeHand
  import Settlement

  const ServiceRanks: seq<string> :=
    ["2", "3", "4", "5", "6", "7", "8", "9", "10", "Jack", "Queen", "King", "Ace"]

  /** The value the game gives each rank of `ServiceRanks`, position by position. */
  const ServiceValues: seq<int> := [2, 3, 4, 5, 6, 7, 8, 9, 10, 10, 10, 10, 11]

  /** The rank rule of `generateDeck` gives every rank the value of the game's table. */
  lemma ServiceValueTable()
    ensures |ServiceRanks| == |ServiceValues| == 13
    ensures forall i | 0 <= i < |ServiceRanks| :: RankValue(ServiceRanks[i], Hand.AceRank) == ServiceValues[i]
    ensures Distinct(ServiceRanks) && Distinct(Suits)
  {
    assert "10"[..1] == "1" && "1"[..0] == "";
  }

  /** The cards of `generateDeck` before `Collections.shuffle`. */
  function OrderedDeck(): seq<Card> {
    BuildDeck(ServiceRanks, Suits, Hand.AceRank)
  }

  /** A card `generateDeck` can produce: a rank and suit of the game, valued by the table. */
  predicate ServiceCard(c: Card) {
    TableCard(c, ServiceRanks, ServiceValues, Suits)
  }

  lemma OrderedDeckFacts()
    ensures |OrderedDeck()| == 52
    ensures DistinctKeys(OrderedDeck())
    ensures forall r, s | r in ServiceRanks && s in Suits :: Card(r, s, RankValue(r, Hand.AceRank)) in OrderedDeck()
    ensures forall c | c in OrderedDeck() :: ServiceCard(c)
  {
    ServiceValueTable();
    BuildDeckShape(ServiceRanks, Suits, Hand.AceRank);
    BuildDeckCovers(ServiceRanks, Suits, Hand.AceRank);
    BuildDeckDistinct(ServiceRanks, Suits, Hand.AceRank);
    BuildDeckFollowsTable(ServiceRanks, ServiceValues, Suits, Hand.AceRank);
  }

  /** `generateDeck`: 52 cards, one per rank and suit, each valued by the table, shuffled. */
  function GenerateDeck(draws: seq<nat>): (d: seq<Card>)
    ensures |d| == 52
    ensures DistinctKeys(d)
    ensures forall r, s | r in ServiceRanks && s in Suits :: Card(r, s, RankValue(r, Hand.AceRank)) in d
    ensures forall c | c in d :: ServiceCard(c)
    ensures multiset(d) == multiset(OrderedDeck())
  {
    OrderedDeckFacts();
    Shuffle.Shuffle(OrderedDeck(), draws)
  }

  /** The balance and the current bet. */
  datatype Purse = Purse(balance: int, bet: int)

  /**
   * The player's bet-settling methods `placeBet`, `winBet`, `loseBet` and `push`. Their
   * bodies are not part of this model, so every operation is stated for any of them.
   */
  datatype Accounting = Accounting(
    placeBet: (Purse, int) -> Purse,
    winBet: Purse -> Purse,
    loseBet: Purse -> Purse,
    pushBet: Purse -> Purse)

  function Pay(acct: Accounting, call: Settlement.BetCall, p: Purse): Purse {
    match call
    case WinBet => acct.winBet(p)
    case LoseBet => acct.loseBet(p)
    case PushBet => acct.pushBet(p)
  }

  /** What the engine keeps per player. */
  datatype Seat = Seat(hand: seq<Card>, dealerHand: seq<Card>, purse: Purse, gameStarted: bool)

  datatype Error =
    | PlayerNotFound      // "Player not found."
    | GameInSession       // placeBet while a game is in session
    | GameAlreadyStarted  // startGame twice
    | NoBetPlaced         // startGame with a zero bet
    | InsufficientFunds   // doubleDown beyond the balance
    | CannotSplit         // split of anything but a pair
    | DeckExhausted       // split's `deck.remove(0)` on an empty deck
    | NoDealerCard        // hit's `dealerHand.getCards().get(0)` on an empty dealer hand

  datatype Report =
    | BetPlaced
    | Dealt
    | Continue
    | Settled(outcome: Settlement.Outcome)
    | SplitDone(secondHand: seq<Card>)
    | ResetDone
    | Ignored   // split or resetGame for an unknown player: nothing happens

  datatype Step = Step(seat: Seat, deck: seq<Card>, result: Result<Report, Error>)

  /**
   * `evaluateGame`: judge the seat's two hands and settle the bet with the player's
   * method for the winner. Only the purse changes.
   */
  function Settle(s: Seat, acct: Accounting): (r: (Seat, Settlement.Outcome))
    ensures r.1 == Settlement.Evaluate(Hand.Total(s.hand), |s.hand|, Hand.Total(s.dealerHand), s.purse.bet)
    ensures r.0.hand == s.hand && r.0.dealerHand == s.dealerHand && r.0.gameStarted == s.gameStarted
    ensures Settlement.WinnerOf(r.1.verdict) == Settlement.Player ==> r.0.purse == acct.winBet(s.purse)
    ensures Settlement.WinnerOf(r.1.verdict) == Settlement.Dealer ==> r.0.purse == acct.loseBet(s.purse)
    ensures Settlement.WinnerOf(r.1.verdict) == Settlement.Tie ==> r.0.purse == acct.pushBet(s.purse)
  {
    var o := Settlement.Evaluate(Hand.Total(s.hand), |s.hand|, Hand.Total(s.dealerHand), s.purse.bet);
    (s.(purse := Pay(acct, Settlement.CallOf(o.verdict), s.purse)), o)
  }

  /** `placeBet`: refused while a game is in session; otherwise the player's own method runs. */
  function PlaceBet(s: Seat, deck: seq<Card>, amount: int, acct: Accounting): (r: Step)
    ensures r.deck == deck
    ensures r.result.Err? <==> s.gameStarted
    ensures s.gameStarted ==> r == Step(s, deck, Err(GameInSession))
    ensures !s.gameStarted ==> r.seat == s.(purse := acct.placeBet(s.purse, amount))
  {
    if s.gameStarted then Step(s, deck, Err(GameInSession))
    else Step(s.(purse := acct.placeBet(s.purse, amount)), deck, Ok(BetPlaced))
  }

  /** The deck `startGame` deals from: the shared deck, or a fresh one when fewer than 4 cards are left. */
  function DeckForDeal(deck: seq<Card>, draws: seq<nat>): (d: seq<Card>)
    ensures |d| >= 4
    ensures |deck| >= 4 ==> d == deck
    ensures |deck| < 4 ==> d == GenerateDeck(draws)
  {
    if |deck| < 4 then GenerateDeck(draws) else deck
  }

  /**
   * `startGame` (with `handleBlackjackWin`): refused while in session or without a bet;
   * otherwise both hands are cleared and the top four cards are dealt player, dealer,
   * player, dealer. A two-card 21 is settled at once and leaves the game out of session.
   */
  function StartGame(s: Seat, deck: seq<Card>, draws: seq<nat>, acct: Accounting): (r: Step)
    ensures s.gameStarted ==> r == Step(s, deck, Err(GameAlreadyStarted))
    ensures !s.gameStarted && s.purse.bet == 0 ==> r == Step(s, deck, Err(NoBetPlaced))
    ensures !s.gameStarted && s.purse.bet != 0 ==>
              && |r.seat.hand| == 2 && |r.seat.dealerHand| == 2
              && DeckForDeal(deck, draws) == [r.seat.hand[0], r.seat.dealerHand[0], r.seat.hand[1], r.seat.dealerHand[1]] + r.deck
              && (r.seat.gameStarted <==> Hand.Total(r.seat.hand) != 21)
              && (Hand.Total(r.seat.hand) == 21 ==>
                    && r.result == Ok(Settled(Settlement.Outcome(Settlement.Blackjack, Settlement.BlackjackPayout(s.purse.bet))))
                    && r.seat.purse == acct.winBet(s.purse))
              && (Hand.Total(r.seat.hand) != 21 ==> r.result == Ok(Dealt) && r.seat.purse == s.purse)
  {
    if s.gameStarted then Step(s, deck, Err(GameAlreadyStarted))
    else if s.purse.bet == 0 then Step(s, deck, Err(NoBetPlaced))
    else
      var d := DeckForDeal(deck, draws);
      var hand := Hand.AddCard(Hand.AddCard(Hand.Clear(s.hand), d[0]), d[2]);
      var dealer := Hand.AddCard(Hand.AddCard(Hand.Clear(s.dealerHand), d[1]), d[3]);
      var dealt := s.(hand := hand, dealerHand := dealer);
      assert d == [d[0], d[1], d[2], d[3]] + d[4..];
      if Hand.Total(hand) == 21 then
        var settled := Settle(dealt, acct);
        Step(settled.0.(gameStarted := false), d[4..], Ok(Settled(settled.1)))
      else
        Step(dealt.(gameStarted := true), d[4..], Ok(Dealt))
  }

  /**
   * `hit`: the front card of the deck joins the player's hand (nothing is dealt from an
   * empty deck). Reading the dealer's face-up card then fails on an empty dealer hand,
   * after the card has been kept; a total over 21 settles as a bust.
   */
  function Hit(s: Seat, deck: seq<Card>, acct: Accounting): (r: Step)
    ensures deck == [] ==> r.seat.hand == s.hand && r.deck == []
    ensures deck != [] ==> r.seat.hand == s.hand + [deck[0]] && r.deck == deck[1..]
    ensures r.seat.dealerHand == s.dealerHand
    ensures s.dealerHand == [] ==>
              r.result == Err(NoDealerCard) && r.seat.purse == s.purse && r.seat.gameStarted == s.gameStarted
    ensures s.dealerHand != [] && Hand.Total(r.seat.hand) > 21 ==>
              && r.result == Ok(Settled(Settlement.Outcome(Settlement.PlayerBust, -s.purse.bet)))
              && r.seat.purse == acct.loseBet(s.purse)
              && !r.seat.gameStarted
    ensures s.dealerHand != [] && Hand.Total(r.seat.hand) <= 21 ==>
              r.result == Ok(Continue) && r.seat.purse == s.purse && r.seat.gameStarted == s.gameStarted
  {
    var s1 := if deck == [] then s else s.(hand := Hand.AddCard(s.hand, deck[0]));
    var deck1 := if deck == [] then deck else deck[1..];
    if s.dealerHand == [] then Step(s1, deck1, Err(NoDealerCard))
    else if Hand.Total(s1.hand) > 21 then
      var settled := Settle(s1, acct);
      Step(settled.0.(gameStarted := false), deck1, Ok(Settled(settled.1)))
    else Step(s1, deck1, Ok(Continue))
  }

  lemma DrawShift(dealer: seq<Card>, deck: seq<Card>)
    requires deck != []
    ensures forall k | 0 <= k < |deck| :: Hand.AddCard(dealer, deck[0]) + deck[1..][..k] == dealer + deck[..k + 1]
  {
    forall k | 0 <= k < |deck| ensures Hand.AddCard(dealer, deck[0]) + deck[1..][..k] == dealer + deck[..k + 1] {
      assert deck[..k + 1] == [deck[0]] + deck[1..][..k];
    }
  }

  /**
   * The dealer loop of `stand`: how many cards the dealer takes from the front of the
   * deck. The dealer draws while the total is below 17, and stops at the first total
   * of 17 or more or when the deck runs out.
   */
  function DealerDraws(dealer: seq<Card>, deck: seq<Card>): (n: nat)
    ensures n <= |deck|
    ensures forall k | 0 <= k < n :: Hand.Total(dealer + deck[..k]) < 17
    ensures n == |deck| || Hand.Total(dealer + deck[..n]) >= 17
    decreases |deck|
  {
    assert dealer + deck[..0] == dealer;
    if Hand.Total(dealer) >= 17 || deck == [] then 0
    else
      var m := DealerDraws(Hand.AddCard(dealer, deck[0]), deck[1..]);
      DrawShift(dealer, deck);
      assert forall k | 1 <= k <= m :: dealer + deck[..k] == Hand.AddCard(dealer, deck[0]) + deck[1..][..k - 1];
      1 + m
  }

  /**
   * `stand`: the dealer plays out from the front of the deck, then the bet is settled
   * and the game leaves session. The player's hand is not touched.
   */
  function Stand(s: Seat, deck: seq<Card>, acct: Accounting): (r: Step)
    ensures r.seat.hand == s.hand && !r.seat.gameStarted
    ensures |s.dealerHand| <= |r.seat.dealerHand| && r.seat.dealerHand[..|s.dealerHand|] == s.dealerHand
    ensures deck == r.seat.dealerHand[|s.dealerHand|..] + r.deck
    ensures Hand.Total(r.seat.dealerHand) >= 17 || r.deck == []
    ensures forall k | |s.dealerHand| <= k < |r.seat.dealerHand| :: Hand.Total(r.seat.dealerHand[..k]) < 17
    ensures var o := Settlement.Evaluate(Hand.Total(s.hand), |s.hand|, Hand.Total(r.seat.dealerHand), s.purse.bet);
            r.result == Ok(Settled(o)) && r.seat.purse == Pay(acct, Settlement.CallOf(o.verdict), s.purse)
  {
    var n := DealerDraws(s.dealerHand, deck);
    var dealer := s.dealerHand + deck[..n];
    assert dealer[..|s.dealerHand|] == s.dealerHand && dealer[|s.dealerHand|..] == deck[..n];
    assert deck == deck[..n] + deck[n..];
    assert forall k | |s.dealerHand| <= k < |dealer| :: dealer[..k] == s.dealerHand + deck[..k - |s.dealerHand|];
    var settled := Settle(s.(dealerHand := dealer), acct);
    Step(settled.0.(gameStarted := false), deck[n..], Ok(Settled(settled.1)))
  }

  /**
   * `doubleDown`: refused, with nothing changed, when twice the bet exceeds the balance.
   * Otherwise the bet doubles, the balance pays the original bet once more, the player
   * takes at most one card from the front of the deck, and `stand` follows.
   */
  function DoubleDown(s: Seat, deck: seq<Card>, acct: Accounting): (r: Step)
    ensures 2 * s.purse.bet > s.purse.balance ==> r == Step(s, deck, Err(InsufficientFunds))
    ensures 2 * s.purse.bet <= s.purse.balance ==>
              var doubled := Purse(s.purse.balance - s.purse.bet, 2 * s.purse.bet);
              && (deck == [] ==> r.seat.hand == s.hand)
              && |s.dealerHand| <= |r.seat.dealerHand|
              && (deck != [] ==> r.seat.hand == s.hand + [deck[0]] && deck[1..] == r.seat.dealerHand[|s.dealerHand|..] + r.deck)
              && r.seat.dealerHand[..|s.dealerHand|] == s.dealerHand
              && (deck == [] ==> r.deck == [] && r.seat.dealerHand == s.dealerHand)
              && (Hand.Total(r.seat.dealerHand) >= 17 || r.deck == [])
              && (forall k | |s.dealerHand| <= k < |r.seat.dealerHand| :: Hand.Total(r.seat.dealerHand[..k]) < 17)
              && !r.seat.gameStarted
              && var o := Settlement.Evaluate(Hand.Total(r.seat.hand), |r.seat.hand|, Hand.Total(r.seat.dealerHand), 2 * s.purse.bet);
                 r.result == Ok(Settled(o)) && r.seat.purse == Pay(acct, Settlement.CallOf(o.verdict), doubled)
  {
    var bet := s.purse.bet;
    if 2 * bet <= s.purse.balance then
      var s1 := s.(purse := Purse(s.purse.balance - bet, 2 * bet));
      var s2 := if deck == [] then s1 else s1.(hand := Hand.AddCard(s1.hand, deck[0]));
      Stand(s2, if deck == [] then deck else deck[1..], acct)
    else
      Step(s, deck, Err(InsufficientFunds))
  }

  /** `split` proceeds only on two cards of the same rank. */
  predicate CanSplit(h: seq<Card>) {
    |h| == 2 && h[0].rank == h[1].rank
  }

  /**
   * `split`: each card of the pair starts a hand with a card from the front of the
   * deck; the first becomes the player's hand and the second is only reported. On a
   * deck of one card the first draw succeeds and the second throws, so that card is lost.
   */
  function Split(s: Seat, deck: seq<Card>): (r: Step)
    ensures !CanSplit(s.hand) ==> r == Step(s, deck, Err(CannotSplit))
    ensures CanSplit(s.hand) && |deck| >= 2 ==>
              && r.seat == s.(hand := [s.hand[0], deck[0]])
              && r.deck == deck[2..]
              && r.result == Ok(SplitDone([s.hand[1], deck[1]]))
    ensures CanSplit(s.hand) && |deck| < 2 ==> r == Step(s, [], Err(DeckExhausted))
  {
    if |s.hand| == 2 && s.hand[0].rank == s.hand[1].rank then
      if deck == [] then Step(s, deck, Err(DeckExhausted))
      else
        var first := [s.hand[0], deck[0]];
        var rest := deck[1..];
        if rest == [] then Step(s, rest, Err(DeckExhausted))
        else
          var second := [s.hand[1], rest[0]];
          Step(s.(hand := first), rest[1..], Ok(SplitDone(second)))
    else
      Step(s, deck, Err(CannotSplit))
  }

  /**
   * `resetGame`: the player's hand is emptied, the bet is zeroed, the game leaves
   * session and the shared deck is replaced by a fresh one. The dealer hand and the
   * balance are left as they were.
   */
  function ResetGame(s: Seat, deck: seq<Card>, draws: seq<nat>): (r: Step)
    ensures r.result == Ok(ResetDone)
    ensures r.seat.hand == [] && r.seat.purse.bet == 0 && !r.seat.gameStarted
    ensures r.seat.dealerHand == s.dealerHand && r.seat.purse.balance == s.purse.balance
    ensures |r.deck| == 52 && DistinctKeys(r.deck) && multiset(r.deck) == multiset(OrderedDeck())
  {
    var cleared := s.(hand := Hand.Clear(s.hand), purse := s.purse.(bet := 0));
    Step(cleared.(gameStarted := false), GenerateDeck(draws), Ok(ResetDone))
  }
}
