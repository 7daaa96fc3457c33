/**
 * `Player.java` of the `Blackjack-game` tree: an id assigned by storage, a username,
 * a balance and a hand. Its hand is that tree's `Hand`, so its value is the
 * ace-demoting total.
 */
module Player {
  import opened Wrappers
  import opened Cards
  import Hand = AceDowngradeHand

  datatype Player = Player(id: Option<int>, username: string, balance: int, hand: seq<Card>)

  /** `Player(username, balance)`: no id until stored, and an empty hand. */
  function New(username: string, balance: int): (p: Player)
    ensures p.id == None && p.username == username && p.balance == balance && p.hand == []
  {
    Player(None, username, balance, [])
  }

  /** `receiveCard`: one card more at the end of the hand; nothing else changes. */
  function ReceiveCard(p: Player, c: Card): (r: Player)
    ensures r.hand == p.hand + [c]
    ensures r.(hand := p.hand) == p
  {
    p.(hand := Hand.AddCard(p.hand, c))
  }

  /** `resetHand`: the hand is emptied; nothing else changes. */
  function ResetHand(p: Player): (r: Player)
    ensures r.hand == []
    ensures r.(hand := p.hand) == p
  {
    p.(hand := Hand.Clear(p.hand))
  }

  /** `calculateHandValue`: the hand's total. */
  function CalculateHandValue(p: Player): (v: int)
    ensures v == Hand.Total(p.hand)
    ensures p.hand == [] ==> v == 0
  {
    Hand.Total(p.hand)
  }

  /** `setBalance`: only the balance changes. */
  function SetBalance(p: Player, balance: int): (r: Player)
    ensures r.balance == balance && r.(balance := p.balance) == p
  {
    p.(balance := balance)
  }

  /** `setHand`: only the hand changes. */
  function SetHand(p: Player, hand: seq<Card>): (r: Player)
    ensures r.hand == hand && r.(hand := p.hand) == p
  {
    p.(hand := hand)
  }

  /** `setUsername`: only the username changes. */
  function SetUsername(p: Player, username: string): (r: Player)
    ensures r.username == username && r.(username := p.username) == p
  {
    p.(username := username)
  }

  /** `setId`: only the id changes. */
  function SetId(p: Player, id: int): (r: Player)
    ensures r.id == Some(id) && r.(id := p.id) == p
  {
    p.(id := Some(id))
  }

  /** Dealing a sequence of cards one `receiveCard` at a time. */
  function ReceiveAll(p: Player, cards: seq<Card>): (r: Player)
    decreases |cards|
  {
    if cards == [] then p else ReceiveAll(ReceiveCard(p, cards[0]), cards[1..])
  }

  /**
   * Receiving cards one at a time builds the hand in deal order and leaves the
   * username and balance alone; resetting forgets them all again.
   */
  lemma {:induction false} ReceiveAllAppends(p: Player, cards: seq<Card>)
    ensures ReceiveAll(p, cards).hand == p.hand + cards
    ensures ReceiveAll(p, cards).(hand := p.hand) == p
    ensures ResetHand(ReceiveAll(p, cards)) == ResetHand(p)
    decreases |cards|
  {
    if cards != [] {
      ReceiveAllAppends(ReceiveCard(p, cards[0]), cards[1..]);
      assert p.hand + [cards[0]] + cards[1..] == p.hand + cards;
    }
  }

  /** A new player's hand, once dealt, is valued on exactly the dealt cards. */
  lemma NewPlayerValue(username: string, balance: int, cards: seq<Card>)
    ensures CalculateHandValue(ReceiveAll(New(username, balance), cards)) == Hand.Total(cards)
  {
    ReceiveAllAppends(New(username, balance), cards);
    assert [] + cards == cards;
  }
}
