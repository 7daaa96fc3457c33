/**
 * The hand of the `Blackjack-game` tree (`Blackjack-game/.../model/Hand.java`): the
 * total starts as the sum of the cards' values, then, while it exceeds 21, one card of
 * rank "A" at a time is demoted (-10).
 */
module AceDowngradeHand {
  import opened Cards

  const AceRank: string := "A"

  predicate IsAce(c: Card) {
    c.rank == AceRank
  }

  /** `addCard`: the card goes to the end, earlier cards stay where they were. */
  function AddCard(h: seq<Card>, c: Card): (r: seq<Card>)
    ensures |r| == |h| + 1 && r[|h|] == c && r[..|h|] == h
  {
    h + [c]
  }

  /** `clear`: nothing is left in the hand. */
  function Clear(h: seq<Card>): (r: seq<Card>)
    ensures |r| == 0
  {
    []
  }

  /** The sum of the cards' values (the first loop of `getTotalValue`). */
  function Sum(h: seq<Card>): int {
    if h == [] then 0 else Sum(h[..|h| - 1]) + h[|h| - 1].value
  }

  function AceCount(h: seq<Card>): nat {
    if h == [] then 0 else AceCount(h[..|h| - 1]) + (if IsAce(h[|h| - 1]) then 1 else 0)
  }

  /**
   * How many aces the demotion loop lowers: the fewest that bring the total to 21 or
   * below, or all of them when even that is not enough.
   */
  function Demotions(total: int, aces: nat): (j: nat)
    ensures j <= aces
    ensures j > 0 ==> total - 10 * (j - 1) > 21
    ensures j == aces || total - 10 * j <= 21
    decreases aces
  {
    if total > 21 && aces > 0 then 1 + Demotions(total - 10, aces - 1) else 0
  }

  /** `getTotalValue`. */
  function Total(h: seq<Card>): (t: int)
    ensures h == [] ==> t == 0
    ensures Sum(h) - 10 * AceCount(h) <= t <= Sum(h)
    ensures (Sum(h) - t) % 10 == 0
    ensures Sum(h) <= 21 ==> t == Sum(h)
    ensures t > 21 ==> t == Sum(h) - 10 * AceCount(h)
    ensures t == Sum(h) || t + 10 > 21
  {
    Sum(h) - 10 * Demotions(Sum(h), AceCount(h))
  }

  lemma {:induction false} AddCardTotals(h: seq<Card>, c: Card)
    ensures Sum(AddCard(h, c)) == Sum(h) + c.value
    ensures AceCount(AddCard(h, c)) == AceCount(h) + (if IsAce(c) then 1 else 0)
  {
    assert AddCard(h, c)[..|h|] == h;
  }

  /** A hand without a card of rank "A" is never adjusted: its total is its sum. */
  lemma {:induction false} NoAceMeansSum(h: seq<Card>)
    requires forall c | c in h :: !IsAce(c)
    ensures AceCount(h) == 0
    ensures Total(h) == Sum(h)
  {
    if h != [] {
      assert forall c | c in h[..|h| - 1] :: c in h;
      NoAceMeansSum(h[..|h| - 1]);
      assert h[|h| - 1] in h;
    }
  }

  /** The two loops of `getTotalValue` as written: sum while counting aces, then demote. */
  method GetTotalValue(cards: seq<Card>) returns (total: int)
    ensures total == Total(cards)
  {
    total := 0;
    var aceCount := 0;
    var i := 0;
    while i < |cards|
      invariant 0 <= i <= |cards|
      invariant total == Sum(cards[..i])
      invariant aceCount == AceCount(cards[..i])
    {
      assert cards[..i + 1][..i] == cards[..i];
      total := total + cards[i].value;
      if cards[i].rank == "A" {
        aceCount := aceCount + 1;
      }
      i := i + 1;
    }
    assert cards[..i] == cards;
    while total > 21 && aceCount > 0
      invariant aceCount >= 0
      invariant total - 10 * Demotions(total, aceCount) == Total(cards)
      decreases aceCount
    {
      total := total - 10;
      aceCount := aceCount - 1;
    }
  }
}
