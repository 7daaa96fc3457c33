/**
 * The hand of the top-level source tree (`src/.../model/Hand.java`): every card of
 * rank "Ace" first counts 1, then aces are promoted to 11 one at a time (+10 each)
 * while the total stays at or below 21.
 */
module AceUpgradeHand {
  import opened Cards

  const AceRank: string := "Ace"

  predicate IsAce(c: Card) {
    c.rank == AceRank
  }

  /** `addCard`: the card goes to the end, earlier cards stay where they were. */
  function AddCard(h: seq<Card>, c: Card): (r: seq<Card>)
    ensures |r| == |h| + 1 && r[|h|] == c && r[..|h|] == h
  {
    h + [c]
  }

  /** `clear`: nothing is left in the hand. */
  function Clear(h: seq<Card>): (r: seq<Card>)
    ensures |r| == 0
  {
    []
  }

  /** What a card adds before any promotion: 1 for an ace, its value otherwise. */
  function LowValue(c: Card): int {
    if IsAce(c) then 1 else c.value
  }

  /** The total with every ace counted as 1 (the first loop of `getTotalValue`). */
  function BaseTotal(h: seq<Card>): int {
    if h == [] then 0 else BaseTotal(h[..|h| - 1]) + LowValue(h[|h| - 1])
  }

  function AceCount(h: seq<Card>): nat {
    if h == [] then 0 else AceCount(h[..|h| - 1]) + (if IsAce(h[|h| - 1]) then 1 else 0)
  }

  /**
   * How many aces the promotion loop raises from 1 to 11: as many as fit under 22,
   * but never more than there are aces.
   */
  function Promotions(total: int, aces: nat): (k: nat)
    ensures k <= aces
    ensures k > 0 ==> total + 10 * k <= 21
    ensures k == aces || total + 10 * (k + 1) > 21
    decreases aces
  {
    if aces > 0 && total + 10 <= 21 then 1 + Promotions(total + 10, aces - 1) else 0
  }

  /** `getTotalValue`. */
  function Total(h: seq<Card>): (t: int)
    ensures h == [] ==> t == 0
    ensures BaseTotal(h) <= t <= BaseTotal(h) + 10 * AceCount(h)
    ensures (t - BaseTotal(h)) % 10 == 0
    ensures BaseTotal(h) <= 21 ==> t <= 21
    ensures BaseTotal(h) > 21 ==> t == BaseTotal(h)
    ensures t == BaseTotal(h) + 10 * AceCount(h) || t + 10 > 21
  {
    BaseTotal(h) + 10 * Promotions(BaseTotal(h), AceCount(h))
  }

  /** The total reached by counting exactly `k` of the hand's aces as 11. */
  function Choice(h: seq<Card>, k: nat): int {
    BaseTotal(h) + 10 * k
  }

  /**
   * The total is the best a player can choose: it is one of the choices, no choice
   * that stays under 22 is higher, and when every choice busts it is the lowest one.
   */
  lemma TotalIsBestChoice(h: seq<Card>)
    ensures exists k :: 0 <= k <= AceCount(h) && Total(h) == Choice(h, k)
    ensures forall k | 0 <= k <= AceCount(h) && Choice(h, k) <= 21 :: Choice(h, k) <= Total(h)
    ensures Total(h) > 21 ==> forall k | 0 <= k <= AceCount(h) :: Choice(h, k) > 21
  {
    assert Total(h) == Choice(h, Promotions(BaseTotal(h), AceCount(h)));
  }

  lemma {:induction false} AddCardTotals(h: seq<Card>, c: Card)
    ensures BaseTotal(AddCard(h, c)) == BaseTotal(h) + LowValue(c)
    ensures AceCount(AddCard(h, c)) == AceCount(h) + (if IsAce(c) then 1 else 0)
  {
    assert AddCard(h, c)[..|h|] == h;
  }

  /** When no card other than an ace is worth less than 0, every ace adds at least 1. */
  lemma {:induction false} BaseCoversAces(h: seq<Card>)
    requires forall c | c in h && !IsAce(c) :: c.value >= 0
    ensures BaseTotal(h) >= AceCount(h)
  {
    if h != [] {
      assert forall c | c in h[..|h| - 1] :: c in h;
      BaseCoversAces(h[..|h| - 1]);
      assert h[|h| - 1] in h;
    }
  }

  /**
   * With cards of non-negative value, at most one ace is ever promoted, so the total
   * is the familiar soft-hand rule.
   */
  lemma AtMostOnePromotion(h: seq<Card>)
    requires forall c | c in h && !IsAce(c) :: c.value >= 0
    ensures Promotions(BaseTotal(h), AceCount(h)) <= 1
    ensures Total(h) == if AceCount(h) > 0 && BaseTotal(h) + 10 <= 21 then BaseTotal(h) + 10 else BaseTotal(h)
  {
    BaseCoversAces(h);
  }

  /**
   * The two loops of `getTotalValue` as written: sum with aces as 1 while counting
   * them, then promote.
   */
  method GetTotalValue(cards: seq<Card>) returns (total: int)
    ensures total == Total(cards)
  {
    total := 0;
    var aceCount := 0;
    var i := 0;
    while i < |cards|
      invariant 0 <= i <= |cards|
      invariant total == BaseTotal(cards[..i])
      invariant aceCount == AceCount(cards[..i])
    {
      assert cards[..i + 1][..i] == cards[..i];
      if cards[i].rank == "Ace" {
        aceCount := aceCount + 1;
        total := total + 1;
      } else {
        total := total + cards[i].value;
      }
      i := i + 1;
    }
    assert cards[..i] == cards;
    while aceCount > 0 && total + 10 <= 21
      invariant aceCount >= 0
      invariant total + 10 * Promotions(total, aceCount) == Total(cards)
      decreases aceCount
    {
      total := total + 10;
      aceCount := aceCount - 1;
    }
  }

  /** Hands that hold several aces. */
  lemma Examples()
    ensures Total([Card("Ace", "Spades", 11), Card("Ace", "Hearts", 11), Card("9", "Clubs", 9)]) == 21
    ensures Total([Card("Ace", "Spades", 11), Card("Ace", "Hearts", 11), Card("Ace", "Clubs", 11)]) == 13
  {
    var a1, a2, a3 := Card("Ace", "Spades", 11), Card("Ace", "Hearts", 11), Card("Ace", "Clubs", 11);
    var n := Card("9", "Clubs", 9);
    assert IsAce(a1) && IsAce(a2) && IsAce(a3) && !IsAce(n);
    AddCardTotals([], a1);
    AddCardTotals([a1], a2);
    AddCardTotals([a1, a2], a3);
    AddCardTotals([a1, a2], n);
    assert AddCard([], a1) == [a1] && AddCard([a1], a2) == [a1, a2];
    assert AddCard([a1, a2], n) == [a1, a2, n] && AddCard([a1, a2], a3) == [a1, a2, a3];
    assert BaseTotal([a1, a2, n]) == 11 && AceCount([a1, a2, n]) == 2;
    assert Promotions(21, 1) == 0;
  }

  /** Two-card hands: two faces, and a natural. */
  lemma TwoCardExamples()
    ensures Total([Card("King", "Spades", 10), Card("Queen", "Hearts", 10)]) == 20
    ensures Total([Card("Ace", "Spades", 11), Card("King", "Hearts", 10)]) == 21
  {
    var a1, k, q := Card("Ace", "Spades", 11), Card("King", "Spades", 10), Card("Queen", "Hearts", 10);
    assert IsAce(a1) && !IsAce(k) && !IsAce(q);
    AddCardTotals([], a1);
    AddCardTotals([a1], Card("King", "Hearts", 10));
    AddCardTotals([], k);
    AddCardTotals([k], q);
    assert AddCard([], a1) == [a1] && AddCard([], k) == [k];
  }
}
