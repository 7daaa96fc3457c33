/**
 * How the two hand-total algorithms relate. Promoting aces from 1 upwards and
 * demoting them from 11 downwards pick the same total; the algorithms differ only
 * in the spelling of the ace rank they recognise ("Ace" versus "A").
 */
module HandAgreement {
  import opened Cards
  import Up = AceUpgradeHand
  import Down = AceDowngradeHand

  /**
   * Starting from the all-ones total and promoting, or from the all-elevens total and
   * demoting, leaves the same number of aces counted as 11.
   */
  lemma PromotionsMatchDemotions(base: int, aces: nat)
    ensures Up.Promotions(base, aces) + Down.Demotions(base + 10 * aces, aces) == aces
  {
  }

  /** Respell a top-level-tree ace as a `Blackjack-game`-tree ace. */
  function Respell(c: Card): Card {
    if Up.IsAce(c) then c.(rank := Down.AceRank) else c
  }

  function RespellHand(h: seq<Card>): (r: seq<Card>)
    ensures |r| == |h|
    ensures forall i | 0 <= i < |h| :: r[i] == Respell(h[i])
  {
    seq(|h|, i requires 0 <= i < |h| => Respell(h[i]))
  }

  /** Cards named and valued as `generateDeck` names them: aces are "Ace" and worth 11. */
  predicate ServiceNamed(h: seq<Card>) {
    forall c | c in h :: !Down.IsAce(c) && (Up.IsAce(c) ==> c.value == 11)
  }

  lemma {:induction false} RespellTotals(h: seq<Card>)
    requires ServiceNamed(h)
    ensures Down.Sum(RespellHand(h)) == Up.BaseTotal(h) + 10 * Up.AceCount(h)
    ensures Down.AceCount(RespellHand(h)) == Up.AceCount(h)
  {
    if h != [] {
      var init := h[..|h| - 1];
      assert forall c | c in init :: c in h;
      RespellTotals(init);
      assert RespellHand(h)[..|h| - 1] == RespellHand(init);
      assert h[|h| - 1] in h;
    }
  }

  /**
   * Once the ace spelling is reconciled, the `Blackjack-game` hand totals a hand of
   * `generateDeck` cards exactly as the top-level hand does.
   */
  lemma RespelledHandsAgree(h: seq<Card>)
    requires ServiceNamed(h)
    ensures Down.Total(RespellHand(h)) == Up.Total(h)
  {
    RespellTotals(h);
    PromotionsMatchDemotions(Up.BaseTotal(h), Up.AceCount(h));
  }
}
