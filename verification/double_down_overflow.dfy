/**
 * `doubleDown` computes `betAmount * 2` in 32-bit `int`. A bet above 2^30 wraps to a
 * negative doubled bet, which passes the `doubledBet <= balance` test. The engine
 * model compares the true double (`GameService.DoubleDown`).
 */
module DoubleDownOverflow {
  import opened Wrappers
  import JavaInt
  import Cards
  import G = GameService

  /** The purse after the guard and the two setters of `doubleDown`, in Java `int` arithmetic. */
  function DoubledAsWritten(p: G.Purse): (r: Option<G.Purse>)
    requires JavaInt.IsInt32(p.balance) && JavaInt.IsInt32(p.bet)
    ensures r.Some? ==> JavaInt.IsInt32(r.value.balance) && JavaInt.IsInt32(r.value.bet)
  {
    var doubled := JavaInt.Wrap32(p.bet * 2);
    if doubled <= p.balance then Some(G.Purse(JavaInt.Wrap32(p.balance - p.bet), doubled)) else None
  }

  /** The purse `GameService.DoubleDown` settles with, or `None` where it refuses. */
  function DoubledIntended(p: G.Purse): (r: Option<G.Purse>)
    ensures r.Some? <==> 2 * p.bet <= p.balance
    ensures r.Some? ==> r.value.bet == 2 * p.bet && r.value.balance == p.balance - p.bet
    ensures r.Some? ==> r.value.bet <= p.balance
  {
    if 2 * p.bet <= p.balance then Some(G.Purse(p.balance - p.bet, 2 * p.bet)) else None
  }

  /** When nothing overflows, the code as written does what the engine model does. */
  lemma AgreesWithoutOverflow(p: G.Purse)
    requires JavaInt.IsInt32(p.balance) && JavaInt.IsInt32(p.bet)
    requires JavaInt.IsInt32(2 * p.bet) && JavaInt.IsInt32(p.balance - p.bet)
    ensures DoubledAsWritten(p) == DoubledIntended(p)
  {
  }

  /**
   * A bet of 1,500,000,000 against a balance of 2,000,000,000: the doubled bet wraps to
   * -1,294,967,296, the guard lets it through, and the bet becomes negative, where the
   * intended double of 3,000,000,000 exceeds the balance and is refused.
   */
  lemma OverflowingBet()
    ensures DoubledAsWritten(G.Purse(2_000_000_000, 1_500_000_000)) == Some(G.Purse(500_000_000, -1_294_967_296))
    ensures DoubledIntended(G.Purse(2_000_000_000, 1_500_000_000)) == None
  {
  }

  /** The engine refuses that double down and leaves the player and the deck alone. */
  lemma EngineRefusesOverflowingBet(s: G.Seat, deck: seq<Cards.Card>, acct: G.Accounting)
    requires s.purse == G.Purse(2_000_000_000, 1_500_000_000)
    ensures G.DoubleDown(s, deck, acct) == G.Step(s, deck, Err(G.InsufficientFunds))
  {
  }
}
