/**
 * The service as its callers see it: players looked up by id in a store, one deck
 * shared by all of them. Saving and loading are plain state passing here.
 */
module ServiceTable {
  import opened Wrappers
  import opened Cards
  import G = GameService

  datatype Table = Table(seats: map<int, G.Seat>, deck: seq<Card>)

  datatype Command = PlaceBet(amount: int) | StartGame | Hit | Stand | DoubleDown | Split | ResetGame

  /** The constructor of `GameService`: no players yet and a freshly generated deck. */
  function NewService(draws: seq<nat>): (t: Table)
    ensures t.seats == map[] && |t.deck| == 52 && DistinctKeys(t.deck)
  {
    Table(map[], G.GenerateDeck(draws))
  }

  /** One command on a player that was found. */
  function Run(s: G.Seat, deck: seq<Card>, cmd: Command, acct: G.Accounting, draws: seq<nat>): G.Step {
    match cmd
    case PlaceBet(amount) => G.PlaceBet(s, deck, amount, acct)
    case StartGame => G.StartGame(s, deck, draws, acct)
    case Hit => G.Hit(s, deck, acct)
    case Stand => G.Stand(s, deck, acct)
    case DoubleDown => G.DoubleDown(s, deck, acct)
    case Split => G.Split(s, deck)
    case ResetGame => G.ResetGame(s, deck, draws)
  }

  /** `split` and `resetGame` return quietly for an unknown id; the other commands throw. */
  predicate SilentWhenMissing(cmd: Command) {
    cmd.Split? || cmd.ResetGame?
  }

  /**
   * A command addressed to player `id`. An unknown id changes nothing. A known id
   * changes that player's record and the shared deck, and no other player's record.
   */
  function Execute(t: Table, id: int, cmd: Command, acct: G.Accounting, draws: seq<nat>): (r: (Table, Result<G.Report, G.Error>))
    ensures id !in t.seats ==> r.0 == t
    ensures id !in t.seats ==> (r.1.Err? <==> !SilentWhenMissing(cmd))
    ensures id !in t.seats && !SilentWhenMissing(cmd) ==> r.1 == Err(G.PlayerNotFound)
    ensures r.0.seats.Keys == t.seats.Keys
    ensures forall k | k in t.seats && k != id :: r.0.seats[k] == t.seats[k]
    ensures id in t.seats ==>
              var st := Run(t.seats[id], t.deck, cmd, acct, draws);
              r.0.seats[id] == st.seat && r.0.deck == st.deck && r.1 == st.result
  {
    if id in t.seats then
      var st := Run(t.seats[id], t.deck, cmd, acct, draws);
      (Table(t.seats[id := st.seat], st.deck), st.result)
    else if SilentWhenMissing(cmd) then (t, Ok(G.Ignored))
    else (t, Err(G.PlayerNotFound))
  }
}
