# Blackjack rules engine in Dafny

This project models the rules engine of a blackjack game server. The engine covers:

- building and shuffling a 52-card deck;
- dealing from the deck the service shares across players;
- hand totals with ace handling;
- the per-player game state machine: bet, start, hit, stand, double down, split, reset;
- settlement of the bet.

Every operation is a pure function. It takes a player's state and the shared deck, and returns both together with a report or the error the Java code throws. State comes back on failure too, because two operations change the deck or the player before they throw.

Modules, one per source component:

- `Cards`: the card record, the rank-value rule (numeric rank → its number, the ace rank → 11, other ranks → 10) and the rank × suit construction loop that both deck builders share.
- `Shuffle`: `Collections.shuffle` as the Fisher–Yates walk it performs on an `ArrayList`. The random generator is a parameter `draws`, where `draws[k]` is the k-th `nextInt` result.
- `AceUpgradeHand`: the hand of the top-level tree. Aces are spelled "Ace", count 1, and are then promoted by +10 while the total stays at or below 21.
- `AceDowngradeHand`: the hand of the `Blackjack-game` tree. Values are summed, and aces spelled "A" are then demoted by −10 while the total exceeds 21.
- `HandAgreement`: both algorithms pick the same total once the ace spelling is reconciled.
- `Settlement`: `evaluateGame` as a pure decision over player total, player card count, dealer total and bet.
- `GameService`: `generateDeck`, the `placeBet` guard, `startGame`/`handleBlackjackWin`, `hit`, the dealer loop and `stand`, `doubleDown`, `split` and `resetGame`.
- `ServiceTable`: players looked up by id in a store, with one deck shared by all of them.
- `GameProperties`: lemmas that relate the operations to one another.
- `Deck`: the stand-alone `Deck.java`, which deals from the end of its list.
- `Player`: `Player.java`.
- `AceSpelling` and `DoubleDownOverflow`: the two findings below.

Parameters stand in for things the code calls but that are not modelled:

- Randomness is the `draws` parameter.
- The bet-settling methods of the engine's player (`placeBet`, `winBet`, `loseBet`, `push`) are not shown in the source. They are the four function fields of `GameService.Accounting` over `Purse(balance, bet)`, and every property holds for any choice of them. The only balance arithmetic specified is the arithmetic `GameService` itself performs in `doubleDown`.
- Storage (`findById`/`save`) is plain state passing.

Behaviour of the code worth knowing:

- `hit`, `stand`, `doubleDown` and `split` never check that a game is in session. A second `stand` settles the bet again (`GameProperties.StandTwiceSettlesTwice`).
- `resetGame` empties only the player's hand. The dealer hand is kept.
- The `doubleDown` guard refuses when twice the bet exceeds the balance, not when the bet exceeds it.
- The engine deals from the front of its list. `Deck.java` deals from the end.
- Failures are not all free of side effects. `hit` keeps the dealt card and then fails on an empty dealer hand. `split` on a one-card deck loses that card (`GameProperties.FailuresThatCommit`).
- The engine's hand promotes aces and the `Blackjack-game` hand demotes them. `HandAgreement.RespelledHandsAgree` shows that the two give the same total once the ace spelling is reconciled.

## Model

| member | source | states |
|---|---|---|
| Cards.BuildDeckShape | Blackjack-game/src/main/java/com/ebenfuentes/blackjack/service/GameService.java:31-36 | the nested rank/suit loop builds \|ranks\|·\|suits\| cards, each with a rank and suit of the grid and valued by the rank rule |
| Cards.BuildDeckCovers | Blackjack-game/src/main/java/com/ebenfuentes/blackjack/service/GameService.java:31-36 | every rank × suit pair of the grid is in the built deck |
| Cards.BuildDeckDistinct | Blackjack-game/src/main/java/com/ebenfuentes/blackjack/model/Deck.java:21-26 | with distinct ranks and suits, no rank-and-suit pair is built twice |
| Cards.RankValue | Blackjack-game/src/main/java/com/ebenfuentes/blackjack/service/GameService.java:33 | a numeric rank is worth its number, the ace rank 11, any other rank 10, never negative; `GameService.ServiceValueTable` and `Deck.DeckValueTable` check it against each deck's table |
| Cards.BuildDeckFollowsTable | Blackjack-game/src/main/java/com/ebenfuentes/blackjack/model/Deck.java:23 | when the rank rule agrees with a value table, every built card carries the table's value for its rank |
| Shuffle.FisherYates | Blackjack-game/src/main/java/com/ebenfuentes/blackjack/model/Deck.java:27 | the shuffle walk keeps the length and the multiset of cards and leaves already-final positions alone |
| Shuffle.FisherYatesKeepsDistinctKeys | Blackjack-game/src/main/java/com/ebenfuentes/blackjack/model/Deck.java:27 | the walk only exchanges cards, so a deck without repeated rank-and-suit pairs keeps none |
| Shuffle.Shuffle | Blackjack-game/src/main/java/com/ebenfuentes/blackjack/service/GameService.java:37 | a shuffle is a permutation: same length, same multiset, same members, distinct pairs stay distinct |
| AceUpgradeHand.AddCard | src/main/java/com/ebenfuentes/blackjack/model/Hand.java:39-42 | the card is appended at the end and the earlier cards are unchanged |
| AceUpgradeHand.Clear | src/main/java/com/ebenfuentes/blackjack/model/Hand.java:44-46 | the hand is left empty |
| AceUpgradeHand.Promotions | src/main/java/com/ebenfuentes/blackjack/model/Hand.java:62-65 | the promotion loop raises at most as many aces as there are, never past 21, and stops only when no ace is left or one more would pass 21 |
| AceUpgradeHand.Total | src/main/java/com/ebenfuentes/blackjack/model/Hand.java:48-68 | empty hand totals 0; total = all-ones total + 10·k with 0 ≤ k ≤ aces; at most 21 when the all-ones total is; equals it when that busts; on exit no ace is left or +10 would bust |
| AceUpgradeHand.TotalIsBestChoice | src/main/java/com/ebenfuentes/blackjack/model/Hand.java:61-65 | the total is one of the ace choices, no choice at or under 21 is higher, and it busts only when every choice busts |
| AceUpgradeHand.AddCardTotals | src/main/java/com/ebenfuentes/blackjack/model/Hand.java:52-58 | only rank "Ace" counts as an ace, adding 1; any other card adds its value |
| AceUpgradeHand.AtMostOnePromotion | src/main/java/com/ebenfuentes/blackjack/model/Hand.java:55-64 | with non-negative card values at most one ace is promoted, so the total is the soft-hand rule |
| AceUpgradeHand.GetTotalValue | src/main/java/com/ebenfuentes/blackjack/model/Hand.java:48-68 | the two loops as written compute the total |
| AceUpgradeHand.Examples | src/main/java/com/ebenfuentes/blackjack/model/Hand.java:48-68 | A,A,9 → 21 and A,A,A → 13: only one ace is promoted |
| AceUpgradeHand.TwoCardExamples | src/main/java/com/ebenfuentes/blackjack/model/Hand.java:48-68 | K,Q → 20 and A,K → 21 |
| AceDowngradeHand.AddCard | Blackjack-game/src/main/java/com/ebenfuentes/blackjack/model/Hand.java:28-31 | the card is appended at the end and the earlier cards are unchanged |
| AceDowngradeHand.Clear | Blackjack-game/src/main/java/com/ebenfuentes/blackjack/model/Hand.java:33-35 | the hand is left empty |
| AceDowngradeHand.Demotions | Blackjack-game/src/main/java/com/ebenfuentes/blackjack/model/Hand.java:49-52 | the demotion loop lowers at most as many aces as there are, and exactly the fewest that bring the total to 21 or below |
| AceDowngradeHand.Total | Blackjack-game/src/main/java/com/ebenfuentes/blackjack/model/Hand.java:37-55 | empty hand totals 0; total = sum − 10·k with 0 ≤ k ≤ aces; equals the sum when the sum is at most 21; above 21 only when every "A" has been demoted |
| AceDowngradeHand.AddCardTotals | Blackjack-game/src/main/java/com/ebenfuentes/blackjack/model/Hand.java:41-46 | every card adds its value and only rank "A" counts as an ace |
| AceDowngradeHand.NoAceMeansSum | Blackjack-game/src/main/java/com/ebenfuentes/blackjack/model/Hand.java:41-52 | a hand with no "A" card totals exactly its sum |
| AceDowngradeHand.GetTotalValue | Blackjack-game/src/main/java/com/ebenfuentes/blackjack/model/Hand.java:37-55 | the two loops as written compute the total |
| HandAgreement.PromotionsMatchDemotions | src/main/java/com/ebenfuentes/blackjack/model/Hand.java:61-65 | promoting from the all-ones total and demoting from the all-elevens total leave the same number of aces at 11 |
| HandAgreement.RespellTotals | Blackjack-game/src/main/java/com/ebenfuentes/blackjack/model/Hand.java:41-46 | respelling "Ace" as "A" turns the all-ones total plus 10 per ace into the demoting hand's sum, with the same ace count |
| HandAgreement.RespelledHandsAgree | Blackjack-game/src/main/java/com/ebenfuentes/blackjack/model/Hand.java:37-55 | on cards spelled and valued as `generateDeck` makes them, the demoting hand (after respelling) and the promoting hand give the same total |
| Settlement.BlackjackPayout | Blackjack-game/src/main/java/com/ebenfuentes/blackjack/service/GameService.java:432 | a natural pays ⌊1.5·bet⌋ for a non-negative bet |
| Settlement.Evaluate | Blackjack-game/src/main/java/com/ebenfuentes/blackjack/service/GameService.java:427-453 | each verdict characterised on its own: natural ⟺ 21 on two cards; bust ⟺ player > 21; player win ⟺ not natural, not bust, dealer bust or lower; dealer win ⟺ dealer ≤ 21 and higher; push ⟺ not natural and equal at most 21; winnings 1.5·bet / −bet / +bet / −bet / 0 |
| Settlement.WinningsFollowWinner | Blackjack-game/src/main/java/com/ebenfuentes/blackjack/service/GameService.java:427-457 | for a positive bet, the winnings are positive, negative or zero exactly when the winner is the player, the dealer or nobody |
| Settlement.BustLosesFirst | Blackjack-game/src/main/java/com/ebenfuentes/blackjack/service/GameService.java:433-437 | a busted player loses even when the dealer busts too |
| Settlement.NaturalNeverPushes | Blackjack-game/src/main/java/com/ebenfuentes/blackjack/service/GameService.java:428-432 | a two-card 21 is paid 3:2 whatever the dealer holds |
| GameService.ServiceValueTable | Blackjack-game/src/main/java/com/ebenfuentes/blackjack/service/GameService.java:27-33 | numeric ranks are worth their number, Jack/Queen/King 10, "Ace" 11; ranks and suits are distinct |
| GameService.OrderedDeckFacts | Blackjack-game/src/main/java/com/ebenfuentes/blackjack/service/GameService.java:26-36 | the unshuffled deck has 52 cards, one per rank and suit, each valued by the table |
| GameService.GenerateDeck | Blackjack-game/src/main/java/com/ebenfuentes/blackjack/service/GameService.java:26-39 | 52 cards, every rank × suit pair present exactly once, every card valued by the table, a permutation of the ordered deck |
| GameService.Settle | Blackjack-game/src/main/java/com/ebenfuentes/blackjack/service/GameService.java:412-462 | settlement judges the player's and dealer's totals, the player's card count and the bet, and calls the matching bet method; nothing else in the seat changes |
| GameService.PlaceBet | Blackjack-game/src/main/java/com/ebenfuentes/blackjack/service/GameService.java:42-58 | fails exactly when a game is in session, then changing nothing; otherwise only the purse changes, by the player's own method |
| GameService.DeckForDeal | Blackjack-game/src/main/java/com/ebenfuentes/blackjack/service/GameService.java:85-88 | a deck of fewer than 4 cards is replaced by a fresh one; the deck dealt from always has at least 4 |
| GameService.StartGame | Blackjack-game/src/main/java/com/ebenfuentes/blackjack/service/GameService.java:60-135 | refused unchanged when in session or without a bet; otherwise the top four cards go player, dealer, player, dealer, both hands hold two cards, the game is in session exactly when the player's total is not 21, and a 21 is settled at once as a natural |
| GameService.Hit | Blackjack-game/src/main/java/com/ebenfuentes/blackjack/service/GameService.java:175-218 | the front card is appended to the hand (nothing on an empty deck); an empty dealer hand fails after the deal; a total over 21 settles as a bust losing the bet and ends the session; otherwise purse and session are unchanged |
| GameService.DealerDraws | Blackjack-game/src/main/java/com/ebenfuentes/blackjack/service/GameService.java:228-230 | the dealer takes cards from the front while under 17: every earlier total is below 17, and it stops at 17 or more or at an empty deck; terminates because the deck shrinks |
| GameService.Stand | Blackjack-game/src/main/java/com/ebenfuentes/blackjack/service/GameService.java:221-244 | player hand unchanged; dealer draws come from the front of the deck in order, until 17 or more or the deck is empty; the bet is settled on the final totals and the session ends |
| GameService.DoubleDown | Blackjack-game/src/main/java/com/ebenfuentes/blackjack/service/GameService.java:247-276 | refused unchanged when 2·bet exceeds the balance; otherwise bet' = 2·bet, balance' = balance − bet, at most one card for the player, then the dealer plays out and the doubled bet is settled |
| GameService.Split | Blackjack-game/src/main/java/com/ebenfuentes/blackjack/service/GameService.java:279-307 | only a pair of equal rank splits, else refused unchanged; the hand becomes [first card, deck[0]], the second hand [second card, deck[1]] is reported, the deck loses two cards; a short deck fails and loses its one card |
| GameService.ResetGame | Blackjack-game/src/main/java/com/ebenfuentes/blackjack/service/GameService.java:337-347 | player hand empty, bet 0, session ended, dealer hand and balance kept, and a fresh 52-card deck |
| ServiceTable.NewService | Blackjack-game/src/main/java/com/ebenfuentes/blackjack/service/GameService.java:19-23 | the service starts with no players and a fresh 52-card deck |
| ServiceTable.Execute | Blackjack-game/src/main/java/com/ebenfuentes/blackjack/service/GameService.java:279-347 | an unknown id changes nothing, failing with "not found" except for split and reset, which return quietly; a known id changes only that player's record and the deck |
| GameProperties.HitKeepsCards | Blackjack-game/src/main/java/com/ebenfuentes/blackjack/service/GameService.java:183-186 | a hit moves a card from the deck to the hand; no card appears or disappears |
| GameProperties.StandKeepsCards | Blackjack-game/src/main/java/com/ebenfuentes/blackjack/service/GameService.java:228-230 | the dealer's draws come out of the deck; no card appears or disappears |
| GameProperties.DoubleDownKeepsCards | Blackjack-game/src/main/java/com/ebenfuentes/blackjack/service/GameService.java:259-266 | a double down moves cards between the deck and the hands only |
| GameProperties.SplitSetsAsideTwoCards | Blackjack-game/src/main/java/com/ebenfuentes/blackjack/service/GameService.java:287-300 | a split takes exactly the second card and the card dealt to it out of play, into the reported second hand |
| GameProperties.StartGameDealsFromTheDeck | Blackjack-game/src/main/java/com/ebenfuentes/blackjack/service/GameService.java:77-94 | after a start, the cards in play are exactly those of the deck dealt from |
| GameProperties.ResetBetStart | Blackjack-game/src/main/java/com/ebenfuentes/blackjack/service/GameService.java:337-347 | reset, an accepted bet, then start: two cards in each hand, 48 left in the deck, in session unless the player holds 21 |
| GameProperties.StartFromFullDeck | Blackjack-game/src/main/java/com/ebenfuentes/blackjack/service/GameService.java:85-102 | a start on a full deck deals four cards, two to each hand, keeps 48, and is in session unless the player holds 21 |
| GameProperties.DealerPlaysOnce | Blackjack-game/src/main/java/com/ebenfuentes/blackjack/service/GameService.java:228-230 | a dealer that has played out draws nothing more |
| GameProperties.StandTwiceSettlesTwice | Blackjack-game/src/main/java/com/ebenfuentes/blackjack/service/GameService.java:221-244 | a second stand draws nothing, reaches the same verdict and settles the bet again |
| GameProperties.RefusedBetChangesNothing | Blackjack-game/src/main/java/com/ebenfuentes/blackjack/service/GameService.java:47-50 | a bet refused because a game is in session leaves the player and the deck unchanged |
| GameProperties.RefusedStartChangesNothing | Blackjack-game/src/main/java/com/ebenfuentes/blackjack/service/GameService.java:68-76 | a start refused (in session, or no bet) leaves the player and the deck unchanged |
| GameProperties.RefusedDoubleChangesNothing | Blackjack-game/src/main/java/com/ebenfuentes/blackjack/service/GameService.java:254-273 | a double down refused for want of funds leaves the player and the deck unchanged |
| GameProperties.RefusedSplitChangesNothing | Blackjack-game/src/main/java/com/ebenfuentes/blackjack/service/GameService.java:285-306 | a hand that is not a pair is refused with the player and the deck unchanged |
| GameProperties.FailuresThatCommit | Blackjack-game/src/main/java/com/ebenfuentes/blackjack/service/GameService.java:183-194 | a hit keeps its card although it then fails on an empty dealer hand; a split on a one-card deck fails having used up that card |
| GameProperties.HitOnEmptyDeck | Blackjack-game/src/main/java/com/ebenfuentes/blackjack/service/GameService.java:183-209 | with no card left, a hit on a live hand under 22 changes nothing and continues |
| Deck.DeckValueTable | Blackjack-game/src/main/java/com/ebenfuentes/blackjack/model/Deck.java:17-23 | numeric ranks are worth their number, J/Q/K 10, "A" 11; ranks and suits are distinct |
| Deck.OrderedCardsFacts | Blackjack-game/src/main/java/com/ebenfuentes/blackjack/model/Deck.java:17-26 | the unshuffled deck has 52 cards, one per rank and suit, each valued by the table |
| Deck.InitializeDeck | Blackjack-game/src/main/java/com/ebenfuentes/blackjack/model/Deck.java:15-29 | 52 cards, every rank × suit pair present exactly once, each valued by the table, a permutation of the ordered deck |
| Deck.ShuffleDeck | Blackjack-game/src/main/java/com/ebenfuentes/blackjack/model/Deck.java:31-33 | the same multiset of cards in another order |
| Deck.DealCard | Blackjack-game/src/main/java/com/ebenfuentes/blackjack/model/Deck.java:35-39 | a non-empty deck gives its last card and loses only that card; an empty deck gives nothing and stays as it is |
| Deck.DealRoundTrip | Blackjack-game/src/main/java/com/ebenfuentes/blackjack/model/Deck.java:35-39 | putting the dealt card back on the end restores the deck; one card fewer remains |
| Deck.IsEmpty | Blackjack-game/src/main/java/com/ebenfuentes/blackjack/model/Deck.java:41-43 | a deck is empty exactly when dealing from it yields nothing |
| Deck.RemainingCards | Blackjack-game/src/main/java/com/ebenfuentes/blackjack/model/Deck.java:49-51 | zero exactly when the deck is empty, and one fewer after each deal |
| Deck.EmptyIffNoneRemaining | Blackjack-game/src/main/java/com/ebenfuentes/blackjack/model/Deck.java:41-51 | the deck is empty exactly when no cards remain |
| Deck.ResetDeck | Blackjack-game/src/main/java/com/ebenfuentes/blackjack/model/Deck.java:45-47 | a full 52-card deck with distinct pairs, a permutation of the ordered deck |
| Deck.DealMany | Blackjack-game/src/main/java/com/ebenfuentes/blackjack/model/Deck.java:35-39 | repeated deals yield the cards in reverse deck order and stop at an empty deck |
| Deck.DealtCardsDistinct | Blackjack-game/src/main/java/com/ebenfuentes/blackjack/model/Deck.java:35-39 | cards dealt from a deck without repeated pairs come out without repeated pairs |
| Deck.DealingEverythingEmptiesTheDeck | Blackjack-game/src/main/java/com/ebenfuentes/blackjack/model/Deck.java:35-43 | dealing as many times as there are cards empties the deck and never yields a pair twice |
| Player.New | Blackjack-game/src/main/java/com/ebenfuentes/blackjack/model/Player.java:31-35 | the given username and balance, no id yet, an empty hand |
| Player.ReceiveCard | Blackjack-game/src/main/java/com/ebenfuentes/blackjack/model/Player.java:37-39 | exactly one card appended to the hand; username, balance and id unchanged |
| Player.ResetHand | Blackjack-game/src/main/java/com/ebenfuentes/blackjack/model/Player.java:45-47 | the hand is emptied and nothing else changes |
| Player.CalculateHandValue | Blackjack-game/src/main/java/com/ebenfuentes/blackjack/model/Player.java:41-43 | the value is the hand's total; an empty hand is worth 0 |
| Player.SetBalance | Blackjack-game/src/main/java/com/ebenfuentes/blackjack/model/Player.java:64-66 | only the balance changes |
| Player.SetHand | Blackjack-game/src/main/java/com/ebenfuentes/blackjack/model/Player.java:70-72 | only the hand changes |
| Player.SetUsername | Blackjack-game/src/main/java/com/ebenfuentes/blackjack/model/Player.java:58-60 | only the username changes |
| Player.SetId | Blackjack-game/src/main/java/com/ebenfuentes/blackjack/model/Player.java:52-54 | only the id changes |
| Player.ReceiveAllAppends | Blackjack-game/src/main/java/com/ebenfuentes/blackjack/model/Player.java:37-47 | cards received one by one form the hand in deal order, leave the rest of the player alone, and a reset forgets them |
| Player.NewPlayerValue | Blackjack-game/src/main/java/com/ebenfuentes/blackjack/model/Player.java:31-43 | a new player dealt some cards is valued on exactly those cards |
| AceSpelling.ServiceCardsAreNeverDemotable | Blackjack-game/src/main/java/com/ebenfuentes/blackjack/service/GameService.java:27 | no card `generateDeck` makes has the rank "A" |
| AceSpelling.DemotingHandIgnoresServiceAces | Blackjack-game/src/main/java/com/ebenfuentes/blackjack/model/Hand.java:41-52 | on `generateDeck` cards the demoting hand finds no ace and totals the plain sum |
| AceSpelling.PairOfAces | Blackjack-game/src/main/java/com/ebenfuentes/blackjack/model/Hand.java:37-55 | two `generateDeck` aces total 22 in the demoting hand and 12 in the promoting hand |
| DoubleDownOverflow.DoubledAsWritten | Blackjack-game/src/main/java/com/ebenfuentes/blackjack/service/GameService.java:251-256 | the guard and setters in 32-bit arithmetic keep bet and balance in `int` range |
| DoubleDownOverflow.DoubledIntended | Blackjack-game/src/main/java/com/ebenfuentes/blackjack/service/GameService.java:251-256 | proceeds exactly when 2·bet ≤ balance, then bet' = 2·bet ≤ balance and balance' = balance − bet |
| DoubleDownOverflow.AgreesWithoutOverflow | Blackjack-game/src/main/java/com/ebenfuentes/blackjack/service/GameService.java:251-256 | when nothing overflows, the code as written and the intended arithmetic agree |
| DoubleDownOverflow.OverflowingBet | Blackjack-game/src/main/java/com/ebenfuentes/blackjack/service/GameService.java:252-256 | bet 1,500,000,000 against balance 2,000,000,000 passes the guard as written with bet −1,294,967,296; the intended guard refuses |
| DoubleDownOverflow.EngineRefusesOverflowingBet | Blackjack-game/src/main/java/com/ebenfuentes/blackjack/service/GameService.java:254-273 | the engine model refuses that double down and changes nothing |

## Left out

- HTTP controllers, Spring Data repositories and the application bootstrap are left out. Storage is the `ServiceTable` map, and ids are given, not generated.
- `createPlayer` is left out because the store assigns ids. `Player.New` models the constructor it calls.
- Response maps, messages, `System.out.println`, `checkGameStatus`, `getPlayerHandDetails`, `getPlayerBalance`, the `hasStood` flag and dealer-card visibility are presentation only.
- The balance effects of the engine player's `placeBet`, `winBet`, `loseBet` and `push` are left out because their bodies are not in the source. They are the uninterpreted `Accounting` parameter, so balance checks inside `placeBet` are not modelled.
- The randomness of `Collections.shuffle` is left out. The draws are a parameter, and no distribution is modelled.
- The process-wide shared deck and its races between requests are left out. The model passes the deck explicitly and runs one command at a time.
- The JPA back-reference `Card.setHand`, entity ids and the top-level hand's `isDealerHand` flag are left out because they have no effect on the rules.
- The duplicate `Player` classes in the other packages are orphaned copies and are not modelled.
- Hand totals and purses use unbounded integers. Only the `doubleDown` finding models 32-bit wrap-around.
- GameService.DoubleDown: the guard compares the unwrapped 2·bet with the balance, while GameService.java:252 computes 2·bet in wrapping 32-bit arithmetic; `DoubleDownOverflow` holds the arithmetic as written.
- Settlement.BlackjackPayout: does not model the saturation of Java's double-to-int cast for bets above 1,431,655,765, where `(int) (1.5 * bet)` clamps to the largest `int`.

## Findings

| source | as written | input that shows it | evidently intended | confidence | as-written member | corrected member |
|---|---|---|---|---|---|---|
| Blackjack-game/src/main/java/com/ebenfuentes/blackjack/model/Hand.java:43 | the hand of the engine's own source tree treats only rank "A" as an ace, but `generateDeck` (GameService.java:27) spells aces "Ace", so no ace is ever demoted | Ace of Spades and Ace of Hearts: total 22, a bust | the two aces total 12 | medium, not executed; holds if the engine is built against the `Hand` of its own tree rather than the top-level one | AceSpelling.PairOfAces | AceUpgradeHand.Total |
| Blackjack-game/src/main/java/com/ebenfuentes/blackjack/service/GameService.java:252 | `betAmount * 2` is computed in 32-bit `int`, so a bet above 2^30 wraps negative and passes `doubledBet <= balance` | bet 1,500,000,000 and balance 2,000,000,000: the guard passes and the bet becomes −1,294,967,296 | refuse, because 3,000,000,000 exceeds the balance | medium, not executed; needs a bet above 2^30, and whether `placeBet` accepts one is not shown | DoubleDownOverflow.OverflowingBet | GameService.DoubleDown |
