/**
 * Cards and the rank-by-suit construction shared by both deck builders:
 * `GameService.generateDeck` and `Deck.initializeDeck` run the same nested loop
 * and the same value rule, differing only in how the ace rank is spelled.
 */
module Cards {

  /** A playing card: rank and suit as the strings the source uses, and a fixed value. */
  datatype Card = Card(rank: string, suit: string, value: int)

  const Suits: seq<string> := ["Spades", "Hearts", "Diamonds", "Clubs"]

  predicate IsDigit(ch: char) {
    '0' <= ch <= '9'
  }

  /** `rank.matches("\\d+")`: one or more ASCII digits. */
  predicate AllDigits(s: string) {
    |s| > 0 && forall i | 0 <= i < |s| :: IsDigit(s[i])
  }

  /** The decimal number a string of digits spells (`Integer.parseInt`). */
  function ParseDigits(s: string): nat
    requires forall i | 0 <= i < |s| :: IsDigit(s[i])
  {
    if s == [] then 0
    else
      assert IsDigit(s[|s| - 1]);
      10 * ParseDigits(s[..|s| - 1]) + DigitValue(s[|s| - 1])
  }

  function DigitValue(ch: char): nat
    requires IsDigit(ch)
  {
    ch as int - '0' as int
  }

  /**
   * The value a deck builder gives a rank: a numeric rank is worth its number,
   * the rank spelled `aceRank` is worth 11 and any other rank (a face) is worth 10.
   */
  function RankValue(rank: string, aceRank: string): (v: int)
    ensures v >= 0
    ensures AllDigits(rank) ==> v == ParseDigits(rank)
    ensures !AllDigits(rank) ==> (v == 11 <==> rank == aceRank) && (v == 10 <==> rank != aceRank)
  {
    if AllDigits(rank) then ParseDigits(rank)
    else if rank == aceRank then 11
    else 10
  }

  predicate Distinct<T(==)>(s: seq<T>) {
    forall i, j | 0 <= i < j < |s| :: s[i] != s[j]
  }

  /** The identity of a card in a deck: its rank and suit. */
  function Key(c: Card): (string, string) {
    (c.rank, c.suit)
  }

  /** No rank-and-suit pair occurs twice. */
  predicate DistinctKeys(d: seq<Card>) {
    forall i, j | 0 <= i < j < |d| :: Key(d[i]) != Key(d[j])
  }

  /** The inner loop of the deck builders: one card of `rank` in every suit, in suit order. */
  function Row(rank: string, suits: seq<string>, aceRank: string): (r: seq<Card>)
    ensures |r| == |suits|
    ensures forall k | 0 <= k < |suits| :: r[k] == Card(rank, suits[k], RankValue(rank, aceRank))
  {
    seq(|suits|, k requires 0 <= k < |suits| => Card(rank, suits[k], RankValue(rank, aceRank)))
  }

  /** The outer loop of the deck builders: a row per rank, in rank order (before shuffling). */
  function BuildDeck(ranks: seq<string>, suits: seq<string>, aceRank: string): seq<Card> {
    if ranks == [] then []
    else Row(ranks[0], suits, aceRank) + BuildDeck(ranks[1..], suits, aceRank)
  }

  /** The built deck holds |ranks|·|suits| cards, each from the grid and valued by the rank rule. */
  lemma {:induction false} BuildDeckShape(ranks: seq<string>, suits: seq<string>, aceRank: string)
    ensures |BuildDeck(ranks, suits, aceRank)| == |ranks| * |suits|
    ensures forall c | c in BuildDeck(ranks, suits, aceRank) ::
              c.rank in ranks && c.suit in suits && c.value == RankValue(c.rank, aceRank)
  {
    if ranks != [] {
      BuildDeckShape(ranks[1..], suits, aceRank);
      var rest := BuildDeck(ranks[1..], suits, aceRank);
      assert BuildDeck(ranks, suits, aceRank) == Row(ranks[0], suits, aceRank) + rest;
      assert |ranks| * |suits| == |suits| + |ranks[1..]| * |suits|;
      forall c | c in BuildDeck(ranks, suits, aceRank)
        ensures c.rank in ranks && c.suit in suits && c.value == RankValue(c.rank, aceRank)
      {
        if c in rest {
          assert c.rank in ranks[1..];
        } else {
          assert c in Row(ranks[0], suits, aceRank);
        }
      }
    }
  }

  /** Every rank-and-suit pair of the grid is present in the built deck. */
  lemma {:induction false} BuildDeckCovers(ranks: seq<string>, suits: seq<string>, aceRank: string)
    ensures forall r, s | r in ranks && s in suits ::
              Card(r, s, RankValue(r, aceRank)) in BuildDeck(ranks, suits, aceRank)
  {
    if ranks != [] {
      BuildDeckCovers(ranks[1..], suits, aceRank);
      var row := Row(ranks[0], suits, aceRank);
      var rest := BuildDeck(ranks[1..], suits, aceRank);
      forall r, s | r in ranks && s in suits
        ensures Card(r, s, RankValue(r, aceRank)) in BuildDeck(ranks, suits, aceRank)
      {
        if r == ranks[0] {
          var k :| 0 <= k < |suits| && suits[k] == s;
          assert row[k] == Card(r, s, RankValue(r, aceRank));
          assert row[k] in row + rest;
        } else {
          assert r in ranks[1..];
          assert Card(r, s, RankValue(r, aceRank)) in rest;
        }
      }
    }
  }

  /** With distinct ranks and distinct suits, no rank-and-suit pair is built twice. */
  lemma {:induction false} BuildDeckDistinct(ranks: seq<string>, suits: seq<string>, aceRank: string)
    requires Distinct(ranks) && Distinct(suits)
    ensures DistinctKeys(BuildDeck(ranks, suits, aceRank))
  {
    if ranks != [] {
      var row := Row(ranks[0], suits, aceRank);
      var rest := BuildDeck(ranks[1..], suits, aceRank);
      BuildDeckDistinct(ranks[1..], suits, aceRank);
      BuildDeckShape(ranks[1..], suits, aceRank);
      assert ranks[0] !in ranks[1..];
      forall x, y | x in row && y in rest ensures Key(x) != Key(y) {
        assert x.rank == ranks[0];
      }
      AppendDistinctKeys(row, rest);
    }
  }

  /** Two decks without repeated pairs, sharing none, join into one without repeated pairs. */
  lemma AppendDistinctKeys(a: seq<Card>, b: seq<Card>)
    requires DistinctKeys(a) && DistinctKeys(b)
    requires forall x, y | x in a && y in b :: Key(x) != Key(y)
    ensures DistinctKeys(a + b)
  {
    var d := a + b;
    forall i, j | 0 <= i < j < |d| ensures Key(d[i]) != Key(d[j]) {
      if j < |a| {
        assert d[i] == a[i] && d[j] == a[j];
      } else if i >= |a| {
        assert d[i] == b[i - |a|] && d[j] == b[j - |a|];
      } else {
        assert d[i] in a && d[j] in b;
      }
    }
  }

  /** A card of the grid whose value is the one a rank table lists for its rank. */
  predicate TableCard(c: Card, ranks: seq<string>, values: seq<int>, suits: seq<string>) {
    exists i | 0 <= i < |ranks| && i < |values| :: c.rank == ranks[i] && c.value == values[i] && c.suit in suits
  }

  /** When the rank rule agrees with a value table, every built card is valued by that table. */
  lemma BuildDeckFollowsTable(ranks: seq<string>, values: seq<int>, suits: seq<string>, aceRank: string)
    requires |values| == |ranks|
    requires forall i | 0 <= i < |ranks| :: RankValue(ranks[i], aceRank) == values[i]
    ensures forall c | c in BuildDeck(ranks, suits, aceRank) :: TableCard(c, ranks, values, suits)
  {
    BuildDeckShape(ranks, suits, aceRank);
    forall c | c in BuildDeck(ranks, suits, aceRank) ensures TableCard(c, ranks, values, suits) {
      var i :| 0 <= i < |ranks| && ranks[i] == c.rank;
    }
  }
}
