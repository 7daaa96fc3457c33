/**
  * `Collections.shuffle` on an `ArrayList` of cards: the Fisher-Yates walk from the
  * last position down, swapping position i-1 with a random index below i.
  * The random generator is a parameter: `draws[k]` is the k-th number it yields.
  */
module Shuffle {
  import opened Cards

  /** Exchange the cards at positions i and j. */
  function Swap(s: seq<Card>, i: nat, j: nat): (r: seq<Card>)
    requires i < |s| && j < |s|
    ensures |r| == |s|
    ensures forall k | 0 <= k < |s| :: r[k] == s[if k == i then j else if k == j then i else k]
    ensures multiset(r) == multiset(s)
  {
    s[i := s[j]][j := s[i]]
  }

  lemma SwapKeepsDistinctKeys(s: seq<Card>, i: nat, j: nat)
    requires i < |s| && j < |s|
    ensures DistinctKeys(s) ==> DistinctKeys(Swap(s, i, j))
  {
    var r := Swap(s, i, j);
    if DistinctKeys(s) {
      forall a, b | 0 <= a < b < |r| ensures Key(r[a]) != Key(r[b]) {
        var pa := if a == i then j else if a == j then i else a;
        var pb := if b == i then j else if b == j then i else b;
        assert r[a] == s[pa] && r[b] == s[pb];
        assert pa != pb;
        if pa < pb {
          assert Key(s[pa]) != Key(s[pb]);
        } else {
          assert Key(s[pb]) != Key(s[pa]);
        }
      }
    }
  }

  /** `rnd.nextInt(bound)` as the k-th draw; a source that has run dry yields 0. */
  function Draw(draws: seq<nat>, k: nat, bound: nat): (x: nat)
    requires bound > 0
    ensures x < bound
  {
    if k < |draws| then draws[k] % bound else 0
  }

  /** Fisher-Yates over the first i positions; positions from i on are already final. */
  function FisherYates(s: seq<Card>, i: nat, draws: seq<nat>): (r: seq<Card>)
    requires i <= |s|
    ensures |r| == |s|
    ensures multiset(r) == multiset(s)
    ensures r[i..] == s[i..]
    decreases i
  {
    if i <= 1 then s
    else
      var t := Swap(s, i - 1, Draw(draws, |s| - i, i));
      assert t[i..] == s[i..];
      var r := FisherYates(t, i - 1, draws);
      assert r[i..] == r[i - 1..][1..];
      r
  }

  /** The walk only exchanges cards, so a deck without repeated pairs keeps none. */
  lemma {:induction false} FisherYatesKeepsDistinctKeys(s: seq<Card>, i: nat, draws: seq<nat>)
    requires i <= |s|
    ensures DistinctKeys(s) ==> DistinctKeys(FisherYates(s, i, draws))
    decreases i
  {
    if i > 1 {
      var t := Swap(s, i - 1, Draw(draws, |s| - i, i));
      SwapKeepsDistinctKeys(s, i - 1, Draw(draws, |s| - i, i));
      FisherYatesKeepsDistinctKeys(t, i - 1, draws);
    }
  }

  /** A shuffle of the whole deck: the same cards, in an order the draws decide. */
  function Shuffle(s: seq<Card>, draws: seq<nat>): (r: seq<Card>)
    ensures |r| == |s|
    ensures multiset(r) == multiset(s)
    ensures forall c :: c in r <==> c in s
    ensures DistinctKeys(s) ==> DistinctKeys(r)
  {
    var r := FisherYates(s, |s|, draws);
    FisherYatesKeepsDistinctKeys(s, |s|, draws);
    assert forall c :: c in r <==> c in multiset(r);
    r
  }
}
