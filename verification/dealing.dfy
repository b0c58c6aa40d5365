/** `dealCards`: every seated player gets the next 13 cards of the deck, clamped to
    the deck's end as `Array.prototype.slice` clamps. */
module Dealing {
  import opened Cards
  import opened Messages
  import opened Roster

  const HandSize: nat := 13

  /** `min(x, n)`: where `slice` stops when asked for an end beyond the array. */
  function Clamp(x: nat, n: nat): nat {
    if x < n then x else n
  }

  /** `deck.slice(13 * i, 13 * (i + 1))`. */
  function Hand(deck: seq<Card>, i: nat): (r: seq<Card>)
    ensures |r| <= HandSize
    ensures |r| == Clamp(HandSize * i + HandSize, |deck|) - Clamp(HandSize * i, |deck|)
    ensures HandSize * i >= |deck| ==> r == []
    ensures HandSize * i + HandSize <= |deck| ==> |r| == HandSize
    ensures forall k :: 0 <= k < |r| ==> r[k] == deck[HandSize * i + k]
  {
    deck[Clamp(HandSize * i, |deck|)..Clamp(HandSize * i + HandSize, |deck|)]
  }

  /** The roster after dealing: seat `i` holds `Hand(deck, i)`, nothing else changes. */
  function Dealt(players: seq<Player>, deck: seq<Card>): (r: seq<Player>)
    ensures |r| == |players|
    ensures forall i :: 0 <= i < |r| ==> r[i] == players[i].(cards := Hand(deck, i))
  {
    seq(|players|, i requires 0 <= i < |players| => players[i].(cards := Hand(deck, i)))
  }

  /** The `cards` messages of a deal: each player is sent their own hand, in roster order. */
  function HandNotices(players: seq<Player>): (r: seq<Delivery>)
    ensures |r| == |players|
    ensures forall i :: 0 <= i < |players| ==> r[i] == Delivery(players[i].channel, CardsDealt(players[i].cards))
  {
    seq(|players|, i requires 0 <= i < |players| => Delivery(players[i].channel, CardsDealt(players[i].cards)))
  }

  /** Dealing one more seat adds exactly that seat's hand to the pool. */
  lemma DealtPoolStep(players: seq<Player>, deck: seq<Card>)
    requires players != []
    ensures HandsOf(Dealt(players, deck))
      == HandsOf(Dealt(players[..|players| - 1], deck)) + multiset(Hand(deck, |players| - 1))
  {
    var n := |players|;
    var last := players[n - 1].(cards := Hand(deck, n - 1));
    assert Dealt(players, deck) == Dealt(players[..n - 1], deck) + [last];
    HandsOfConcat(Dealt(players[..n - 1], deck), [last]);
    assert [last][1..] == [];
  }

  /** Consecutive hands tile the deck: the hands of the first `n` seats, pooled, are
      exactly the deck's first `min(13 n, |deck|)` cards. */
  lemma {:induction false} DealtPool(players: seq<Player>, deck: seq<Card>)
    ensures HandsOf(Dealt(players, deck)) == multiset(deck[..Clamp(HandSize * |players|, |deck|)])
  {
    var n := |players|;
    if n == 0 {
      assert Dealt(players, deck) == [];
    } else {
      DealtPoolStep(players, deck);
      DealtPool(players[..n - 1], deck);
      var lo, hi := Clamp(HandSize * (n - 1), |deck|), Clamp(HandSize * n, |deck|);
      assert deck[..hi] == deck[..lo] + Hand(deck, n - 1);
    }
  }

  /** Dealing never hands out more than the deck holds. */
  lemma DealtWithinDeck(players: seq<Player>, deck: seq<Card>)
    ensures HandsOf(Dealt(players, deck)) <= multiset(deck)
  {
    DealtPool(players, deck);
    var stop := Clamp(HandSize * |players|, |deck|);
    assert deck == deck[..stop] + deck[stop..];
  }

  /** Two different seats never share a card of a deck without repeats. */
  lemma HandsDisjoint(deck: seq<Card>, i: nat, j: nat, c: Card)
    requires Distinct(deck) && i != j
    requires c in Hand(deck, i)
    ensures c !in Hand(deck, j)
  {
    var a :| 0 <= a < |Hand(deck, i)| && Hand(deck, i)[a] == c;
    forall b | 0 <= b < |Hand(deck, j)| ensures Hand(deck, j)[b] != c {
      assert HandSize * i + a != HandSize * j + b;
    }
  }

  /** With four players and a full deck of distinct cards, the four hands are 13 cards
      each, pairwise disjoint, and together are the whole deck in order; every later
      seat gets an empty hand. */
  lemma FourPlayerDeal(players: seq<Player>, deck: seq<Card>)
    requires |deck| == 52 && Distinct(deck) && |players| >= 4
    ensures forall i :: 0 <= i < 4 ==> |Dealt(players, deck)[i].cards| == HandSize
    ensures forall i :: 4 <= i < |players| ==> Dealt(players, deck)[i].cards == []
    ensures forall i, j, c :: 0 <= i < |players| && 0 <= j < |players| && i != j && c in Dealt(players, deck)[i].cards
              ==> c !in Dealt(players, deck)[j].cards
    ensures Hand(deck, 0) + Hand(deck, 1) + Hand(deck, 2) + Hand(deck, 3) == deck
    ensures |players| == 4 ==> HandsOf(Dealt(players, deck)) == multiset(deck)
  {
    forall i, j, c | 0 <= i < |players| && 0 <= j < |players| && i != j && c in Dealt(players, deck)[i].cards
      ensures c !in Dealt(players, deck)[j].cards
    {
      HandsDisjoint(deck, i, j, c);
    }
    var four := Hand(deck, 0) + Hand(deck, 1) + Hand(deck, 2) + Hand(deck, 3);
    assert forall k :: 0 <= k < 52 ==> four[k] == deck[k];
    if |players| == 4 {
      DealtPool(players, deck);
      assert deck[..52] == deck;
    }
  }
}
