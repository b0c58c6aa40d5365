/** Playing cards and the standard 52-card deck the server builds once at load. */
module Cards {

  /** A card as the server and its clients exchange it: a rank name and a suit name.
      Clients may name any strings; only the standard deck's cards ever match. */
  datatype Card = Card(rank: string, suit: string)

  const Suits: seq<string> := ["hearts", "diamonds", "clubs", "spades"]
  const Ranks: seq<string> := ["2", "3", "4", "5", "6", "7", "8", "9", "10", "J", "Q", "K", "A"]

  /** No value occurs twice in `s`. */
  ghost predicate Distinct<T>(s: seq<T>) {
    forall i, j :: 0 <= i < j < |s| ==> s[i] != s[j]
  }

  /** The cards of one rank, one per suit, in the order of `suits`. */
  function OneRank(rank: string, suits: seq<string>): seq<Card> {
    seq(|suits|, k requires 0 <= k < |suits| => Card(rank, suits[k]))
  }

  /** `ranks.flatMap(rank => suits.map(suit => ({rank, suit})))`: each rank in turn,
      with every suit. */
  function Product(ranks: seq<string>, suits: seq<string>): (r: seq<Card>)
    ensures |r| == |ranks| * |suits|
  {
    if ranks == [] then []
    else
      var rest := Product(ranks[1..], suits);
      assert |ranks| * |suits| == |suits| + (|ranks| - 1) * |suits|;
      OneRank(ranks[0], suits) + rest
  }

  /** The 52-card deck in rank-major order: position `k` holds rank `k / 4` and suit `k % 4`. */
  function StandardDeck(): seq<Card> {
    seq(52, k requires 0 <= k < 52 => Card(Ranks[k / 4], Suits[k % 4]))
  }

  /** The product is ordered rank-major: rank `r` and suit `s` sit at `r * |suits| + s`. */
  lemma {:induction false} ProductAt(ranks: seq<string>, suits: seq<string>, r: nat, s: nat)
    requires r < |ranks| && s < |suits|
    ensures r * |suits| + s < |Product(ranks, suits)|
    ensures Product(ranks, suits)[r * |suits| + s] == Card(ranks[r], suits[s])
  {
    if r > 0 {
      ProductAt(ranks[1..], suits, r - 1, s);
      assert r * |suits| + s == |suits| + ((r - 1) * |suits| + s);
    }
  }

  /** With four suits, the product holds rank `k / 4` and suit `k % 4` at position `k`. */
  lemma ProductRankMajor(ranks: seq<string>, suits: seq<string>)
    requires |suits| == 4
    ensures |Product(ranks, suits)| == 4 * |ranks|
    ensures forall k :: 0 <= k < 4 * |ranks| ==> Product(ranks, suits)[k] == Card(ranks[k / 4], suits[k % 4])
  {
    forall k | 0 <= k < 4 * |ranks| ensures Product(ranks, suits)[k] == Card(ranks[k / 4], suits[k % 4]) {
      ProductAt(ranks, suits, k / 4, k % 4);
    }
  }

  /** The server's `flatMap` over the 13 ranks and 4 suits builds exactly the standard deck. */
  lemma FlatMapBuildsStandardDeck()
    ensures Product(Ranks, Suits) == StandardDeck()
  {
    ProductRankMajor(Ranks, Suits);
    var p, d := Product(Ranks, Suits), StandardDeck();
    assert |p| == |d| == 52;
    assert forall k :: 0 <= k < 52 ==> p[k] == d[k];
  }

  /** No rank and no suit is listed twice. */
  lemma RanksAndSuitsDistinct()
    ensures Distinct(Ranks) && Distinct(Suits)
  {
    forall i, j | 0 <= i < j < |Ranks| ensures Ranks[i] != Ranks[j] {
      assert Ranks[i][0] != Ranks[j][0] || |Ranks[i]| != |Ranks[j]|;
    }
    forall i, j | 0 <= i < j < |Suits| ensures Suits[i] != Suits[j] {
      assert Suits[i][0] != Suits[j][0];
    }
  }

  /** The standard deck has 52 pairwise-distinct cards, exactly the 13 ranks times the
      4 suits. */
  lemma StandardDeckShape()
    ensures |StandardDeck()| == 52
    ensures Distinct(StandardDeck())
    ensures forall c :: c in StandardDeck() <==> c.rank in Ranks && c.suit in Suits
  {
    var d := StandardDeck();
    RanksAndSuitsDistinct();
    forall i, j | 0 <= i < j < 52 ensures d[i] != d[j] {
      if i / 4 == j / 4 {
        assert i % 4 != j % 4;
      }
    }
    forall c: Card | c.rank in Ranks && c.suit in Suits ensures c in d {
      var r :| 0 <= r < 13 && Ranks[r] == c.rank;
      var s :| 0 <= s < 4 && Suits[s] == c.suit;
      assert d[4 * r + s] == c;
    }
  }

  /** A sequence without repeats holds each value at most once as a multiset. */
  lemma {:induction false} DistinctAtMostOnce<T>(s: seq<T>, x: T)
    requires Distinct(s)
    ensures multiset(s)[x] <= 1
  {
    if s != [] {
      DistinctAtMostOnce(s[1..], x);
      assert s == [s[0]] + s[1..];
      if s[0] == x {
        assert x !in s[1..];
      }
    }
  }
}
