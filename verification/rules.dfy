/** The table's invariant stated over plain values, and the proof that every handler's
    change of state keeps it. */
module TableRules {
  import opened Cards
  import opened Roster
  import opened Shuffle
  import opened Dealing

  /** The cards out of the deck: those in hands and those played this round. */
  ghost function Pool(players: seq<Player>, round: seq<Card>): multiset<Card> {
    HandsOf(players) + multiset(round)
  }

  /** The deck is a permutation of the deck built at load, which has no repeats; no card
      is in play that the deck does not hold; between games no one holds a card, nothing
      has been played and seat 0 is to move; a running game has players. It says
      nothing about `turn` being a seat during a game: a player leaving does not
      adjust it. */
  ghost predicate TableInvariant(started: bool, players: seq<Player>, turn: nat, round: seq<Card>,
                                 deck: seq<Card>, built: seq<Card>)
  {
    && |deck| == 52
    && Distinct(built)
    && multiset(deck) == multiset(built)
    && Pool(players, round) <= multiset(deck)
    && (!started ==> turn == 0 && round == [] && HandsOf(players) == multiset{})
    && (started ==> players != [])
  }

  /** The state at load satisfies the invariant. */
  lemma InitialInvariant()
    ensures TableInvariant(false, [], 0, [], StandardDeck(), StandardDeck())
  {
    StandardDeckShape();
  }

  /** A successful `join` keeps the invariant. */
  lemma JoinKeepsInvariant(players: seq<Player>, turn: nat, round: seq<Card>, deck: seq<Card>,
                           built: seq<Card>, newcomer: Player)
    requires TableInvariant(false, players, turn, round, deck, built)
    requires newcomer.cards == []
    ensures TableInvariant(false, players + [newcomer], turn, round, deck, built)
  {
    HandsOfConcat(players, [newcomer]);
    assert HandsOf([newcomer]) == multiset{} by {
      assert [newcomer][1..] == [];
    }
  }

  /** A permutation of a sequence without repeats has none either. */
  lemma PermutationKeepsDistinct(s: seq<Card>, t: seq<Card>)
    requires Distinct(s) && multiset(t) == multiset(s)
    ensures Distinct(t)
  {
    forall i, j | 0 <= i < j < |t| ensures t[i] != t[j] {
      if t[i] == t[j] {
        var x := t[i];
        assert t == t[..i] + [x] + t[i + 1..j] + [x] + t[j + 1..];
        assert multiset(t)[x] >= 2;
        DistinctAtMostOnce(s, x);
      }
    }
  }

  /** A successful `start` (shuffle, deal, mark started) keeps the invariant; with
      exactly four players the hands hold the whole deck. */
  lemma StartKeepsInvariant(players: seq<Player>, turn: nat, round: seq<Card>, deck: seq<Card>,
                            built: seq<Card>, draws: seq<nat>)
    requires TableInvariant(false, players, turn, round, deck, built)
    requires |players| >= 4 && ValidDraws(draws, |deck|)
    ensures var shuffled := Shuffled(deck, draws, Top(|deck|));
            && TableInvariant(true, Dealt(players, shuffled), turn, round, shuffled, built)
            && (|players| == 4 ==> Pool(Dealt(players, shuffled), round) == multiset(shuffled))
  {
    var shuffled := Shuffled(deck, draws, Top(|deck|));
    ShuffledPermutes(deck, draws, Top(|deck|));
    DealtWithinDeck(players, shuffled);
    if |players| == 4 {
      PermutationKeepsDistinct(built, shuffled);
      FourPlayerDeal(players, shuffled);
    }
  }

  /** A successful `playCard`, which moves card `k` of the mover's hand onto the round
      and passes the turn, keeps the invariant and the pool. */
  lemma PlayKeepsInvariant(players: seq<Player>, turn: nat, round: seq<Card>, deck: seq<Card>,
                           built: seq<Card>, k: nat)
    requires TableInvariant(true, players, turn, round, deck, built)
    requires turn < |players| && k < |players[turn].cards|
    ensures var hand := players[turn].cards;
            var after := players[turn := players[turn].(cards := RemoveAt(hand, k))];
            && Pool(after, round + [hand[k]]) == Pool(players, round)
            && TableInvariant(true, after, (turn + 1) % |players|, round + [hand[k]], deck, built)
  {
    HandsOfPlay(players, turn, k, round);
  }

  /** `close` removing seat `i` keeps the invariant, whether or not the table resets. */
  lemma CloseKeepsInvariant(started: bool, players: seq<Player>, turn: nat, round: seq<Card>,
                            deck: seq<Card>, built: seq<Card>, i: nat)
    requires TableInvariant(started, players, turn, round, deck, built)
    requires i < |players|
    ensures var rest := RemoveAt(players, i);
            && Pool(rest, round) <= Pool(players, round)
            && (rest == [] ==> TableInvariant(false, rest, 0, [], deck, built))
            && (rest != [] ==> TableInvariant(started, rest, turn, round, deck, built))
  {
    HandsOfRemove(players, i);
    if RemoveAt(players, i) == [] {
      assert HandsOf([]) == multiset{};
    }
  }

  /** Any sub-multiset of a permutation of a deck without repeats, such as the cards
      in play, holds only that deck's cards, and none of them twice. */
  lemma NoDuplicatesWithinDeck(m: multiset<Card>, deck: seq<Card>, built: seq<Card>)
    requires Distinct(built) && multiset(deck) == multiset(built)
    requires m <= multiset(deck)
    ensures forall c :: m[c] <= 1
    ensures forall c :: c in m ==> c in built
  {
    forall c ensures m[c] <= 1 {
      DistinctAtMostOnce(built, c);
    }
  }

  /** Under the invariant no card is in play twice, and every card in play is one the
      deck was built with. */
  lemma NoCardTwiceInPlay(started: bool, players: seq<Player>, turn: nat, round: seq<Card>,
                          deck: seq<Card>, built: seq<Card>)
    requires TableInvariant(started, players, turn, round, deck, built)
    ensures forall c :: Pool(players, round)[c] <= 1
    ensures forall c :: c in Pool(players, round) ==> c in built
  {
    NoDuplicatesWithinDeck(Pool(players, round), deck, built);
  }

  /** Under the invariant a card played this round is in nobody's hand. */
  lemma PlayedCardHeldByNoOne(started: bool, players: seq<Player>, turn: nat, round: seq<Card>,
                              deck: seq<Card>, built: seq<Card>, c: Card, i: nat)
    requires TableInvariant(started, players, turn, round, deck, built)
    requires c in round && i < |players|
    ensures c !in players[i].cards
  {
    NoCardTwiceInPlay(started, players, turn, round, deck, built);
    HandsOfSplit(players, i);
    assert multiset(round)[c] >= 1;
    assert Pool(players, round)[c] <= 1;
    assert HandsOf(players)[c] == 0;
    assert multiset(players[i].cards)[c] == 0;
  }
}
