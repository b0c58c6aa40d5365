/** The ordered roster of joined players and the searches the handlers run over it. */
module Roster {
  import opened Cards
  import opened Messages

  /** A roster entry: `id` is the roster length when the player joined, `channel` the
      connection the player joined from, `cards` the hand. */
  datatype Player = Player(id: nat, name: string, channel: Channel, cards: seq<Card>)

  /** `players.findIndex(player => player.ws === ws)`: the first seat bound to `ch`,
      or -1 when no player is. */
  function FirstSeat(players: seq<Player>, ch: Channel): (r: int)
    ensures -1 <= r < |players|
    ensures r == -1 <==> forall i :: 0 <= i < |players| ==> players[i].channel != ch
    ensures r >= 0 ==> players[r].channel == ch && forall i :: 0 <= i < r ==> players[i].channel != ch
  {
    if players == [] then -1
    else if players[0].channel == ch then 0
    else var r := FirstSeat(players[1..], ch); if r == -1 then -1 else r + 1
  }

  /** `cards.findIndex(c => c.rank === card.rank && c.suit === card.suit)`: the first
      position holding `card`, or -1 when the hand does not hold it. */
  function FirstMatch(cards: seq<Card>, card: Card): (r: int)
    ensures -1 <= r < |cards|
    ensures r == -1 <==> card !in cards
    ensures r >= 0 ==> cards[r] == card && card !in cards[..r]
  {
    if cards == [] then -1
    else if cards[0].rank == card.rank && cards[0].suit == card.suit then 0
    else var r := FirstMatch(cards[1..], card); if r == -1 then -1 else r + 1
  }

  /** `seq.splice(i, 1)` on a value: `s` without its element at `i`. */
  function RemoveAt<T>(s: seq<T>, i: nat): (r: seq<T>)
    requires i < |s|
    ensures |r| == |s| - 1
    ensures forall k :: 0 <= k < i ==> r[k] == s[k]
    ensures forall k :: i <= k < |r| ==> r[k] == s[k + 1]
  {
    assert s == s[..i] + [s[i]] + s[i + 1..];
    s[..i] + s[i + 1..]
  }

  /** All cards held in the players' hands, together. */
  ghost function HandsOf(players: seq<Player>): multiset<Card> {
    if players == [] then multiset{} else multiset(players[0].cards) + HandsOf(players[1..])
  }

  lemma {:induction false} HandsOfConcat(a: seq<Player>, b: seq<Player>)
    ensures HandsOf(a + b) == HandsOf(a) + HandsOf(b)
  {
    if a == [] {
      assert a + b == b;
    } else {
      assert (a + b)[1..] == a[1..] + b;
      HandsOfConcat(a[1..], b);
    }
  }

  /** The pool splits around any seat: the players before it, its hand, the players after. */
  lemma HandsOfSplit(players: seq<Player>, i: nat)
    requires i < |players|
    ensures HandsOf(players) == HandsOf(players[..i]) + multiset(players[i].cards) + HandsOf(players[i + 1..])
  {
    var tail := [players[i]] + players[i + 1..];
    assert tail[0] == players[i] && tail[1..] == players[i + 1..];
    assert HandsOf(tail) == multiset(players[i].cards) + HandsOf(players[i + 1..]);
    assert players == players[..i] + tail;
    HandsOfConcat(players[..i], tail);
  }

  /** Replacing seat `i` swaps that seat's hand in the pool and leaves the rest. */
  lemma HandsOfReplace(players: seq<Player>, i: nat, p: Player)
    requires i < |players|
    ensures HandsOf(players[i := p]) == HandsOf(players[..i]) + multiset(p.cards) + HandsOf(players[i + 1..])
  {
    var after := players[i := p];
    HandsOfSplit(after, i);
    assert after[..i] == players[..i];
    assert after[i + 1..] == players[i + 1..];
  }

  lemma RemoveAtMultiset<T>(s: seq<T>, i: nat)
    requires i < |s|
    ensures multiset(RemoveAt(s, i)) + multiset{s[i]} == multiset(s)
  {
    assert s == s[..i] + [s[i]] + s[i + 1..];
  }

  /** Moving the card at position `k` of seat `i`'s hand onto the end of `round` keeps
      the pool of hands and round the same. */
  lemma HandsOfPlay(players: seq<Player>, i: nat, k: nat, round: seq<Card>)
    requires i < |players| && k < |players[i].cards|
    ensures var hand := players[i].cards;
            HandsOf(players[i := players[i].(cards := RemoveAt(hand, k))]) + multiset(round + [hand[k]])
              == HandsOf(players) + multiset(round)
  {
    var hand := players[i].cards;
    HandsOfSplit(players, i);
    HandsOfReplace(players, i, players[i].(cards := RemoveAt(hand, k)));
    RemoveAtMultiset(hand, k);
  }

  /** Removing one player drops exactly that player's hand from the pool. */
  lemma HandsOfRemove(players: seq<Player>, i: nat)
    requires i < |players|
    ensures HandsOf(RemoveAt(players, i)) + multiset(players[i].cards) == HandsOf(players)
  {
    HandsOfSplit(players, i);
    HandsOfConcat(players[..i], players[i + 1..]);
  }

  /** What `broadcast(event)` sends: the event to every player, in roster order. */
  function Fanout(players: seq<Player>, e: Event): (r: seq<Delivery>)
    ensures |r| == |players|
    ensures forall i :: 0 <= i < |players| ==> r[i] == Delivery(players[i].channel, e)
  {
    seq(|players|, i requires 0 <= i < |players| => Delivery(players[i].channel, e))
  }
}
