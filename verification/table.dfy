/** The single game table: the four module-level variables of the server, the deck it
    reshuffles for every game, and the handlers that change them. Each handler is one
    atomic step, as the event loop runs them one at a time. Everything the server
    sends is appended to `outbox`. */
module Session {
  import opened Cards
  import opened Messages
  import opened Roster
  import opened Shuffle
  import opened Dealing
  import opened TableRules

  /** A fresh array holding `s`. */
  method ArrayOf<T>(s: seq<T>) returns (a: array<T>)
    ensures fresh(a) && a[..] == s
  {
    a := new T[|s|](i requires 0 <= i < |s| => s[i]);
  }

  class Table {
    var gameStarted: bool
    var players: seq<Player>
    var currentPlayerIndex: nat
    var currentRound: seq<Card>
    /** The deck built once at load; games reshuffle it in place and never rebuild it. */
    const deck: array<Card>
    /** The deck as it was built at load. */
    ghost const built: seq<Card>
    /** Every `ws.send` so far, in order. */
    var outbox: seq<Delivery>

    ghost predicate Valid()
      reads this`gameStarted, this`players, this`currentPlayerIndex, this`currentRound, deck
    {
      TableInvariant(gameStarted, players, currentPlayerIndex, currentRound, deck[..], built)
    }

    /** No field of the table differs from the state `old` refers to. */
    twostate predicate Unchanged()
      reads this
    {
      && gameStarted == old(gameStarted)
      && players == old(players)
      && currentPlayerIndex == old(currentPlayerIndex)
      && currentRound == old(currentRound)
      && outbox == old(outbox)
    }

    /** The condition `start` checks. */
    predicate CanStart()
      reads this`gameStarted, this`players
    {
      !gameStarted && |players| >= 4
    }

    /** The conditions `playCard` checks: a game is running, the caller's first seat is
        the seat to move, and that seat's hand holds the named card. */
    predicate CanPlay(ch: Channel, card: Card)
      reads this`gameStarted, this`players, this`currentPlayerIndex
    {
      && gameStarted
      && currentPlayerIndex == FirstSeat(players, ch)
      && FirstMatch(players[currentPlayerIndex].cards, card) != -1
    }

    /** What `join` does: between games the caller is seated last, with `id` the old
        roster length and an empty hand, and everyone (the newcomer included) is told;
        during a game only the caller is told to wait. */
    twostate predicate JoinEffect(ch: Channel, name: string)
      reads this
    {
      && gameStarted == old(gameStarted)
      && currentPlayerIndex == old(currentPlayerIndex) && currentRound == old(currentRound)
      && (!old(gameStarted) ==>
            && players == old(players) + [Player(|old(players)|, name, ch, [])]
            && outbox == old(outbox) + Fanout(players, Message(Joined(name))))
      && (old(gameStarted) ==>
            && players == old(players)
            && outbox == old(outbox) + [Delivery(ch, Message(AlreadyStarted))])
    }

    /** What `start` does: when `CanStart` held, the deck is shuffled with `draws`, every
        seat is dealt, the game is on with seat 0 to move, and hands, the start notice
        and the turn notice are sent in that order; otherwise only the caller is told. */
    twostate predicate StartEffect(ch: Channel, draws: seq<nat>)
      requires ValidDraws(draws, deck.Length)
      reads this, deck
    {
      && currentPlayerIndex == old(currentPlayerIndex) && currentRound == old(currentRound)
      && (old(CanStart()) ==>
            && gameStarted
            && currentPlayerIndex == 0
            && deck[..] == Shuffled(old(deck[..]), draws, Top(deck.Length))
            && players == Dealt(old(players), deck[..])
            && outbox == old(outbox) + HandNotices(players)
                        + Fanout(players, Message(GameStarted))
                        + Fanout(players, Message(Turn(0)))
            && (|players| == 4 ==> Pool(players, currentRound) == multiset(deck[..])))
      && (!old(CanStart()) ==>
            && gameStarted == old(gameStarted)
            && players == old(players)
            && deck[..] == old(deck[..])
            && outbox == old(outbox) + [Delivery(ch, Message(CannotStart))])
    }

    /** What `playCard` does: when `CanPlay` held, the first matching card leaves the
        mover's hand and joins the round, everyone is told who played what, and the turn
        passes on; otherwise nothing at all happens, not even a message. */
    twostate predicate PlayEffect(ch: Channel, card: Card)
      reads this
    {
      && (old(CanPlay(ch, card)) ==>
            var seat := old(currentPlayerIndex);
            var hand := old(players)[seat].cards;
            var k := FirstMatch(hand, card);
            && hand[k] == card
            && gameStarted
            && players == old(players)[seat := old(players)[seat].(cards := RemoveAt(hand, k))]
            && currentRound == old(currentRound) + [hand[k]]
            && currentPlayerIndex == (seat + 1) % |players|
            && outbox == old(outbox) + Fanout(players, Played(seat, card))
                        + Fanout(players, Message(Turn(currentPlayerIndex)))
            && Pool(players, currentRound) == old(Pool(players, currentRound)))
      && (!old(CanPlay(ch, card)) ==> Unchanged())
    }

    /** The state at module load: no game, no players, the deck as built. */
    constructor ()
      ensures Valid() && fresh(deck)
      ensures !gameStarted && players == [] && currentPlayerIndex == 0 && currentRound == []
      ensures built == StandardDeck() && deck[..] == built && outbox == []
    {
      InitialInvariant();
      var cards := ArrayOf(StandardDeck());
      gameStarted, players, currentPlayerIndex, currentRound := false, [], 0, [];
      deck, built, outbox := cards, StandardDeck(), [];
    }

    /** `broadcast`: the event goes to every current player, in roster order. */
    method Broadcast(e: Event)
      modifies this`outbox
      ensures outbox == old(outbox) + Fanout(players, e)
    {
      var i := 0;
      while i < |players|
        invariant 0 <= i <= |players|
        invariant outbox == old(outbox) + Fanout(players[..i], e)
      {
        outbox := outbox + [Delivery(players[i].channel, e)];
        i := i + 1;
      }
      assert players[..i] == players;
    }

    /** `dealCards`: seat `i` gets `deck.slice(13 i, 13 (i + 1))` and is sent it. */
    method DealCards()
      modifies this`players, this`outbox
      ensures players == Dealt(old(players), deck[..])
      ensures outbox == old(outbox) + HandNotices(players)
    {
      ghost var before := players;
      var i := 0;
      while i < |players|
        invariant 0 <= i <= |players| == |before|
        invariant forall k :: 0 <= k < i ==> players[k] == before[k].(cards := Hand(deck[..], k))
        invariant forall k :: i <= k < |players| ==> players[k] == before[k]
        invariant outbox == old(outbox) + HandNotices(players[..i])
      {
        var hand := Hand(deck[..], i);
        players := players[i := players[i].(cards := hand)];
        outbox := outbox + [Delivery(players[i].channel, CardsDealt(hand))];
        i := i + 1;
      }
      assert players[..i] == players;
    }

    /** `nextPlayer`: the turn passes to the next seat, wrapping around, and everyone
        is told whose turn it is. */
    method NextPlayer()
      requires players != []
      modifies this`currentPlayerIndex, this`outbox
      ensures currentPlayerIndex == (old(currentPlayerIndex) + 1) % |players|
      ensures currentPlayerIndex < |players|
      ensures outbox == old(outbox) + Fanout(players, Message(Turn(currentPlayerIndex)))
    {
      currentPlayerIndex := (currentPlayerIndex + 1) % |players|;
      Broadcast(Message(Turn(currentPlayerIndex)));
    }

    /** `join`. */
    method Join(ch: Channel, name: string)
      requires Valid()
      modifies this
      ensures Valid() && JoinEffect(ch, name)
    {
      if !gameStarted {
        var newcomer := Player(|players|, name, ch, []);
        JoinKeepsInvariant(players, currentPlayerIndex, currentRound, deck[..], built, newcomer);
        players := players + [newcomer];
        assert Valid();
        Broadcast(Message(Joined(name)));
      } else {
        outbox := outbox + [Delivery(ch, Message(AlreadyStarted))];
      }
    }

    /** `start`: shuffle with the supplied draws, deal, and announce. */
    method Start(ch: Channel, draws: seq<nat>)
      requires Valid() && ValidDraws(draws, deck.Length)
      modifies this, deck
      ensures Valid() && StartEffect(ch, draws)
    {
      if CanStart() {
        StartKeepsInvariant(players, currentPlayerIndex, currentRound, deck[..], built, draws);
        ShuffleDeck(deck, draws);
        DealCards();
        gameStarted := true;
        assert Valid();
        Broadcast(Message(GameStarted));
        Broadcast(Message(Turn(currentPlayerIndex)));
      } else {
        outbox := outbox + [Delivery(ch, Message(CannotStart))];
      }
    }

    /** `playCard`. */
    method PlayCard(ch: Channel, card: Card)
      requires Valid()
      modifies this
      ensures Valid() && PlayEffect(ch, card)
    {
      if CanPlay(ch, card) {
        var seat := currentPlayerIndex;
        var hand := players[seat].cards;
        var k := FirstMatch(hand, card);
        PlayKeepsInvariant(players, seat, currentRound, deck[..], built, k);
        var played := hand[k];
        players := players[seat := players[seat].(cards := RemoveAt(hand, k))];
        currentRound := currentRound + [played];
        assert Valid();
        Broadcast(Played(seat, card));
        NextPlayer();
        assert currentPlayerIndex == (seat + 1) % |players|;
      }
    }

    /** `close`: the caller's first seat, if any, is vacated, the others keeping their
        order. When the roster empties the table resets; the reset notice is broadcast
        to an empty roster, so nobody receives it. */
    method Close(ch: Channel)
      requires Valid()
      modifies this
      ensures Valid()
      ensures outbox == old(outbox)
      ensures FirstSeat(old(players), ch) == -1 ==> Unchanged()
      ensures FirstSeat(old(players), ch) != -1 ==>
                && players == RemoveAt(old(players), FirstSeat(old(players), ch))
                && (players == [] ==> !gameStarted && currentPlayerIndex == 0 && currentRound == [])
                && (players != [] ==>
                      && gameStarted == old(gameStarted)
                      && currentPlayerIndex == old(currentPlayerIndex)
                      && currentRound == old(currentRound))
    {
      var index := FirstSeat(players, ch);
      if index != -1 {
        CloseKeepsInvariant(gameStarted, players, currentPlayerIndex, currentRound, deck[..], built, index);
        players := RemoveAt(players, index);
        if |players| == 0 {
          gameStarted := false;
          currentPlayerIndex := 0;
          currentRound := [];
          assert Valid();
          Broadcast(Message(AllDisconnected));
        }
      }
    }

    /** The message handler: dispatch on the request's type. A message with no body and
        one of an unknown type are ignored. */
    method Handle(ch: Channel, req: Request, draws: seq<nat>)
      requires Valid() && ValidDraws(draws, deck.Length)
      modifies this, deck
      ensures Valid()
      ensures req.Join? ==> JoinEffect(ch, req.name) && unchanged(deck)
      ensures req.Start? ==> StartEffect(ch, draws)
      ensures req.PlayCard? ==> PlayEffect(ch, req.card) && unchanged(deck)
      ensures req.Empty? || req.Unknown? ==> Unchanged() && unchanged(deck)
      ensures !req.Start? ==> unchanged(deck)
    {
      match req
      case Join(name) => Join(ch, name);
      case Start => Start(ch, draws);
      case PlayCard(card) => PlayCard(ch, card);
      case Empty =>
      case Unknown =>
    }
  }
}
