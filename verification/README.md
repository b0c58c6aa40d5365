# Hearts table server, modelled in Dafny

A model of `server.js`, a WebSocket server for one shared card table. It covers:

- The 52-card deck. It is built once at load, rank-major, by a `flatMap` over 13 ranks and 4 suits. Each game reshuffles it in place with Fisher–Yates.
- `dealCards`. Seat `i` gets `deck.slice(13 i, 13 (i + 1))`.
- `nextPlayer` and `broadcast`.
- The four handlers. Clients send `join`, `start` and `playCard`. A connection's `close` vacates its seat.

The server's four module-level variables, plus the deck, form the `Table` class (module `Session`). Each handler is a method on it and runs as one atomic step. A connection is an opaque `Channel` number. Every `ws.send` becomes an append to `outbox`, a sequence of (recipient, event) pairs. The contracts can therefore say who was told what, and in which order.

Module layout:

- `Cards` (cards.dfy): the card, the ranks and suits, the `flatMap` product, and the standard deck.
- `Shuffle` (shuffle.dfy): the in-place shuffle on an `array`. It is specified by the ghost function `Shuffled` over the supplied draws.
- `Messages` (messages.dfy): decoded requests, outbound events and notice texts.
- `Roster` (roster.dfy): players, the `findIndex` searches, `splice` as `RemoveAt`, and `HandsOf`, the multiset of all cards held.
- `Dealing` (dealing.dfy): `slice` with JavaScript's clamping, and the dealt roster.
- `TableRules` (rules.dfy): the table invariant over plain values, and one preservation lemma per handler.
- `Session` (table.dfy): the `Table` class.

The table invariant (`TableRules.TableInvariant`, which `Table.Valid` applies to the fields) states:

- The deck is always a permutation of the deck built at load, and that deck has no repeats.
- The cards in hands, together with the cards played this round, are a sub-multiset of the deck.
- Between games no one holds a card, nothing has been played, and seat 0 is to move.
- A running game has at least one player.

It deliberately does not say that the turn index is a seat during a game: `close` does not adjust it.

## Model

| member | source | states |
|---|---|---|
| Cards.Product | server.js:14 | `ranks.flatMap(rank => suits.map(...))`: each rank in turn with every suit, so the product has (number of ranks) × (number of suits) cards |
| Cards.FlatMapBuildsStandardDeck | server.js:12-14 | the `flatMap` over the ranks and suits yields exactly the standard deck, where position `k` holds rank `k / 4` and suit `k % 4` |
| Cards.ProductAt | server.js:14 | in the flatMap, rank `r` and suit `s` sit at position `r` × (number of suits) + `s` |
| Cards.ProductRankMajor | server.js:14 | for any ranks and four suits, the flatMap has four cards per rank in rank-major order |
| Cards.StandardDeckShape | server.js:12-14 | the deck has 52 pairwise-distinct cards, and a card is in it exactly when its rank is one of the 13 ranks and its suit one of the 4 suits |
| TableRules.NoDuplicatesWithinDeck | server.js:76-78 | any part of a permutation of a repeat-free deck holds each card at most once, and only cards of that deck |
| Shuffle.ShuffleDeck | server.js:17-22 | the in-place loop from `n - 1` down to 1 leaves the array equal to `Shuffled` of its old contents; the result is a permutation (same multiset); length 0 or 1 changes nothing |
| Shuffle.ShuffledPermutes | server.js:17-22 | every sequence of swaps with indices drawn in `[0, i]` keeps the length and the multiset |
| Shuffle.SwapPermutes | server.js:20 | the destructuring swap keeps the multiset |
| Roster.FirstSeat | server.js:75 | `players.findIndex(p => p.ws === ws)`: -1 exactly when no player is on the channel; otherwise the first such seat |
| Roster.FirstMatch | server.js:76 | the card search returns -1 exactly when the hand lacks the card; otherwise the first position holding it |
| Roster.RemoveAt | server.js:90 | `splice(i, 1)`: one element shorter; elements before `i` stay put and those after it move down by one |
| Roster.RemoveAtMultiset | server.js:78 | the spliced-out element and what remains together make up the old multiset |
| Roster.HandsOfPlay | server.js:78 | moving a hand's card onto the round keeps the multiset of all hands plus the round |
| Roster.HandsOfRemove | server.js:90 | removing a seat drops exactly that player's hand from the pooled hands |
| Dealing.Hand | server.js:27 | `deck.slice(13 i, 13 i + 13)`: at most 13 cards; its length is the clamped window; empty past the deck; 13 cards while the window fits; the cards are those at positions `13 i + k` |
| Dealing.DealtPool | server.js:25-30 | the dealt hands of `n` seats, pooled, are exactly the first `min(13 n, deck length)` cards of the deck |
| Dealing.DealtWithinDeck | server.js:25-30 | a deal never hands out more cards than the deck holds, whatever the roster size |
| Dealing.HandsDisjoint | server.js:27 | two different seats never share a card of a repeat-free deck |
| Dealing.FourPlayerDeal | server.js:25-30 | with 52 distinct cards: the first four seats get 13 cards each; seats 4 and later get none; hands are pairwise disjoint; the four hands in order are the deck; with exactly four players they pool to the whole deck |
| Messages.DecimalRoundTrip | server.js:35 | the digits the turn notice shows for a seat read back as that number |
| Messages.TurnTextShowsSeat | server.js:35 | `Text` of a turn notice, as at lines 35 and 70, is "Player ", decimal digits, then "'s turn", and the digits read back as the 1-based seat |
| Messages.TextInjective | server.js:35-95 | `Text`, the notice strings sent at lines 35, 60, 62, 69, 72 and 95: different notices never give the same text, so the text determines the notice, the joining name and the seat |
| Messages.TextEndsWithMark | server.js:60-95 | each notice's text ends in a character fixed by its kind ("joined the game", "'s turn", "Game started!", the three sentences ending in a full stop) |
| TableRules.InitialInvariant | server.js:6-14 | the state at load satisfies the table invariant |
| TableRules.JoinKeepsInvariant | server.js:58-60 | seating a player with an empty hand between games keeps the invariant |
| TableRules.StartKeepsInvariant | server.js:65-68 | shuffling, dealing and marking the game started keep the invariant; with four players the hands hold the whole deck |
| TableRules.PermutationKeepsDistinct | server.js:17-22 | a permutation of a repeat-free deck has no repeats either |
| TableRules.PlayKeepsInvariant | server.js:75-80 | moving a card from the mover's hand to the round and passing the turn keeps the invariant and the pool of cards in play |
| TableRules.CloseKeepsInvariant | server.js:88-95 | vacating a seat keeps the invariant, whether or not the table resets; the pool can only shrink |
| TableRules.NoCardTwiceInPlay | server.js:76-78 | under the invariant no card is in play twice, and every card in play comes from the deck built at load |
| TableRules.PlayedCardHeldByNoOne | server.js:78 | under the invariant a card played this round is in no player's hand |
| Session.ArrayOf | server.js:14 | a fresh array holding the given cards |
| Session.Table.constructor | server.js:6-14 | the state at load: not started, no players, turn 0, empty round, the standard deck (the one the `flatMap` builds, by `Cards.FlatMapBuildsStandardDeck`), nothing sent; the invariant holds |
| Session.Table.Broadcast | server.js:39-41 | the event is sent to every current player in roster order, and nothing else changes |
| Session.Table.DealCards | server.js:25-30 | seat `i` gets `Hand(deck, i)` with everything else about it kept, and each player is sent their own hand in roster order |
| Session.Table.NextPlayer | server.js:33-36 | the turn becomes `(old + 1) mod` the roster size and everyone is told the new turn |
| Session.Table.Join | server.js:57-63 | between games exactly one player is appended (id = old roster length, the name, the channel, no cards) and everyone, the newcomer included, is told; during a game the roster is unchanged and only the caller is refused; the invariant is kept |
| Session.Table.Start | server.js:64-73 | succeeds exactly when no game runs and at least four are seated; success shuffles, deals, marks the game started, keeps turn 0, and sends hands, then "Game started!", then seat 0's turn; with four players the hands hold the whole deck; failure changes no state and tells only the caller |
| Session.Table.PlayCard | server.js:74-82 | when the game runs, the caller's first seat is to move and the hand holds the card: the first matching card leaves that hand and joins the round, other seats are untouched, the turn advances modulo the roster, everyone is told the play (echoing the requested card) and the turn, and the pool of cards in play is kept; in every other case nothing changes and nothing is sent |
| Session.Table.Close | server.js:86-98 | no seat on the channel: nothing changes; otherwise exactly the first seat on it is removed, the others keeping their order; an emptied roster resets the table, otherwise the other fields stay; the reset notice reaches nobody, so the outbox is unchanged |
| Session.Table.Handle | server.js:47-84 | dispatch by request type: a `join` request has exactly `Join`'s effect, a `start` request `Start`'s, a `playCard` request `PlayCard`'s; an empty message or an unknown type changes nothing; only `start` touches the deck; the invariant is kept |

## Left out

- WebSocket server creation, the connection/message/close wiring and `console.log` are not modelled. Each handler is a method taking a channel id and an already-decoded request.
- `JSON.parse` and `JSON.stringify` are not modelled. Requests and events are datatypes. `JSON.parse` throws on a body that fails to parse. A `playCard` without a `card` throws only when the game runs, the caller is to move and their hand is non-empty, and is otherwise ignored. Both are outside the model. `Messages.Text` gives the exact notice strings but is not used by the handlers, which record notices as datatype values.
- `Math.random` is replaced by a caller-supplied sequence `draws` with `draws[i] <= i`. The model proves a permutation for every such sequence. It does not model how uniform the resulting shuffle is, which depends on floating-point randomness.
- Delivery through `ws.send` is not modelled: network I/O, failures on closed sockets, and ordering at the receiver. The outbox records what the server asks to send, in order.
- Player ids are stored at join time and never renumbered. The model keeps them as stored, and states nothing relating an id to a seat after a `close`.
- Behaviour of the server worth noting, which the model reproduces:
  - The deck is built once and reshuffled in place. It is not rebuilt for each game.
  - `start` does not set the turn to 0. It is already 0 between games, by the invariant.
  - A failed `playCard` sends nothing, and a failed `start` sends one message whatever the reason.
  - `close` does not adjust the turn index. After a player leaves mid-game, the index may name no seat, and then no one can play until the table empties.
  - The reset notice goes to an empty roster, so nobody receives it.
