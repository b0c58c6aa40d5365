/** What clients send to the table and what the table sends back, already decoded
    from and not yet encoded to JSON. */
module Messages {
  import opened Cards

  /** An opaque handle for one client connection. */
  type Channel = nat

  /** An inbound message, by its `type` field. `Empty` is a message with no body and
      `Unknown` one whose `type` is none of the three the server handles. */
  datatype Request =
    | Join(name: string)
    | Start
    | PlayCard(card: Card)
    | Empty
    | Unknown

  /** The free-text notices of `message` events. `Turn(seat)` names the 0-based seat
      and is shown 1-based. */
  datatype Notice =
    | Joined(name: string)
    | AlreadyStarted
    | CannotStart
    | GameStarted
    | Turn(seat: nat)
    | AllDisconnected

  /** An outbound message, by its `type` field. */
  datatype Event =
    | Message(notice: Notice)
    | CardsDealt(cards: seq<Card>)
    | Played(playerId: nat, card: Card)

  /** One `ws.send`: who was sent which event. */
  datatype Delivery = Delivery(to: Channel, event: Event)

  /** Decimal digits of `n`, most significant first, as a template literal shows it. */
  function Decimal(n: nat): (r: string)
    ensures |r| >= 1
    ensures forall k :: 0 <= k < |r| ==> '0' <= r[k] <= '9'
  {
    if n < 10 then [Digit(n)] else Decimal(n / 10) + [Digit(n % 10)]
  }

  function Digit(d: nat): (c: char)
    requires d < 10
    ensures '0' <= c <= '9'
  {
    ['0', '1', '2', '3', '4', '5', '6', '7', '8', '9'][d]
  }

  /** The number a string of decimal digits denotes, read most significant first. */
  function DigitsValue(s: string): nat
    requires forall k :: 0 <= k < |s| ==> '0' <= s[k] <= '9'
  {
    if s == [] then 0 else 10 * DigitsValue(s[..|s| - 1]) + (s[|s| - 1] as int - '0' as int)
  }

  /** Reading back the digits of `Decimal(n)` gives `n`: the seat a `Turn` notice shows
      is recoverable from its text. */
  lemma {:induction false} DecimalRoundTrip(n: nat)
    ensures DigitsValue(Decimal(n)) == n
  {
    if n >= 10 {
      var r := Decimal(n);
      assert r[..|r| - 1] == Decimal(n / 10);
      DecimalRoundTrip(n / 10);
    }
  }

  /** The `message` text the server sends for each notice. */
  function Text(n: Notice): string {
    match n
    case Joined(name) => name + " joined the game"
    case AlreadyStarted => "Game already started. Please wait for the next game."
    case CannotStart => "Cannot start game. Not enough players or game already started."
    case GameStarted => "Game started!"
    case Turn(seat) => "Player " + Decimal(seat + 1) + "'s turn"
    case AllDisconnected => "All players disconnected. Game reset."
  }

  /** A turn notice reads "Player ", then digits, then "'s turn", and the digits read
      back as the 1-based seat. */
  lemma TurnTextShowsSeat(seat: nat)
    ensures var t := Text(Turn(seat));
            && |t| > 14
            && t[..7] == "Player " && t[|t| - 7..] == "'s turn"
            && (forall k :: 7 <= k < |t| - 7 ==> '0' <= t[k] <= '9')
            && DigitsValue(t[7..|t| - 7]) == seat + 1
  {
    var d := Decimal(seat + 1);
    var t := Text(Turn(seat));
    assert t == "Player " + d + "'s turn";
    assert t[7..|t| - 7] == d;
    DecimalRoundTrip(seat + 1);
  }

  /** The last character of each notice's text. */
  function EndMark(n: Notice): char {
    match n
    case Joined(_) => 'e'
    case GameStarted => '!'
    case Turn(_) => 'n'
    case _ => '.'
  }

  lemma TextEndsWithMark(n: Notice)
    ensures |Text(n)| > 0 && Text(n)[|Text(n)| - 1] == EndMark(n)
  {
    if n.Turn? {
      var t := Text(n);
      assert t == ("Player " + Decimal(n.seat + 1)) + "'s turn";
    }
  }

  /** Different notices never read the same: a client can tell from the text alone
      which notice it was sent, and for whom or for which seat. */
  lemma TextInjective(a: Notice, b: Notice)
    ensures Text(a) == Text(b) ==> a == b
  {
    if Text(a) == Text(b) {
      var t := Text(a);
      TextEndsWithMark(a);
      TextEndsWithMark(b);
      if a.Joined? && b.Joined? {
        assert a.name == t[..|a.name|] && b.name == t[..|b.name|];
      } else if a.Turn? && b.Turn? {
        TurnTextShowsSeat(a.seat);
        TurnTextShowsSeat(b.seat);
      } else if EndMark(a) == '.' && EndMark(b) == '.' {
        assert t[0] == Text(b)[0];
      }
    }
  }
}
