/** Seats of a room: players, the fixed colour order, the display data
    derived from a seat's position, and the two filters the server applies
    to a seat list (humans only, and everyone but a departing connection). */
module Seats {

  /** The four seat colours, in seat order. */
  datatype Color = Red | Blue | Green | Yellow

  /** One seat. `id` is a connection id for a human and a synthetic
      "BOT_..." id for a bot. */
  datatype Player = Player(id: string, color: Color, isBot: bool, name: string, figure: string)

  const MAX_SEATS: nat := 4

  /** Seat k is always given COLORS[k], where k is the seat count at the time. */
  const COLORS: seq<Color> := [Red, Blue, Green, Yellow]

  /** The fixed colour-to-figure table. */
  function FigureOf(c: Color): string {
    match c
    case Red => "Mörder-Puppe"
    case Blue => "Grabkreuz"
    case Green => "Grabstein"
    case Yellow => "Poltergeist"
  }

  /** The display name of a human in seat `seat` (0-based): "Spieler 1" to "Spieler 4". */
  function SeatName(seat: nat): string
    requires seat < MAX_SEATS
  {
    "Spieler " + [('1' as int + seat) as char]
  }

  /** The four seat names written out. */
  lemma SeatNames()
    ensures SeatName(0) == "Spieler 1" && SeatName(1) == "Spieler 2"
    ensures SeatName(2) == "Spieler 3" && SeatName(3) == "Spieler 4"
  {
  }

  /** The human player who takes seat `seat`. */
  function HumanSeat(seat: nat, conn: string): Player
    requires seat < MAX_SEATS
  {
    Player(conn, COLORS[seat], false, SeatName(seat), FigureOf(COLORS[seat]))
  }

  /** The bot that fills seat `seat`; its id is "BOT_" followed by a random tag. */
  function BotSeat(seat: nat, tag: string): Player
    requires seat < MAX_SEATS
  {
    var c := COLORS[seat];
    Player("BOT_" + tag, c, true, "Bot (" + FigureOf(c) + ")", FigureOf(c))
  }

  lemma ColorsDistinct(i: nat, j: nat)
    requires i < j < MAX_SEATS
    ensures COLORS[i] != COLORS[j]
  {
  }

  /** The human seats of `ps`, in order (`players.filter(p => !p.isBot)`). */
  function Humans(ps: seq<Player>): (hs: seq<Player>)
    ensures |hs| <= |ps|
    ensures forall p :: p in hs <==> p in ps && !p.isBot
  {
    if ps == [] then []
    else
      assert ps == [ps[0]] + ps[1..];
      (if ps[0].isBot then [] else [ps[0]]) + Humans(ps[1..])
  }

  /** The seats of `ps` whose id is not `conn`, in order
      (`players.filter(p => p.id !== conn)`). */
  function Without(ps: seq<Player>, conn: string): (rest: seq<Player>)
    ensures |rest| <= |ps|
    ensures forall p :: p in rest <==> p in ps && p.id != conn
  {
    if ps == [] then []
    else
      assert ps == [ps[0]] + ps[1..];
      (if ps[0].id == conn then [] else [ps[0]]) + Without(ps[1..], conn)
  }

  /** On one seat the filter keeps it or drops it. */
  lemma WithoutOne(p: Player, conn: string)
    ensures Without([p], conn) == if p.id == conn then [] else [p]
  {
    assert [p][1..] == [];
  }

  /** The filter works seat by seat: it keeps the order of the seats it
      keeps, and every copy of a repeated seat. */
  lemma {:induction false} WithoutAppend(a: seq<Player>, b: seq<Player>, conn: string)
    ensures Without(a + b, conn) == Without(a, conn) + Without(b, conn)
    decreases |a|
  {
    if a == [] {
      assert a + b == b;
    } else {
      assert (a + b)[0] == a[0];
      assert (a + b)[1..] == a[1..] + b;
      WithoutAppend(a[1..], b, conn);
    }
  }

  /** A connection that holds no seat leaves the seat list as it is. */
  lemma {:induction false} WithoutNoSeat(ps: seq<Player>, conn: string)
    requires forall k :: 0 <= k < |ps| ==> ps[k].id != conn
    ensures Without(ps, conn) == ps
  {
    if ps != [] {
      WithoutNoSeat(ps[1..], conn);
    }
  }

  /** The first remaining seat is the first seat of `ps` not held by `conn`. */
  lemma {:induction false} WithoutFirst(ps: seq<Player>, conn: string, i: nat)
    requires i < |ps| && ps[i].id != conn
    requires forall j :: 0 <= j < i ==> ps[j].id == conn
    ensures Without(ps, conn) != [] && Without(ps, conn)[0] == ps[i]
  {
    if i > 0 {
      WithoutFirst(ps[1..], conn, i - 1);
    }
  }

  /** The seat list after the start-of-game fill: bots are appended while
      fewer than four seats are taken, the bot for seat k tagged `tags[k]`. */
  function Filled(ps: seq<Player>, tags: seq<string>): (r: seq<Player>)
    requires |tags| == MAX_SEATS
    decreases MAX_SEATS - |ps|
    ensures |r| == if |ps| < MAX_SEATS then MAX_SEATS else |ps|
    ensures r[..|ps|] == ps
    ensures forall k :: |ps| <= k < |r| ==> r[k] == BotSeat(k, tags[k])
  {
    if |ps| >= MAX_SEATS then ps
    else Filled(ps + [BotSeat(|ps|, tags[|ps|])], tags)
  }
}
