/** The room registry of server.js and its socket event handlers.
    `rooms` maps a room id to its Room and `socketRoomMap` maps a
    connection to the room it last joined. Each handler runs to completion
    before the next event, so each is one method; what it broadcasts is
    returned as the list of outgoing messages, in emission order. */
module Server {
  import opened Seats
  import opened Rooms
  import Traps

  type RoomId = string
  type ConnId = string

  /** The turn time limit in milliseconds; turnChanged announces it in seconds. */
  const TURN_TIMEOUT: int := 15000

  const IN_PROGRESS_MSG: string := "Spiel läuft bereits! Versuche einen anderen Raumnamen."
  const FULL_MSG: string := "Raum ist voll!"

  /** The payloads the server emits. */
  datatype Event =
    | LobbyUpdate(players: seq<Player>, hostId: string)
    | SetIdentity(color: Color, figure: string, isHost: bool)
    | ErrorMsg(text: string)
    | GameStarted(players: seq<Player>, trapFields: seq<int>)
    | TurnChanged(activeColor: Color, activeName: string, isBot: bool, timeout: int)
    | StatusMessage(msg: string)
    | DiceRolled(playerId: string, value: int)
    | PieceMoved(playerId: string, pieceId: int, newPosition: int)

  /** An emitted event and its recipients: every connection of a room, or one connection. */
  datatype Message = ToRoom(room: RoomId, event: Event) | ToConn(conn: ConnId, event: Event)

  /** The turnChanged broadcast naming the player whose turn it now is. */
  function TurnAnnouncement(roomId: RoomId, r: Room): Message
    requires 0 <= r.turnIndex < |r.players|
  {
    var p := r.players[r.turnIndex];
    ToRoom(roomId, TurnChanged(p.color, p.name, p.isBot, TURN_TIMEOUT / 1000))
  }

  /** The status message of an expired turn, naming the player it was armed for. */
  function ExpiryNotice(roomId: RoomId, owner: Player): Message {
    ToRoom(roomId, StatusMessage("Zeit abgelaufen für " + owner.name + "!"))
  }

  /** The die a draw selects: floor(u * 6) + 1. */
  function DiceValue(u: real): (v: int)
    requires Traps.IsDraw(u)
    ensures 1 <= v <= 6
  {
    (u * 6.0).Floor + 1
  }

  /** The room a join acts on: the stored one, unless there is none or it
      has no human left, in which case a new room hosted by the joiner. */
  function JoinTarget(rooms: map<RoomId, Room>, roomId: RoomId, conn: ConnId, draws: seq<real>): Room
    requires Traps.AllDraws(draws)
  {
    if roomId in rooms && !Stale(rooms[roomId]) then rooms[roomId]
    else NewRoom(conn, Traps.Sample([], draws))
  }

  /** What a join sends: a rejection to the joiner, or the new roster to the
      room and the joiner's identity to the joiner. */
  function JoinReplies(roomId: RoomId, conn: ConnId, target: Room): seq<Message> {
    if target.status == Playing then [ToConn(conn, ErrorMsg(IN_PROGRESS_MSG))]
    else if |target.players| >= MAX_SEATS then [ToConn(conn, ErrorMsg(FULL_MSG))]
    else
      var seat := HumanSeat(|target.players|, conn);
      [ ToRoom(roomId, LobbyUpdate(target.players + [seat], target.host)),
        ToConn(conn, SetIdentity(seat.color, seat.figure, target.host == conn)) ]
  }

  /** Every room of `m` is a valid room. */
  ghost predicate AllValid(m: map<RoomId, Room>) {
    forall id :: id in m ==> m[id].Valid()
  }

  /** Every room of `m` has a human seat. */
  ghost predicate NoneStale(m: map<RoomId, Room>) {
    forall id :: id in m ==> !Stale(m[id])
  }

  lemma StoreRoom(m: map<RoomId, Room>, id: RoomId, r: Room)
    requires AllValid(m) && r.Valid()
    ensures AllValid(m[id := r])
    ensures NoneStale(m) && !Stale(r) ==> NoneStale(m[id := r])
  {
  }

  lemma DropRoom(m: map<RoomId, Room>, id: RoomId)
    requires AllValid(m)
    ensures AllValid(m - {id})
    ensures NoneStale(m) ==> NoneStale(m - {id})
  {
  }

  lemma ReplaceAfterDrop(m: map<RoomId, Room>, id: RoomId, r: Room)
    ensures (m - {id})[id := r] == m[id := r]
  {
  }

  lemma MapOverwrite(m: map<RoomId, Room>, id: RoomId, r: Room, r': Room)
    ensures m[id := r][id := r'] == m[id := r']
  {
  }

  /** A seat taken in a valid room, or in a fresh room with a complete
      layout, gives a valid room that has a human. */
  lemma JoinedRoomValid(r: Room, conn: ConnId)
    requires HasFreeSeat(r)
    requires r.Valid() || (r.players == [] && r.host == conn && r.turnIndex == -1 && Traps.IsLayout(r.trapFields))
    ensures Admit(r, conn).Valid() && !Stale(Admit(r, conn))
  {
    var a := Admit(r, conn);
    assert a.players[|r.players|] in Humans(a.players);
    if r.players != [] {
      assert a.players[0] == r.players[0];
    }
  }

  class Registry {
    var rooms: map<RoomId, Room>
    var socketRoomMap: map<ConnId, RoomId>

    ghost predicate Valid()
      reads this
    {
      AllValid(rooms)
    }

    /** Every stored room has a human seat. The handlers keep this, so the
        stale-room reset of a join never applies to a registry that started
        empty. */
    ghost predicate NoStaleRooms()
      reads this
    {
      NoneStale(rooms)
    }

    /** The room a disconnect of `conn` cleans up: the one it is bound to,
        unless the binding is the empty id (falsy in the source) or names
        a room that no longer exists. */
    ghost function BoundRoom(conn: ConnId): Option<RoomId>
      reads this
    {
      if conn in socketRoomMap && socketRoomMap[conn] != "" && socketRoomMap[conn] in rooms
      then Some(socketRoomMap[conn]) else None
    }

    constructor ()
      ensures Valid() && NoStaleRooms()
      ensures rooms == map[] && socketRoomMap == map[]
    {
      rooms := map[];
      socketRoomMap := map[];
    }

    /** nextTurn: cancel the room's timer, pass the turn to the next seat,
        announce it and arm a new timer for that seat. */
    method NextTurn(roomId: RoomId) returns (out: seq<Message>)
      requires Valid()
      modifies this
      ensures Valid() && socketRoomMap == old(socketRoomMap)
      ensures roomId !in old(rooms) ==> rooms == old(rooms) && out == []
      ensures roomId in old(rooms) ==>
        && rooms == old(rooms)[roomId := Advanced(old(rooms)[roomId])]
        && out == [TurnAnnouncement(roomId, rooms[roomId])]
      ensures old(NoStaleRooms()) ==> NoStaleRooms()
    {
      if roomId !in rooms {
        return [];
      }
      var room := rooms[roomId];
      room := room.(timer := Idle);
      var t := NextTurnIndex(room.turnIndex, |room.players|);
      room := room.(turnIndex := t);
      var active := room.players[t];
      out := [ToRoom(roomId, TurnChanged(active.color, active.name, active.isBot, TURN_TIMEOUT / 1000))];
      room := room.(timer := Pending(active));
      rooms := rooms[roomId := room];
    }

    /** The expiry of the room's timer. A cancelled timer never fires; a
        pending one names the player it was armed for and advances the turn. */
    method FireTimer(roomId: RoomId) returns (out: seq<Message>)
      requires Valid()
      modifies this
      ensures Valid() && socketRoomMap == old(socketRoomMap)
      ensures !(roomId in old(rooms) && old(rooms)[roomId].timer.Pending?) ==>
        rooms == old(rooms) && out == []
      ensures roomId in old(rooms) && old(rooms)[roomId].timer.Pending? ==>
        && rooms == old(rooms)[roomId := Advanced(old(rooms)[roomId])]
        && out == [ExpiryNotice(roomId, old(rooms)[roomId].timer.owner), TurnAnnouncement(roomId, rooms[roomId])]
      ensures old(NoStaleRooms()) ==> NoStaleRooms()
    {
      if roomId !in rooms || !rooms[roomId].timer.Pending? {
        return [];
      }
      var notice := ExpiryNotice(roomId, rooms[roomId].timer.owner);
      var turn := NextTurn(roomId);
      out := [notice] + turn;
    }

    /** joinGame: reset a stale room, bind the connection, create the room
        if needed, then seat the joiner or reject the join. */
    method Join(conn: ConnId, roomId: RoomId, draws: seq<real>) returns (out: seq<Message>)
      requires Valid() && Traps.Completes(draws)
      modifies this
      ensures Valid()
      ensures socketRoomMap == old(socketRoomMap)[conn := roomId]
      ensures rooms == old(rooms)[roomId := Admit(JoinTarget(old(rooms), roomId, conn, draws), conn)]
      ensures out == JoinReplies(roomId, conn, JoinTarget(old(rooms), roomId, conn, draws))
      // a fresh room: the joiner is its host and holds seat 0
      ensures roomId !in old(rooms) || Stale(old(rooms)[roomId]) ==>
        rooms[roomId] == Room([HumanSeat(0, conn)], Waiting, conn, Traps.Sample([], draws), -1, Idle)
      // a rejected join changes no room
      ensures !HasFreeSeat(JoinTarget(old(rooms), roomId, conn, draws)) ==> rooms == old(rooms)
      ensures !Stale(rooms[roomId])
      ensures old(NoStaleRooms()) ==> NoStaleRooms()
    {
      var room := OpenRoom(conn, roomId, draws);
      socketRoomMap := socketRoomMap[conn := roomId];
      if room.status == Playing {
        out := [ToConn(conn, ErrorMsg(IN_PROGRESS_MSG))];
      } else if |room.players| < MAX_SEATS {
        var seat := HumanSeat(|room.players|, conn);
        JoinedRoomValid(room, conn);
        ReplaceAfterDrop(old(rooms), roomId, Admit(room, conn));
        room := room.(players := room.players + [seat]);
        StoreRoom(rooms, roomId, room);
        rooms := rooms[roomId := room];
        out := [ ToRoom(roomId, LobbyUpdate(room.players, room.host)),
                 ToConn(conn, SetIdentity(seat.color, seat.figure, room.host == conn)) ];
      } else {
        out := [ToConn(conn, ErrorMsg(FULL_MSG))];
      }
    }

    /** The first half of joinGame: discard a stale room and give back the
        room the join acts on, a new one when there is none. A new room is
        stored by the caller, once it has seated its creator. */
    method OpenRoom(conn: ConnId, roomId: RoomId, draws: seq<real>) returns (room: Room)
      requires Valid() && Traps.Completes(draws)
      modifies this`rooms
      ensures Valid()
      ensures room == JoinTarget(old(rooms), roomId, conn, draws)
      ensures rooms == if roomId in old(rooms) && Stale(old(rooms)[roomId]) then old(rooms) - {roomId} else old(rooms)
      ensures roomId in rooms ==> room == rooms[roomId]
      ensures room.Valid() || (room.players == [] && room.host == conn && room.turnIndex == -1 && room.status == Waiting && Traps.IsLayout(room.trapFields))
      ensures old(NoStaleRooms()) ==> NoStaleRooms()
    {
      if roomId in rooms && Stale(rooms[roomId]) {
        DropRoom(rooms, roomId);
        rooms := rooms - {roomId};
      }
      if roomId in rooms {
        room := rooms[roomId];
      } else {
        var traps := Traps.GenerateTrapFields(draws);
        room := NewRoom(conn, traps);
      }
    }

    /** requestStartGame: only the host of an existing room may start it;
        bots fill the free seats, the game starts and the first turn begins. */
    method RequestStartGame(conn: ConnId, roomId: RoomId, tags: seq<string>) returns (out: seq<Message>)
      requires Valid() && |tags| == MAX_SEATS
      modifies this
      ensures Valid() && socketRoomMap == old(socketRoomMap)
      ensures !(roomId in old(rooms) && old(rooms)[roomId].host == conn) ==> rooms == old(rooms) && out == []
      ensures roomId in old(rooms) && old(rooms)[roomId].host == conn ==>
        && rooms == old(rooms)[roomId := Started(old(rooms)[roomId], tags)]
        && out == [ ToRoom(roomId, GameStarted(rooms[roomId].players, rooms[roomId].trapFields)),
                    TurnAnnouncement(roomId, rooms[roomId]) ]
      ensures old(NoStaleRooms()) ==> NoStaleRooms()
    {
      if roomId !in rooms || rooms[roomId].host != conn {
        return [];
      }
      var room := rooms[roomId];
      ghost var started := Started(room, tags);
      StartedKeepsHumans(room, tags);
      var players := FillWithBots(room.players, tags);
      room := room.(players := players, status := Playing);
      out := [ToRoom(roomId, GameStarted(room.players, room.trapFields))];
      room := room.(turnIndex := -1);
      StoreRoom(rooms, roomId, room);
      MapOverwrite(old(rooms), roomId, room, started);
      rooms := rooms[roomId := room];
      var turn := NextTurn(roomId);
      out := out + turn;
    }

    /** rollDice: cancel the room's timer and broadcast a die value; the turn
        itself does not move. */
    method RollDice(conn: ConnId, roomId: RoomId, u: real) returns (out: seq<Message>)
      requires Valid() && Traps.IsDraw(u)
      modifies this
      ensures Valid() && socketRoomMap == old(socketRoomMap)
      ensures roomId !in old(rooms) ==> rooms == old(rooms) && out == []
      ensures roomId in old(rooms) ==>
        && rooms == old(rooms)[roomId := old(rooms)[roomId].(timer := Idle)]
        && out == [ToRoom(roomId, DiceRolled(conn, DiceValue(u)))]
      ensures old(NoStaleRooms()) ==> NoStaleRooms()
    {
      if roomId !in rooms {
        return [];
      }
      rooms := rooms[roomId := rooms[roomId].(timer := Idle)];
      var value := DiceValue(u);
      out := [ToRoom(roomId, DiceRolled(conn, value))];
    }

    /** movePiece: relay the move to the room; no state is read or changed. */
    method MovePiece(conn: ConnId, roomId: RoomId, pieceId: int, newPosition: int) returns (out: seq<Message>)
      ensures out == [ToRoom(roomId, PieceMoved(conn, pieceId, newPosition))]
    {
      out := [ToRoom(roomId, PieceMoved(conn, pieceId, newPosition))];
    }

    /** endTurn: the same turn advance as a timeout. */
    method EndTurn(roomId: RoomId) returns (out: seq<Message>)
      requires Valid()
      modifies this
      ensures Valid() && socketRoomMap == old(socketRoomMap)
      ensures roomId !in old(rooms) ==> rooms == old(rooms) && out == []
      ensures roomId in old(rooms) ==>
        && rooms == old(rooms)[roomId := Advanced(old(rooms)[roomId])]
        && out == [TurnAnnouncement(roomId, rooms[roomId])]
      ensures old(NoStaleRooms()) ==> NoStaleRooms()
    {
      out := NextTurn(roomId);
    }

    /** disconnect: remove the connection's seats from the room it is bound
        to, delete the room when no human is left, migrate the host of a
        waiting room, and drop the connection's binding in every case. */
    method Disconnect(conn: ConnId) returns (out: seq<Message>)
      requires Valid()
      modifies this
      ensures Valid()
      ensures socketRoomMap == old(socketRoomMap) - {conn}
      ensures old(BoundRoom(conn)).None? ==> rooms == old(rooms) && out == []
      ensures old(BoundRoom(conn)).Some? ==>
        var roomId := old(BoundRoom(conn)).value;
        match Departed(old(rooms)[roomId], conn)
        case None => rooms == old(rooms) - {roomId} && out == []
        case Some(r) =>
          && rooms == old(rooms)[roomId := r]
          && out == if r.status == Waiting then [ToRoom(roomId, LobbyUpdate(r.players, r.host))] else []
      ensures old(NoStaleRooms()) ==> NoStaleRooms()
    {
      out := [];
      if conn in socketRoomMap && socketRoomMap[conn] != "" && socketRoomMap[conn] in rooms {
        var roomId := socketRoomMap[conn];
        var room := rooms[roomId];
        ghost var after := Departed(room, conn);
        var rest := Without(room.players, conn);
        if |Humans(rest)| == 0 {
          DropRoom(rooms, roomId);
          rooms := rooms - {roomId};
        } else {
          room := room.(players := rest);
          if room.status == Waiting {
            out := [ToRoom(roomId, LobbyUpdate(rest, rest[0].id))];
            room := room.(host := rest[0].id);
          }
          assert after == Some(room);
          StoreRoom(rooms, roomId, room);
          rooms := rooms[roomId := room];
        }
      }
      socketRoomMap := socketRoomMap - {conn};
    }
  }

  /** Four joins fill a fresh room; any further join is told the room is
      full and changes nothing. */
  lemma FullRoomRejects(roomId: RoomId, host: ConnId, traps: seq<int>, conns: seq<ConnId>, late: ConnId)
    requires |conns| >= MAX_SEATS
    ensures var r := Joins(NewRoom(host, traps), conns);
      && |r.players| == MAX_SEATS
      && JoinReplies(roomId, late, r) == [ToConn(late, ErrorMsg(FULL_MSG))]
      && Admit(r, late) == r
  {
    JoinsSeatInOrder(NewRoom(host, traps), [], conns);
    assert [] + conns == conns;
  }

  /** The room a lone host's start produces: the host keeps seat 0 and
      the first turn, bots take the three other seats. */
  lemma StartedAlone(r: Room, tags: seq<string>, h: string)
    requires r.Valid() && r.players == [HumanSeat(0, h)] && |tags| == MAX_SEATS
    ensures Started(r, tags) == r.(players := [HumanSeat(0, h), BotSeat(1, tags[1]), BotSeat(2, tags[2]), BotSeat(3, tags[3])],
                                  status := Playing, turnIndex := 0, timer := Pending(HumanSeat(0, h)))
  {
    var s := Started(r, tags);
    assert s.players[0] == s.players[..1][0];
  }

  /** What a lone host's start announces: the first turn is seat 0's. */
  lemma OpeningTurn(roomId: RoomId, r: Room, tags: seq<string>, h: string)
    requires r.Valid() && r.players == [HumanSeat(0, h)] && |tags| == MAX_SEATS
    ensures TurnAnnouncement(roomId, Started(r, tags)) == ToRoom(roomId, TurnChanged(Red, "Spieler 1", false, 15))
  {
    StartedAlone(r, tags, h);
    SeatNames();
  }

  /** When that first turn runs out: the notice names seat 0's player and
      the turn passes to the bot in seat 1. */
  lemma OpeningTurnExpires(roomId: RoomId, r: Room, tags: seq<string>, h: string)
    requires r.Valid() && r.players == [HumanSeat(0, h)] && |tags| == MAX_SEATS
    ensures ExpiryNotice(roomId, Started(r, tags).timer.owner) == ToRoom(roomId, StatusMessage("Zeit abgelaufen für Spieler 1!"))
    ensures TurnAnnouncement(roomId, Advanced(Started(r, tags))) == ToRoom(roomId, TurnChanged(Blue, "Bot (Grabkreuz)", true, 15))
  {
    StartedAlone(r, tags, h);
    SeatNames();
    assert "Zeit abgelaufen für " + "Spieler 1" + "!" == "Zeit abgelaufen für Spieler 1!";
    assert "Bot (" + FigureOf(Blue) + ")" == "Bot (Grabkreuz)";
  }

  /** A host alone starts the game: bots take seats 1 to 3 (blue, green
      and yellow) and the first turn is the host's. */
  method StartScenario(draws: seq<real>, tags: seq<string>) returns (out: seq<Message>)
    requires Traps.Completes(draws) && |tags| == MAX_SEATS
    ensures out == [ ToRoom("R", GameStarted([HumanSeat(0, "A"), BotSeat(1, tags[1]), BotSeat(2, tags[2]), BotSeat(3, tags[3])],
                                             Traps.Sample([], draws))),
                     ToRoom("R", TurnChanged(Red, "Spieler 1", false, 15)) ]
  {
    var reg := new Registry();
    out := reg.Join("A", "R", draws);
    ghost var r0 := reg.rooms["R"];
    assert r0.players == [HumanSeat(0, "A")];
    StartedAlone(r0, tags, "A");
    assert r0.host == "A" && r0.trapFields == Traps.Sample([], draws);
    out := reg.RequestStartGame("A", "R", tags);
    OpeningTurn("R", r0, tags, "A");
  }

  /** A turn that runs out names its player and passes the turn on, here
      to the first bot. */
  method TimeoutScenario(draws: seq<real>, tags: seq<string>) returns (out: seq<Message>)
    requires Traps.Completes(draws) && |tags| == MAX_SEATS
    ensures out == [ ToRoom("R", StatusMessage("Zeit abgelaufen für Spieler 1!")),
                     ToRoom("R", TurnChanged(Blue, "Bot (Grabkreuz)", true, 15)) ]
  {
    var reg := new Registry();
    out := reg.Join("A", "R", draws);
    ghost var r0 := reg.rooms["R"];
    assert r0.players == [HumanSeat(0, "A")];
    assert r0.host == "A";
    OpeningTurnExpires("R", r0, tags, "A");
    out := reg.RequestStartGame("A", "R", tags);
    out := reg.FireTimer("R");
  }

  /** A roll cancels the turn's timer: nothing expires afterwards and the
      turn stays where it was until an explicit endTurn. */
  method RollScenario(draws: seq<real>, tags: seq<string>, u: real) returns (out: seq<Message>, turn: int)
    requires Traps.Completes(draws) && |tags| == MAX_SEATS && Traps.IsDraw(u)
    ensures out == [] && turn == 0
  {
    var reg := new Registry();
    out := reg.Join("A", "R", draws);
    out := reg.RequestStartGame("A", "R", tags);
    out := reg.RollDice("A", "R", u);
    out := reg.FireTimer("R");
    turn := reg.rooms["R"].turnIndex;
  }

  /** The last human leaves: the room is deleted, and the next join to the
      same id creates a fresh room with a freshly drawn layout. */
  method LastLeavesScenario(draws: seq<real>, redraws: seq<real>) returns (gone: bool, again: Room)
    requires Traps.Completes(draws) && Traps.Completes(redraws)
    ensures gone
    ensures again == Room([HumanSeat(0, "B")], Waiting, "B", Traps.Sample([], redraws), -1, Idle)
  {
    var reg := new Registry();
    var out := reg.Join("A", "R", draws);
    ghost var r0 := reg.rooms["R"];
    assert r0.players == [HumanSeat(0, "A")];
    assert Without(r0.players, "A") == [];
    assert Departed(r0, "A") == None;
    assert reg.BoundRoom("A") == Some("R");
    out := reg.Disconnect("A");
    assert reg.rooms == map[];
    gone := "R" !in reg.rooms;
    out := reg.Join("B", "R", redraws);
    again := reg.rooms["R"];
  }
}
