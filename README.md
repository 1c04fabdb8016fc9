# Room and turn state machine of the board-game server

`server.js` is the socket.io back end of a four-seat online board game. It keeps
two process-wide dictionaries:
- `rooms` maps a room id to its room: seats, status, host, trap layout, turn index and timer;
- `socketRoomMap` maps a connection id to the room that connection last joined.

Its event handlers are `joinGame`, `requestStartGame`, `rollDice`, `movePiece`, `endTurn` and `disconnect`. Together with `nextTurn` and `generateTrapFields` they update the two dictionaries.

This project models that state machine in Dafny and proves what each handler does to it.

- `Seats` (`seats.dfy`): players, the fixed colour order and colour-to-figure table, seat names, the start-of-game bot fill, and the two `filter` expressions (humans only; everyone but a departing connection).
- `Traps` (`traps.dfy`): the trap layout.
  - `generateTrapFields` is a `while` loop over a finite stream of random draws.
  - It is proved against the rejection-sampling function `Sample`.
  - A lemma gives a condition on the stream under which the loop finishes.
- `Rooms` (`rooms.dfy`): the `Room` value and the transitions the handlers apply to it:
  - a join admits the joiner to the next seat;
  - a turn advance moves the index modulo the seat count and re-arms the one timer;
  - a start fills the free seats with bots;
  - a departure compacts the seats, deletes the room when no human is left, and migrates the host.
- `Server` (`server.dfy`): class `Registry` with the fields `rooms` and `socketRoomMap`.
  - Each handler is one method. Those that change state have `modifies this` (`OpenRoom`, the first half of a join, changes only `rooms`); `MovePiece` changes nothing and has no `modifies` clause. Each method's `ensures` give the whole new state, and the outgoing messages in emission order.
  - Every handler keeps the room invariant `Room.Valid`: one to four seats, a turn index of at least -1, a complete trap layout, and, while waiting, only humans with the host in seat 0.
  - Every handler also keeps "every stored room has a human".
  - A few short event sequences from a fresh registry are proved end to end.

Randomness enters as parameters:
- each trap draw and the die draw is a real `u` in [0, 1); the source's `Math.floor(Math.random() * 40)` and `Math.floor(Math.random() * 6) + 1` become `Floor(u * 40)` and `Floor(u * 6) + 1`;
- the random suffix of each bot id is a tag string.

A room's timer is the value `Idle` or `Pending(owner)`. `owner` is the player the callback was armed for, whose name the expiry notice uses. The expiry of a timer is the explicit action `FireTimer`. It does something only while the timer is pending.

Behaviour of the code the model keeps:
- A new room's host is its creator (server.js:69).
- A joiner gets `colors[players.length]` (server.js:86), so after a departure two players can share a colour, as `Rooms.ColourRepeatsAfterLeave` shows.
- The stale-room reset of a join is kept (server.js:57-60); its un-cancelled timer is not (see "## Left out"). With `NoStaleRooms`, which every handler keeps, that branch is never taken from a fresh registry.
- A disconnect treats a binding to the empty room id as no binding, because the empty string is falsy (server.js:161).
- A disconnect acts on the room the connection is bound to, even when the connection holds no seat there. This happens after a rejected join. `Rooms.DepartedWithoutSeat` shows that room is then left as it was. An accepted join elsewhere rebinds the connection to the new room (server.js:63), where it then holds a seat (server.js:95). `Server.Registry.Disconnect` changes no other room, so a seat the connection still holds in an earlier room stays.
- A roll cancels the turn's timer without advancing the turn, so the turn waits for an explicit `endTurn` (`Server.RollScenario`).

## Model

| member | source | states |
|---|---|---|
| Seats.FigureOf | server.js:85 | the fixed table: red Mörder-Puppe, blue Grabkreuz, green Grabstein, yellow Poltergeist |
| Seats.HumanSeat | server.js:88-94 | the human in seat k: the joiner's id, colour `colors[k]`, not a bot, name "Spieler k+1", the colour's figure |
| Seats.BotSeat | server.js:118-124 | the bot in seat k: id "BOT_" plus a random tag, colour `colors[k]`, a bot, name "Bot (" + figure + ")", the colour's figure |
| Seats.SeatNames | server.js:92 | the human seats are named "Spieler 1" to "Spieler 4", that is seat number plus one |
| Seats.ColorsDistinct | server.js:84 | the four colours of the fixed order red, blue, green, yellow are pairwise different |
| Seats.Humans | server.js:57 | the human filter keeps exactly the non-bot seats of the list and is never longer than it |
| Seats.Without | server.js:165 | the departure filter keeps exactly the seats whose id is not the departing connection and is never longer than the list |
| Seats.WithoutOne | server.js:165 | on a single seat the filter keeps it iff its id is not the departing connection |
| Seats.WithoutAppend | server.js:165 | the filter of a concatenation is the concatenation of the filters, so it keeps the order of the kept seats and every copy of a repeated seat |
| Seats.WithoutNoSeat | server.js:165 | a connection that holds no seat leaves the seat list unchanged |
| Seats.WithoutFirst | server.js:165 | the first remaining seat is the first seat of the old list not held by the departing connection |
| Seats.Filled | server.js:116-125 | the bot fill yields exactly four seats (or leaves a full list alone), keeps the old seats as an unchanged prefix, and puts bot `BotSeat(k, tags[k])` with colour `colors[k]` in each added seat k |
| Traps.Sample | server.js:21-24 | rejection sampling over the draws: the squares kept so far stay an unchanged prefix, and a partial layout stays a partial layout |
| Traps.Square | server.js:22 | a draw selects a board square in [0, 40) |
| Traps.SampleStep | server.js:21-24 | one loop iteration keeps a partial layout and keeps "squares already kept plus squares the remaining draws offer" the same |
| Traps.SampleCompletes | server.js:21-24 | sampling from a partial layout reaches eight squares once the kept squares and the remaining draws' eligible squares number at least eight |
| Traps.EnoughSquaresComplete | server.js:21-24 | the loop terminates on every draw stream that offers at least eight distinct non-safe squares |
| Traps.GenerateTrapFields | server.js:18-26 | the result has exactly eight pairwise-distinct squares in [0, 40), none of them 0, 10, 20 or 30, and is the rejection sample of the draws |
| Rooms.Admit | server.js:83-95 | a waiting room with a free seat gains exactly one human at the end, with colour `colors[oldLen]`, name and figure of that seat, and earlier seats unchanged; a playing or full room is unchanged |
| Rooms.JoinsSeatInOrder | server.js:83-95 | a sequence of joins to a waiting room seats the joiners in order, each in the seat its position gives |
| Rooms.JoinOnlyColors | server.js:83-95 | after any sequence of joins to a fresh room, seat k holds the k-th joiner with colour `colors[k]`, no two seats share a colour, and joins beyond the fourth change nothing |
| Rooms.NextTurnIndex | server.js:35 | the next index is `(turnIndex + 1) mod n`: it lies in [0, n), is `turnIndex + 1` below the end and wraps to 0 at the end |
| Rooms.NextTurnIndexBeyond | server.js:35 | an index beyond the end, as a disconnect during play can leave it, advances as if it were one lap earlier; with the two cases above this fixes the next index for every start |
| Rooms.Advanced | server.js:28-50 | a turn advance sets the turn index to `Rooms.NextTurnIndex` of the old one, which is in range, arms the one timer for the player at that index, changes nothing else, and keeps the room valid |
| Rooms.AdvanceTimes | server.js:35 | repeated advances change neither the seats, the status, the host nor the trap layout |
| Rooms.RotationSteps | server.js:35 | for k up to the seat count, k advances from an in-range index move it k seats forward modulo the seat count |
| Rooms.RotationCycles | server.js:35 | as many advances as there are seats bring the turn index back to where it started |
| Rooms.TurnReaches | server.js:35 | within one cycle of advances every seat gets the turn |
| Rooms.Started | server.js:108-134 | the host's start gives a valid playing room with four seats, the old seats as prefix, bots with `colors[k]` in the added seats, turn index 0, the timer armed for seat 0, and host and traps unchanged |
| Rooms.StartedKeepsHumans | server.js:116-125 | starting a game only adds bots, so a room with a human still has one |
| Rooms.FillWithBots | server.js:116-125 | the bot-fill loop computes `Seats.Filled` of the seat list |
| Rooms.NewRoom | server.js:66-73 | the room a first join creates: no seats, waiting, hosted by the joiner, the given layout, turn index -1, no timer |
| Rooms.Departed | server.js:160-181 | a departure leaves exactly `Seats.Without` of the seats, in order. The room is deleted iff no human remains. Otherwise a waiting room's host becomes the first remaining seat's id, a playing room keeps host and turn index, the rest is unchanged and the room stays valid |
| Rooms.DepartedWithoutSeat | server.js:160-180 | a departing connection with no seat in its bound room leaves that room exactly as it was |
| Rooms.ColourRepeatsAfterLeave | server.js:86 | joins A, B, then A leaves and C joins: the room holds two blue seats, B's and C's |
| Server.TurnAnnouncement | server.js:39-44 | the turnChanged broadcast: colour, name and bot flag of the player at the turn index, and the limit in seconds |
| Server.ExpiryNotice | server.js:48 | the statusMessage "Zeit abgelaufen für <name>!" naming the player the timer was armed for |
| Server.JoinTarget | server.js:57-75 | the room a join acts on: the stored one if it has a human, otherwise a fresh room hosted by the joiner with the layout of the draws |
| Server.JoinReplies | server.js:78-105 | a join to a playing room gets only the in-progress error, to a full room only the full error, otherwise the new roster to the room and the joiner's identity to the joiner |
| Server.DiceValue | server.js:142 | a die value lies in [1, 6] |
| Server.JoinedRoomValid | server.js:83-95 | seating a joiner in a valid room, or in a fresh room with a complete layout, gives a valid room with a human |
| Server.FullRoomRejects | server.js:83-105 | after four or more joins to a fresh room it holds four seats, and a further join gets only "Raum ist voll!" and leaves the room unchanged |
| Server.StartedAlone | server.js:108-134 | a lone host's start gives the host seat 0 and the first turn, and bots seats 1 to 3 |
| Server.OpeningTurn | server.js:39-44 | that start announces the turn of "Spieler 1", red, human, with a 15-second limit |
| Server.OpeningTurnExpires | server.js:47-50 | when that first turn runs out, the notice names "Spieler 1" and the turn passes to the blue bot "Bot (Grabkreuz)" |
| Server.Registry.BoundRoom | server.js:160-161 | the room a disconnect acts on: the bound room id, unless it is missing, empty or names no stored room |
| Server.Registry.constructor | server.js:12-16 | the registry starts with no rooms and no bindings |
| Server.Registry.NextTurn | server.js:28-51 | on an absent room nothing changes and nothing is sent. Otherwise the room is replaced by its advance, the new turn is announced, the bindings are unchanged and the invariants are kept |
| Server.Registry.FireTimer | server.js:47-50 | a pending timer sends the expiry notice naming the player it was armed for, then advances the turn; an idle timer or an absent room changes nothing |
| Server.Registry.OpenRoom | server.js:56-75 | a room with no human is deleted first; the room the join acts on is the stored one or a fresh room hosted by the joiner |
| Server.Registry.Join | server.js:55-106 | always binds the connection to the room. The room becomes the joined room: a fresh room has the joiner as host in seat 0 with turn index -1, no timer and a fresh layout. A rejected join changes no room and sends only the error to the joiner. The roster and identity messages are sent as in the source, and the invariants are kept |
| Server.Registry.RequestStartGame | server.js:108-135 | if the room is absent or the requester is not its host, nothing changes and nothing is sent. Otherwise the room becomes `Rooms.Started` of it, and the game-started and first-turn messages follow in that order |
| Server.Registry.RollDice | server.js:137-144 | on an existing room only the timer changes, to cancelled, and the die value is broadcast tagged with the roller; on an absent room nothing changes |
| Server.Registry.MovePiece | server.js:146-152 | the move is relayed to the room tagged with the mover, and no state is read or changed |
| Server.Registry.EndTurn | server.js:154-156 | the same turn advance and announcement as `NextTurn` |
| Server.Registry.Disconnect | server.js:159-184 | the connection's binding is removed in every case. When no stored room is bound, nothing else changes. Otherwise the room is replaced by `Rooms.Departed`, or deleted, and a waiting room's new roster is broadcast |
| Server.StartScenario | server.js:108-135 | a lone host's start broadcasts the host and three bots (blue, green, yellow) with the layout, then the turn of "Spieler 1" |
| Server.TimeoutScenario | server.js:47-50 | after a lone host's start, the expiry sends "Zeit abgelaufen für Spieler 1!" and then the turn of "Bot (Grabkreuz)" |
| Server.RollScenario | server.js:137-144 | after a roll, no expiry follows and the turn stays at seat 0 |
| Server.LastLeavesScenario | server.js:159-184 | when the last human leaves, the room is deleted, and the next join to that id creates a fresh room with the layout of the new draws |

## Left out

- Express static hosting, the HTTP server and port binding (server.js:1-9, 187-190) are I/O plumbing.
- socket.io room membership (`socket.join`, server.js:62) and the delivery of messages are left out. Emitted events are returned as a list of messages in emission order, with their recipients. `console.log` calls are dropped.
- Real `setTimeout`/`clearTimeout` scheduling is abstracted as the per-room `Timer` slot. A cleared timer is `Idle`, although the source leaves the cleared handle in `room.timer` (server.js:140). A callback the event loop had already queued for a cancelled timer is not represented. Node's `clearTimeout` prevents such a callback from running.
- The quality and distribution of `Math.random` are left out. Draws in [0, 1) and bot id tags are parameters.
- Traps.GenerateTrapFields: the source's loop runs until it has eight squares, with no bound. The model takes a finite draw stream and requires that the loop completes within it, that is `Traps.Completes`. `Traps.EnoughSquaresComplete` gives a sufficient condition on the stream.
- Server.Registry.Join: the source deletes a stale room without cancelling its timer, so that timer's callback could later advance the replacement room. The model drops the room and its timer together. The two differ only from a state with a stale room, and no handler leads to one (`NoStaleRooms` is kept).
- The source updates the room object in place. The model replaces the map entry with the updated `Room` value. No room object is aliased in the source: the timer callback captures only the room id and the player.
- Room ids that collide with `Object.prototype` keys, like `"constructor"`, and payloads that are not strings are not modelled. Room and connection ids are strings, and `pieceId` and `newPosition` are integers.
- Colour uniqueness after departures is not claimed, because the source does not keep it (see `Rooms.ColourRepeatsAfterLeave`). Nor is an in-range turn index between turns after a disconnect during play claimed. `Rooms.NextTurnIndex` shows that the next advance brings it back into range.
- Registry-level event sequences with more than one join, such as four joins and a rejected fifth, are stated at room level instead (`Server.FullRoomRejects`, `Rooms.JoinOnlyColors`). The messages of each single join are given by `Server.Registry.Join`'s contract.
