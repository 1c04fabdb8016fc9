/** One game room and the transitions the handlers apply to it: admission
    of a joining player, the turn rotation, the start-of-game fill and the
    departure of a connection. The registry stores a Room per room id and
    replaces it by the result of one of these functions. */
module Rooms {
  import opened Seats
  import Traps

  datatype Option<T> = None | Some(value: T)

  datatype Status = Waiting | Playing

  /** The room's single timer slot. A pending timeout remembers the player
      whose turn it was armed for, as the timeout callback does. */
  datatype Timer = Idle | Pending(owner: Player)

  datatype Room = Room(players: seq<Player>, status: Status, host: string,
                       trapFields: seq<int>, turnIndex: int, timer: Timer)
  {
    /** What every stored room satisfies: one to four seats, a turn index of
        at least -1, a complete trap layout and, while waiting, only humans
        and a host who holds seat 0. */
    predicate Valid() {
      && 1 <= |players| <= MAX_SEATS
      && -1 <= turnIndex
      && Traps.IsLayout(trapFields)
      && (status == Waiting ==>
            && (forall k :: 0 <= k < |players| ==> !players[k].isBot)
            && players[0].id == host)
    }
  }

  /** A room without a human seat; a join discards it and starts afresh. */
  predicate Stale(r: Room) {
    |Humans(r.players)| == 0
  }

  /** The room a first join creates: no seats yet, waiting, hosted by the
      joiner, no turn, no timer. */
  function NewRoom(host: string, traps: seq<int>): Room {
    Room([], Waiting, host, traps, -1, Idle)
  }

  /** A join can take a seat only in a waiting room with a free seat. */
  predicate HasFreeSeat(r: Room) {
    r.status == Waiting && |r.players| < MAX_SEATS
  }

  /** The room after `conn` asks to join it: the joiner takes the next seat,
      with the colour, name and figure of that seat, when there is one. */
  function Admit(r: Room, conn: string): (a: Room)
    ensures !HasFreeSeat(r) ==> a == r
    ensures HasFreeSeat(r) ==>
      && |a.players| == |r.players| + 1
      && a.players[..|r.players|] == r.players
      && a.players[|r.players|] == HumanSeat(|r.players|, conn)
      && a.players[|r.players|].color == COLORS[|r.players|]
      && a.(players := r.players) == r
  {
    if HasFreeSeat(r) then r.(players := r.players + [HumanSeat(|r.players|, conn)]) else r
  }

  /** The rooms a sequence of joins produces, one connection after another. */
  function Joins(r: Room, conns: seq<string>): Room
    decreases |conns|
  {
    if conns == [] then r else Joins(Admit(r, conns[0]), conns[1..])
  }

  function Min(a: nat, b: nat): nat {
    if a < b then a else b
  }

  /** `ps` is the seat list of a room joined, in order, by `conns`. */
  predicate SeatedInOrder(ps: seq<Player>, conns: seq<string>) {
    && |ps| == Min(|conns|, MAX_SEATS)
    && forall k :: 0 <= k < |ps| ==> ps[k] == HumanSeat(k, conns[k])
  }

  lemma {:induction false} JoinsSeatInOrder(r: Room, done: seq<string>, todo: seq<string>)
    requires r.status == Waiting && SeatedInOrder(r.players, done)
    ensures Joins(r, todo).status == Waiting
    ensures SeatedInOrder(Joins(r, todo).players, done + todo)
    decreases |todo|
  {
    if todo != [] {
      var a := Admit(r, todo[0]);
      var done' := done + [todo[0]];
      assert done + todo == done' + todo[1..];
      if |r.players| < MAX_SEATS {
        forall k | 0 <= k < |a.players| ensures a.players[k] == HumanSeat(k, done'[k]) {
          if k < |r.players| { assert a.players[k] == a.players[..|r.players|][k]; }
        }
      }
      JoinsSeatInOrder(a, done', todo[1..]);
    }
  }

  /** A room filled by joins alone: seat k is held by the k-th joiner with
      colour COLORS[k], so no two seats share a colour; joins beyond the
      fourth change nothing. */
  lemma JoinOnlyColors(host: string, traps: seq<int>, conns: seq<string>)
    ensures var ps := Joins(NewRoom(host, traps), conns).players;
      && |ps| == Min(|conns|, MAX_SEATS)
      && (forall k :: 0 <= k < |ps| ==> ps[k] == HumanSeat(k, conns[k]) && ps[k].color == COLORS[k])
      && (forall i, j :: 0 <= i < j < |ps| ==> ps[i].color != ps[j].color)
  {
    JoinsSeatInOrder(NewRoom(host, traps), [], conns);
    assert [] + conns == conns;
    var ps := Joins(NewRoom(host, traps), conns).players;
    forall k | 0 <= k < |ps| ensures ps[k].color == COLORS[k] {
      assert ps[k] == HumanSeat(k, conns[k]);
    }
    forall i, j | 0 <= i < j < |ps| ensures ps[i].color != ps[j].color {
      ColorsDistinct(i, j);
    }
  }

  /** `(turnIndex + 1) % players.length`; the operands are never negative
      here, so the remainder is the same as in the source. The result is a
      seat index even when the old index lies beyond the seat list. */
  function NextTurnIndex(t: int, n: nat): (r: nat)
    requires n > 0 && t >= -1
    ensures r < n
    ensures t + 1 < n ==> r == t + 1
    ensures t + 1 == n ==> r == 0
  {
    (t + 1) % n
  }

  /** An index beyond the end, as a disconnect during play can leave it,
      advances as if it were one lap of the seat count earlier; with the
      two cases above this fixes the next index for every start. */
  lemma NextTurnIndexBeyond(t: int, n: nat)
    requires n > 0 && t + 1 >= n
    ensures NextTurnIndex(t, n) == NextTurnIndex(t - n, n)
  {
    var q, m := (t + 1 - n) / n, (t + 1 - n) % n;
    assert t + 1 == (q + 1) * n + m;
    ModUnique(t + 1, n, q + 1, m);
  }

  lemma {:induction false} MulAtLeast(k: int, n: int)
    requires k >= 1 && n > 0
    ensures k * n >= n
    decreases k
  {
    if k > 1 {
      MulAtLeast(k - 1, n);
      assert k * n == (k - 1) * n + n;
    }
  }

  /** The remainder is the only value in [0, n) that differs from x by a multiple of n. */
  lemma ModUnique(x: int, n: int, q: int, m: int)
    requires n > 0 && 0 <= m < n && x == q * n + m
    ensures x % n == m
  {
    var q', m' := x / n, x % n;
    assert (q - q') * n == m' - m;
    if q - q' >= 1 {
      MulAtLeast(q - q', n);
    } else if q' - q >= 1 {
      assert (q' - q) * n == m - m';
      MulAtLeast(q' - q, n);
    }
  }

  /** The room after nextTurn: the turn passes to the next seat and the one
      timer is re-armed for that seat's player. Nothing else changes. */
  function Advanced(r: Room): (a: Room)
    requires |r.players| > 0 && r.turnIndex >= -1
    ensures a.turnIndex == NextTurnIndex(r.turnIndex, |r.players|)
    ensures 0 <= a.turnIndex < |a.players|
    ensures a.timer == Pending(a.players[a.turnIndex])
    ensures a.(turnIndex := r.turnIndex, timer := r.timer) == r
    ensures r.Valid() ==> a.Valid()
  {
    var t := NextTurnIndex(r.turnIndex, |r.players|);
    r.(turnIndex := t, timer := Pending(r.players[t]))
  }

  /** `k` consecutive turn advances. */
  function AdvanceTimes(r: Room, k: nat): (a: Room)
    requires |r.players| > 0 && r.turnIndex >= -1
    ensures a.players == r.players && a.status == r.status && a.host == r.host
    ensures a.trapFields == r.trapFields && a.turnIndex >= -1
    decreases k
  {
    if k == 0 then r else Advanced(AdvanceTimes(r, k - 1))
  }

  lemma {:induction false} RotationSteps(r: Room, k: nat)
    requires 0 <= r.turnIndex < |r.players| && k <= |r.players|
    ensures AdvanceTimes(r, k).turnIndex ==
      if r.turnIndex + k < |r.players| then r.turnIndex + k else r.turnIndex + k - |r.players|
  {
    if k > 0 {
      RotationSteps(r, k - 1);
    }
  }

  /** As many advances as there are seats bring the turn back to where it was. */
  lemma RotationCycles(r: Room)
    requires 0 <= r.turnIndex < |r.players|
    ensures AdvanceTimes(r, |r.players|).turnIndex == r.turnIndex
  {
    RotationSteps(r, |r.players|);
  }

  /** Within one cycle of advances every seat has the turn: `k` advances
      after the current one, it is the turn of `seat`. */
  lemma TurnReaches(r: Room, seat: nat) returns (k: nat)
    requires 0 <= r.turnIndex < |r.players| && seat < |r.players|
    ensures 1 <= k <= |r.players| && AdvanceTimes(r, k).turnIndex == seat
  {
    k := if seat > r.turnIndex then seat - r.turnIndex else seat - r.turnIndex + |r.players|;
    RotationSteps(r, k);
  }

  /** The room after requestStartGame by its host: bots fill the free seats,
      the game is playing and the first turn (seat 0) has started. */
  function Started(r: Room, tags: seq<string>): (s: Room)
    requires r.Valid() && |tags| == MAX_SEATS
    ensures s.Valid()
    ensures |s.players| == MAX_SEATS && s.players[..|r.players|] == r.players
    ensures forall k :: |r.players| <= k < MAX_SEATS ==>
      s.players[k] == BotSeat(k, tags[k]) && s.players[k].color == COLORS[k]
    ensures s.status == Playing && s.turnIndex == 0 && s.timer == Pending(s.players[0])
    ensures s.host == r.host && s.trapFields == r.trapFields
  {
    Advanced(r.(players := Filled(r.players, tags), status := Playing, turnIndex := -1))
  }

  /** Starting a game only adds bots, so a room with a human keeps one. */
  lemma StartedKeepsHumans(r: Room, tags: seq<string>)
    requires r.Valid() && |tags| == MAX_SEATS
    ensures !Stale(r) ==> !Stale(Started(r, tags))
  {
    if !Stale(r) {
      var h := Humans(r.players)[0];
      assert h in Humans(r.players);
      var k :| 0 <= k < |r.players| && r.players[k] == h;
      var s := Started(r, tags);
      assert s.players[k] == s.players[..|r.players|][k];
      assert h in Humans(s.players);
    }
  }

  /** The bot fill of requestStartGame: append a bot while fewer than four
      seats are taken. */
  method FillWithBots(players: seq<Player>, tags: seq<string>) returns (filled: seq<Player>)
    requires |players| <= MAX_SEATS && |tags| == MAX_SEATS
    ensures filled == Filled(players, tags)
  {
    filled := players;
    while |filled| < MAX_SEATS
      invariant |players| <= |filled| <= MAX_SEATS
      invariant Filled(filled, tags) == Filled(players, tags)
      decreases MAX_SEATS - |filled|
    {
      filled := filled + [BotSeat(|filled|, tags[|filled|])];
    }
  }

  /** The room after `conn` disconnects: its seats are removed; None when
      no human is left (the room is deleted, its timer with it); otherwise
      a waiting room's host becomes the first remaining seat, while a
      playing room keeps its host and its turn index unchanged. */
  function Departed(r: Room, conn: string): (o: Option<Room>)
    requires r.Valid()
    ensures o.None? <==> forall p :: p in Without(r.players, conn) ==> p.isBot
    ensures o.Some? ==>
      && o.value.Valid()
      && o.value.players == Without(r.players, conn)
      && (forall p :: p in o.value.players <==> p in r.players && p.id != conn)
      && |o.value.players| <= |r.players|
      && o.value.(players := r.players, host := r.host) == r
      && (r.status == Waiting ==> o.value.host == o.value.players[0].id)
      && (r.status == Playing ==> o.value.host == r.host)
  {
    var rest := Without(r.players, conn);
    if |Humans(rest)| == 0 then
      assert Humans(rest) == [];
      None
    else
      assert Humans(rest)[0] in Humans(rest);
      assert rest[0] in rest;
      if r.status == Waiting then Some(r.(players := rest, host := rest[0].id))
      else Some(r.(players := rest))
  }

  /** A disconnecting connection that holds no seat in the room it is
      bound to (a rejected join turned it away) leaves that room as it
      was: the host of a waiting room already holds seat 0. */
  lemma DepartedWithoutSeat(r: Room, conn: string)
    requires r.Valid() && !Stale(r)
    requires forall k :: 0 <= k < |r.players| ==> r.players[k].id != conn
    ensures Departed(r, conn) == Some(r)
  {
    WithoutNoSeat(r.players, conn);
  }

  /** Seats are numbered by the seat count, not by the colours in use: when
      the first of two players leaves, the next joiner receives the colour
      of the player who stayed. */
  lemma ColourRepeatsAfterLeave(traps: seq<int>)
    requires Traps.IsLayout(traps)
    ensures var r := Joins(NewRoom("A", traps), ["A", "B"]);
      && Departed(r, "A").Some?
      && Admit(Departed(r, "A").value, "C").players == [HumanSeat(1, "B"), HumanSeat(1, "C")]
  {
    var r := Joins(NewRoom("A", traps), ["A", "B"]);
    assert r.players == [HumanSeat(0, "A"), HumanSeat(1, "B")];
    assert Without(r.players, "A") == [HumanSeat(1, "B")];
  }
}
