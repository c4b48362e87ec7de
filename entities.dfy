/**
 * The server's records (`playersData[playerId]`, `rooms[roomId]`) and the whole in-memory
 * state (`rooms`, `playersData`, `socketIdMap` and the free colour list), with the
 * consistency invariant the handlers keep.
 */
module Entities {
  import opened Optional
  import opened Items
  import opened Track
  import opened Board

  type PlayerId = string
  type RoomId = string
  type SocketId = string
  type Color = string

  /** `player.role`: 'guest', 'player' or 'host'. */
  datatype Role = Guest | Participant | Host

  /** `player.status`: 로비 (lobby), 대기 (waiting) or 준비 (ready). */
  datatype PlayerStatus = InLobby | Waiting | Ready

  /** `room.status`: 'waiting' or 'playing'. */
  datatype RoomStatus = Open | Playing

  /** A saving mode: `isSavingActive`/`savingStack`, or their `e_` boosted twins. */
  datatype Bank = Bank(active: bool, stack: int)

  const IDLE_BANK: Bank := Bank(false, 0)

  /**
   * `player.statusEffects`: the isolation countdown (`jail.skipTurns`), the penalty skip
   * (`nextTurnSkip.turns`) and the next-roll modifier; `None` is an absent key.
   */
  datatype Effects = Effects(jail: Option<int>, skip: Option<int>, modifier: Option<int>)

  const NO_EFFECTS: Effects := Effects(None, None, None)

  /** One entry of `playersData`; `shielded` is `isProtect`, `lastRoll` is `lastDiceRollPosition`. */
  datatype Player = Player(
    name: string,
    room: Option<RoomId>,
    role: Role,
    status: PlayerStatus,
    position: int,
    color: Color,
    inventory: seq<ItemName>,
    socket: SocketId,
    effects: Effects,
    laps: int,
    lastRoll: int,
    saving: Bank,
    boosted: Bank,
    shielded: bool)

  /** `maxPlayers` of every room. */
  const MAX_PLAYERS: int := 5

  /** One entry of `rooms`; `turn` is `currentTurnIndex`, `events` is `assignedBoardEvents`. */
  datatype Room = Room(
    name: string,
    host: PlayerId,
    members: seq<PlayerId>,
    capacity: int,
    status: RoomStatus,
    events: seq<BoardEvent>,
    turn: int)

  /** The server's global state: `playersData`, `rooms`, `availablePlayerColors`, `socketIdMap`. */
  datatype State = State(
    players: map<PlayerId, Player>,
    rooms: map<RoomId, Room>,
    pool: seq<Color>,
    sockets: map<SocketId, PlayerId>)

  /** `playerColors`, the token palette. */
  const PALETTE: seq<Color> := [
    "#FF5733", "#33FF57", "#3357FF", "#FF33FF", "#33FFFF",
    "#FF8333", "#2e5614ff", "#8333FF", "#FF3383", "#4b33ffff"
  ]

  predicate Distinct(s: seq<Color>) {
    forall i, j :: 0 <= i < j < |s| ==> s[i] != s[j]
  }

  lemma PaletteDistinct()
    ensures Distinct(PALETTE) && |PALETTE| == 10
  {
  }

  /** The player a socket is mapped to, when that id is non-empty and registered. */
  function Resolve(s: State, sock: SocketId): (r: Option<PlayerId>)
    ensures r.Some? <==> sock in s.sockets && s.sockets[sock] != "" && s.sockets[sock] in s.players
    ensures r.Some? ==> r.value == s.sockets[sock]
  {
    if sock in s.sockets && s.sockets[sock] != "" && s.sockets[sock] in s.players
    then Some(s.sockets[sock]) else None
  }

  /** `getPlayersInRoom`: the room's registered members, in member order. */
  function PlayersInRoom(s: State, rid: RoomId): (ids: seq<PlayerId>)
    ensures rid !in s.rooms ==> ids == []
    ensures forall q :: q in ids <==> rid in s.rooms && q in s.rooms[rid].members && q in s.players
  {
    if rid in s.rooms then Registered(s.rooms[rid].members, s.players) else []
  }

  function Registered(ids: seq<PlayerId>, players: map<PlayerId, Player>): (r: seq<PlayerId>)
    ensures forall q :: q in r <==> q in ids && q in players
    ensures |r| <= |ids|
  {
    if ids == [] then []
    else if ids[0] in players then [ids[0]] + Registered(ids[1..], players)
    else Registered(ids[1..], players)
  }

  /** Positions on the track and lap counts stay in the range the movement rule produces. */
  predicate Sane(p: Player) {
    -TRACK_LENGTH < p.position < TRACK_LENGTH && p.laps >= 0
  }

  ghost predicate AllSane(s: State) {
    forall pid :: pid in s.players ==> Sane(s.players[pid])
  }

  ghost predicate RoomOk(s: State, rid: RoomId)
    requires rid in s.rooms
  {
    var r := s.rooms[rid];
    && r.host in r.members
    && |r.members| <= r.capacity
    && forall m :: m in r.members ==> m in s.players
  }

  ghost predicate PlayerOk(s: State, pid: PlayerId)
    requires pid in s.players
  {
    var p := s.players[pid];
    && (p.room.Some? ==> p.room.value in s.rooms && pid in s.rooms[p.room.value].members)
    && p.color in PALETTE
  }

  /**
   * The invariant the handlers keep: every room's host is a member, a room never holds
   * more than its capacity, members are registered, a player's current room exists and
   * lists them, colours come from the palette, and the free list holds distinct palette
   * colours.
   */
  ghost predicate Consistent(s: State) {
    && (forall rid :: rid in s.rooms ==> RoomOk(s, rid))
    && (forall pid :: pid in s.players ==> PlayerOk(s, pid))
    && Distinct(s.pool)
    && (forall c :: c in s.pool ==> c in PALETTE)
  }

  /** What gameplay never changes about a player: identity, seat and colour. */
  datatype Seat = Seat(name: string, room: Option<RoomId>, role: Role, color: Color, socket: SocketId)

  function SeatOf(p: Player): Seat {
    Seat(p.name, p.room, p.role, p.color, p.socket)
  }

  predicate SameSeat(p: Player, q: Player) {
    p.name == q.name && p.room == q.room && p.role == q.role && p.color == q.color && p.socket == q.socket
  }

  /** What gameplay never changes about a room: name, host, members and capacity. */
  datatype Table = Table(name: string, host: PlayerId, members: seq<PlayerId>, capacity: int)

  predicate SameTable(r: Room, q: Room) {
    r.name == q.name && r.host == q.host && r.members == q.members && r.capacity == q.capacity
  }

  function TableOf(r: Room): Table {
    Table(r.name, r.host, r.members, r.capacity)
  }

  ghost function Seats(s: State): map<PlayerId, Seat> {
    map pid | pid in s.players :: SeatOf(s.players[pid])
  }

  ghost function Tables(s: State): map<RoomId, Table> {
    map rid | rid in s.rooms :: TableOf(s.rooms[rid])
  }

  /** Gameplay changes neither who is registered, nor who sits where, nor the colours or sockets. */
  ghost predicate Stable(s: State, t: State) {
    && s.players.Keys == t.players.Keys
    && s.rooms.Keys == t.rooms.Keys
    && Seats(s) == Seats(t)
    && Tables(s) == Tables(t)
    && s.pool == t.pool
    && s.sockets == t.sockets
  }

  /** A stable step keeps each player's seat. */
  lemma StableSeat(s: State, t: State, pid: PlayerId)
    requires Stable(s, t) && pid in s.players
    ensures pid in t.players && SameSeat(s.players[pid], t.players[pid])
  {
    assert Seats(s)[pid] == Seats(t)[pid];
  }

  /** A stable step keeps each room's table. */
  lemma StableTable(s: State, t: State, rid: RoomId)
    requires Stable(s, t) && rid in s.rooms
    ensures rid in t.rooms && SameTable(s.rooms[rid], t.rooms[rid])
  {
    assert Tables(s)[rid] == Tables(t)[rid];
  }

  /** A gameplay step: stable, and track positions stay in range. */
  ghost predicate Keeps(s: State, t: State) {
    Stable(s, t) && (AllSane(s) ==> AllSane(t))
  }

  lemma KeepsChain(s: State, t: State, u: State)
    requires Keeps(s, t) && Keeps(t, u)
    ensures Keeps(s, u)
  {
  }

  /** A gameplay step keeps the consistency invariant. */
  lemma KeepsConsistent(s: State, t: State)
    requires Consistent(s) && Keeps(s, t)
    ensures Consistent(t)
  {
    forall rid | rid in t.rooms ensures RoomOk(t, rid) {
      assert RoomOk(s, rid);
      StableTable(s, t, rid);
    }
    forall pid | pid in t.players ensures PlayerOk(t, pid) {
      assert PlayerOk(s, pid);
      StableSeat(s, t, pid);
      var p := s.players[pid];
      if p.room.Some? {
        StableTable(s, t, p.room.value);
      }
    }
  }
}
