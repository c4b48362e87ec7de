/**
 * The lobby handlers of server.js as functions on the whole state: identity registration
 * (`set_player_info`) with its name rule and the colour allocator (`getPlayerColor`), and the
 * room lifecycle (`create_room`, `join_room`, `handleLeaveRoom`, `player_ready`, `start_game`).
 */
module Lobby {
  import opened Optional
  import opened Items
  import opened Track
  import opened Board
  import opened Entities

  /** Why a lobby request was refused (the `server_message` / `room_join_failed` texts). */
  datatype Refusal = InvalidPlayer | NoRoom | Full | AlreadyPlaying | AlreadyInRoom | NotHost | NotReady

  /** `getPlayerRoomId`: the room a registered player is in. */
  function RoomOf(s: State, pid: PlayerId): (r: Option<RoomId>)
    ensures pid !in s.players ==> r == None
  {
    if pid in s.players then s.players[pid].room else None
  }

  /** In a consistent state the room a player is in exists and lists them. */
  lemma RoomOfListed(s: State, pid: PlayerId)
    requires Consistent(s) && RoomOf(s, pid).Some?
    ensures var rid := RoomOf(s, pid).value; rid in s.rooms && pid in s.rooms[rid].members
  {
    assert PlayerOk(s, pid);
  }

  // ----- names -----

  const TEMPORARY_PREFIX: string := "임시용사_"
  const DEFAULT_PREFIX: string := "기본용사_"

  predicate StartsWith(s: string, prefix: string) {
    |prefix| <= |s| && s[..|prefix|] == prefix
  }

  /** A generated name: it starts with `임시용사_` or `기본용사_`. */
  predicate IsPlaceholder(name: string) {
    StartsWith(name, TEMPORARY_PREFIX) || StartsWith(name, DEFAULT_PREFIX)
  }

  /** A name a client may impose: present, not the text "null", and not generated. */
  predicate IsRealName(name: string) {
    name != "" && name != "null" && !IsPlaceholder(name)
  }

  /**
   * The stored name after a reconnection that sent `sent`: a real name always replaces the
   * stored one; anything else only replaces a missing or generated stored name.
   */
  function NameAfter(stored: string, sent: string): (n: string)
    ensures n == stored || n == sent
  {
    if IsRealName(sent) then sent
    else if stored == "" || IsPlaceholder(stored) then sent
    else stored
  }

  /**
   * Once a player has a real name it can only be replaced by another real one, and sending
   * the same name twice is sending it once.
   */
  lemma NameRule(stored: string, sent: string)
    ensures IsRealName(sent) ==> NameAfter(stored, sent) == sent
    ensures IsRealName(stored) ==> IsRealName(NameAfter(stored, sent))
    ensures IsRealName(stored) && !IsRealName(sent) ==> NameAfter(stored, sent) == stored
    ensures NameAfter(NameAfter(stored, sent), sent) == NameAfter(stored, sent)
  {
  }

  // ----- colours -----

  /** The free list `getPlayerColor` draws from: refilled with the whole palette once empty. */
  function Refilled(pool: seq<Color>): (full: seq<Color>)
    ensures |full| > 0
    ensures pool != [] ==> full == pool
  {
    if pool == [] then PALETTE else pool
  }

  /**
   * `getPlayerColor` with the draw `k` (`Math.floor(Math.random() * length)`): the colour at
   * index `k` of the refilled list, which is spliced out of it.
   */
  function TakeColor(pool: seq<Color>, k: nat): (r: (Color, seq<Color>))
    requires k < |Refilled(pool)|
    ensures |r.1| == |Refilled(pool)| - 1
  {
    var full := Refilled(pool);
    (full[k], full[..k] + full[k + 1..])
  }

  /** Splicing one entry out of a list of distinct colours. */
  lemma Splice(full: seq<Color>, k: nat)
    requires k < |full| && Distinct(full)
    ensures var rest := full[..k] + full[k + 1..];
            && multiset(rest) + multiset{full[k]} == multiset(full)
            && Distinct(rest) && full[k] !in rest
            && (forall c :: c in rest ==> c in full)
  {
    var rest := full[..k] + full[k + 1..];
    assert full == full[..k] + [full[k]] + full[k + 1..];
    forall i, j | 0 <= i < j < |rest| ensures rest[i] != rest[j] {
      var i' := if i < k then i else i + 1;
      var j' := if j < k then j else j + 1;
      assert rest[i] == full[i'] && rest[j] == full[j'];
    }
    forall i | 0 <= i < |rest| ensures rest[i] != full[k] {
      assert rest[i] == full[if i < k then i else i + 1];
    }
  }

  /**
   * Drawing from a free list of distinct palette colours gives a palette colour that is no
   * longer free, and the list loses exactly that colour.
   */
  lemma TakeColorKeeps(pool: seq<Color>, k: nat)
    requires k < |Refilled(pool)|
    requires Distinct(pool) && forall c :: c in pool ==> c in PALETTE
    ensures var r := TakeColor(pool, k);
            && multiset(r.1) + multiset{r.0} == multiset(Refilled(pool))
            && r.0 in PALETTE && r.0 !in r.1
            && Distinct(r.1) && (forall c :: c in r.1 ==> c in PALETTE)
  {
    var full := Refilled(pool);
    RefilledPalette(pool);
    Splice(full, k);
  }

  /** The refilled list still holds distinct palette colours. */
  lemma RefilledPalette(pool: seq<Color>)
    requires Distinct(pool) && forall c :: c in pool ==> c in PALETTE
    ensures Distinct(Refilled(pool)) && forall c :: c in Refilled(pool) ==> c in PALETTE
  {
    if pool == [] {
      PaletteDistinct();
    }
  }

  // ----- set_player_info -----

  /** A record as `set_player_info` first creates it. */
  function NewPlayer(name: string, color: Color, sock: SocketId): (p: Player)
    ensures Sane(p) && p.room.None? && p.role == Guest && p.status == InLobby
  {
    Player(name, None, Guest, InLobby, 0, color, [], sock, NO_EFFECTS, 0, 0, IDLE_BANK, IDLE_BANK, false)
  }

  /**
   * `set_player_info`: the socket is mapped to `pid`; an unknown id is registered with a
   * colour drawn by `k`, a known one gets the new socket and the name rule.
   */
  function Register(s: State, sock: SocketId, pid: PlayerId, name: string, k: nat): (t: State)
    requires pid !in s.players ==> k < |Refilled(s.pool)|
    ensures t.rooms == s.rooms && t.sockets == s.sockets[sock := pid]
    ensures t.players.Keys == s.players.Keys + {pid}
    ensures forall q :: q in s.players && q != pid ==> t.players[q] == s.players[q]
    ensures t.players[pid].socket == sock
    ensures pid in s.players ==>
      t.pool == s.pool && t.players[pid] == s.players[pid].(socket := sock, name := NameAfter(s.players[pid].name, name))
    ensures pid !in s.players ==>
      (t.players[pid].color, t.pool) == TakeColor(s.pool, k) && t.players[pid].name == name
  {
    var sockets := s.sockets[sock := pid];
    if pid !in s.players then
      var drawn := TakeColor(s.pool, k);
      State(s.players[pid := NewPlayer(name, drawn.0, sock)], s.rooms, drawn.1, sockets)
    else
      var p := s.players[pid];
      s.(players := s.players[pid := p.(socket := sock, name := NameAfter(p.name, name))], sockets := sockets)
  }

  /** Registration keeps the invariant, and the socket then resolves to the player. */
  lemma RegisterKeeps(s: State, sock: SocketId, pid: PlayerId, name: string, k: nat)
    requires pid !in s.players ==> k < |Refilled(s.pool)|
    requires Consistent(s)
    ensures var t := Register(s, sock, pid, name, k);
            && Consistent(t)
            && (pid != "" ==> Resolve(t, sock) == Some(pid))
  {
    var t := Register(s, sock, pid, name, k);
    if pid !in s.players {
      TakeColorKeeps(s.pool, k);
    }
    forall rid | rid in t.rooms ensures RoomOk(t, rid) {
      assert RoomOk(s, rid);
    }
    forall q | q in t.players ensures PlayerOk(t, q) {
      if q in s.players {
        assert PlayerOk(s, q);
      }
    }
  }

  // ----- create_room -----

  /** `maxPlayers` and the other fields of a room as `create_room` builds it. */
  function NewRoom(name: string, host: PlayerId): (r: Room)
    ensures r.host in r.members && |r.members| == 1 <= r.capacity
  {
    Room(name, host, [host], MAX_PLAYERS, Open, [], 0)
  }

  /**
   * `create_room` with the generated id `rid`: the requester becomes host of a new waiting
   * room holding only them, with an empty hand, no laps and no savings (position, effects
   * and shield are kept).
   */
  function CreateRoom(s: State, sock: SocketId, rid: RoomId, name: string): (t: State)
    ensures Resolve(s, sock).None? ==> t == s
    ensures Resolve(s, sock).Some? ==>
      var pid := Resolve(s, sock).value;
      var p := s.players[pid];
      && t.rooms == s.rooms[rid := NewRoom(name, pid)]
      && t.pool == s.pool && t.sockets == s.sockets && t.players.Keys == s.players.Keys
      && (forall q :: q in s.players && q != pid ==> t.players[q] == s.players[q])
      && t.players[pid] == p.(room := Some(rid), role := Host, status := Ready, inventory := [],
                              laps := 0, lastRoll := 0, saving := IDLE_BANK, boosted := IDLE_BANK)
  {
    match Resolve(s, sock)
    case None => s
    case Some(pid) =>
      var p := s.players[pid];
      var q := p.(room := Some(rid), role := Host, status := Ready, inventory := [],
                  laps := 0, lastRoll := 0, saving := IDLE_BANK, boosted := IDLE_BANK);
      s.(rooms := s.rooms[rid := NewRoom(name, pid)], players := s.players[pid := q])
  }

  /** A room created under an unused id keeps the invariant. */
  lemma CreateRoomKeeps(s: State, sock: SocketId, rid: RoomId, name: string)
    requires Consistent(s) && rid !in s.rooms
    ensures Consistent(CreateRoom(s, sock, rid, name))
  {
    var t := CreateRoom(s, sock, rid, name);
    if Resolve(s, sock).Some? {
      var pid := Resolve(s, sock).value;
      forall x | x in t.rooms ensures RoomOk(t, x) {
        if x != rid {
          assert RoomOk(s, x);
        }
      }
      forall q | q in t.players ensures PlayerOk(t, q) {
        assert PlayerOk(s, q);
      }
    }
  }

  // ----- join_room -----

  /**
   * Why `join_room` refuses, in the order the handler tests it: an unknown requester, then a
   * missing, full or started room, then a requester already in a room.
   */
  function JoinRefusal(s: State, pid: Option<PlayerId>, rid: RoomId): (e: Option<Refusal>)
    requires pid.Some? ==> pid.value in s.players
    ensures e.None? ==> pid.Some? && rid in s.rooms && |s.rooms[rid].members| < s.rooms[rid].capacity
                        && s.rooms[rid].status == Open && s.players[pid.value].room.None?
  {
    if pid.None? then Some(InvalidPlayer)
    else if rid !in s.rooms then Some(NoRoom)
    else if |s.rooms[rid].members| >= s.rooms[rid].capacity then Some(Full)
    else if s.rooms[rid].status != Open then Some(AlreadyPlaying)
    else if s.players[pid.value].room.Some? then Some(AlreadyInRoom)
    else None
  }

  /**
   * `join_room`: on success the requester is appended to the room's members and becomes a
   * waiting participant with an empty hand, no laps, no shield, the plain saving mode off and
   * both stacks at zero (the boosted mode's flag, the position and the effects are kept).
   * A refused request changes nothing.
   */
  function JoinRoom(s: State, sock: SocketId, rid: RoomId): (r: (State, Option<Refusal>))
    ensures r.1 == JoinRefusal(s, Resolve(s, sock), rid)
    ensures r.1.Some? ==> r.0 == s
  {
    var e := JoinRefusal(s, Resolve(s, sock), rid);
    if e.Some? then (s, e)
    else
      var pid := Resolve(s, sock).value;
      var p := s.players[pid];
      var room := s.rooms[rid];
      var q := p.(room := Some(rid), role := Participant, status := Waiting, inventory := [],
                  laps := 0, lastRoll := 0, saving := IDLE_BANK, shielded := false,
                  boosted := p.boosted.(stack := 0));
      (s.(rooms := s.rooms[rid := room.(members := room.members + [pid])], players := s.players[pid := q]), None)
  }

  /** A join succeeds exactly when every test passes, and then the room has one more member. */
  lemma JoinAdmits(s: State, sock: SocketId, rid: RoomId)
    ensures var r := JoinRoom(s, sock, rid);
            r.1.None? <==>
              && Resolve(s, sock).Some? && rid in s.rooms
              && |s.rooms[rid].members| < s.rooms[rid].capacity
              && s.rooms[rid].status == Open
              && s.players[Resolve(s, sock).value].room.None?
    ensures var r := JoinRoom(s, sock, rid);
            r.1.None? ==>
              && r.0.rooms[rid].members == s.rooms[rid].members + [Resolve(s, sock).value]
              && |r.0.rooms[rid].members| <= r.0.rooms[rid].capacity
              && r.0.players[Resolve(s, sock).value].room == Some(rid)
    ensures var r := JoinRoom(s, sock, rid);
            r.1.None? ==>
              var pid := Resolve(s, sock).value;
              var p := s.players[pid];
              var room := s.rooms[rid];
              r.0 == s.(rooms := s.rooms[rid := room.(members := room.members + [pid])],
                        players := s.players[pid := p.(room := Some(rid), role := Participant, status := Waiting,
                                                       inventory := [], laps := 0, lastRoll := 0, saving := IDLE_BANK,
                                                       shielded := false, boosted := p.boosted.(stack := 0))])
  {
  }

  /** Joining keeps the invariant; in particular no room ever exceeds its capacity. */
  lemma JoinKeeps(s: State, sock: SocketId, rid: RoomId)
    requires Consistent(s)
    ensures Consistent(JoinRoom(s, sock, rid).0)
  {
    var r := JoinRoom(s, sock, rid);
    if r.1.None? {
      var t := r.0;
      var pid := Resolve(s, sock).value;
      forall x | x in t.rooms ensures RoomOk(t, x) {
        assert RoomOk(s, x);
      }
      forall q | q in t.players ensures PlayerOk(t, q) {
        assert PlayerOk(s, q);
      }
    }
  }

  // ----- handleLeaveRoom -----

  /** `ids.filter(id => id !== x)`. */
  function Without(ids: seq<PlayerId>, x: PlayerId): (r: seq<PlayerId>)
    ensures forall y :: y in r <==> y in ids && y != x
    ensures |r| <= |ids|
    ensures x in ids ==> |r| < |ids|
  {
    if ids == [] then []
    else if ids[0] == x then Without(ids[1..], x)
    else [ids[0]] + Without(ids[1..], x)
  }

  /** The leaver's record: back in the lobby, at the start cell, with nothing in hand. */
  function LeftRoom(p: Player): (q: Player)
    ensures Sane(q)
  {
    p.(room := None, role := Guest, status := InLobby, position := 0, inventory := [],
       effects := NO_EFFECTS, laps := 0, lastRoll := 0, saving := IDLE_BANK)
  }

  /** The colour list after a leave: the leaver's colour is returned unless empty or already free. */
  function Returned(pool: seq<Color>, c: Color): (r: seq<Color>)
    ensures c != "" ==> c in r
    ensures forall x :: x in r <==> x in pool || (x == c && c != "")
  {
    if c != "" && c !in pool then pool + [c] else pool
  }

  /**
   * The rooms after `pid` leaves room `rid`: they are filtered out of its members; a leaving
   * host hands the room to the first remaining member, or deletes it when no one remains.
   */
  function LeaveRooms(rooms: map<RoomId, Room>, rid: RoomId, pid: PlayerId): map<RoomId, Room>
    requires rid in rooms
  {
    var room := rooms[rid];
    var rest := Without(room.members, pid);
    if room.host != pid then rooms[rid := room.(members := rest)]
    else if |rest| > 0 then rooms[rid := room.(members := rest, host := rest[0])]
    else rooms - {rid}
  }

  /** The records after a leave from room `rid`: a member promoted to host takes the host role. */
  function Promoted(players: map<PlayerId, Player>, room: Room, pid: PlayerId): map<PlayerId, Player> {
    var rest := Without(room.members, pid);
    if room.host == pid && |rest| > 0 && rest[0] in players
    then players[rest[0] := players[rest[0]].(role := Host)]
    else players
  }

  /**
   * `handleLeaveRoom(pid)`: the rooms change as `LeaveRooms` says, the new host is promoted,
   * the leaver is reset and their colour returned. A player outside an existing room
   * changes nothing.
   */
  function Leave(s: State, pid: PlayerId): (t: State)
    requires pid in s.players
    ensures var p := s.players[pid];
            p.room.None? || p.room.value !in s.rooms ==> t == s
  {
    var p := s.players[pid];
    if p.room.None? || p.room.value !in s.rooms then s
    else
      var rid := p.room.value;
      State(Promoted(s.players, s.rooms[rid], pid)[pid := LeftRoom(p)], LeaveRooms(s.rooms, rid, pid),
            Returned(s.pool, p.color), s.sockets)
  }

  /**
   * What a leave does to the room: the leaver is no longer a member; a leaving host is
   * replaced by the first remaining member, who becomes host; the room is deleted exactly
   * when its host left it empty.
   */
  lemma LeaveRoomEffect(s: State, pid: PlayerId)
    requires pid in s.players && s.players[pid].room.Some? && s.players[pid].room.value in s.rooms
    ensures var rid := s.players[pid].room.value;
            var room := s.rooms[rid];
            var t := Leave(s, pid);
            && t.players[pid] == LeftRoom(s.players[pid])
            && (rid !in t.rooms <==> room.host == pid && Without(room.members, pid) == [])
            && (rid in t.rooms ==>
                  && t.rooms[rid].members == Without(room.members, pid)
                  && pid !in t.rooms[rid].members
                  && (room.host != pid ==> t.rooms[rid].host == room.host)
                  && (room.host == pid ==> t.rooms[rid].host == t.rooms[rid].members[0])
                  && (room.host == pid && t.rooms[rid].host in s.players ==>
                        t.players[t.rooms[rid].host].role == Host))
            && (forall x :: x in s.rooms && x != rid ==> x in t.rooms && t.rooms[x] == s.rooms[x])
            && t.pool == Returned(s.pool, s.players[pid].color) && t.sockets == s.sockets
  {
  }

  /**
   * Who else a leave touches: a leaving host's successor only gains the host role, and
   * every other record stays as it was.
   */
  lemma LeaveFrame(s: State, pid: PlayerId)
    requires pid in s.players && s.players[pid].room.Some? && s.players[pid].room.value in s.rooms
    ensures var room := s.rooms[s.players[pid].room.value];
            var rest := Without(room.members, pid);
            var t := Leave(s, pid);
            && t.players.Keys == s.players.Keys
            && (room.host == pid && rest != [] && rest[0] in s.players ==>
                  t.players[rest[0]] == s.players[rest[0]].(role := Host))
            && (forall q :: q in s.players && q != pid && !(room.host == pid && rest != [] && q == rest[0]) ==>
                  t.players[q] == s.players[q])
  {
  }

  /** Leaving keeps the invariant (the new host and every other member stay registered and seated). */
  lemma LeaveKeeps(s: State, pid: PlayerId)
    requires Consistent(s) && pid in s.players
    ensures Consistent(Leave(s, pid))
  {
    LeaveKeepsRooms(s, pid);
    LeaveKeepsPlayers(s, pid);
  }

  lemma LeaveKeepsRooms(s: State, pid: PlayerId)
    requires Consistent(s) && pid in s.players
    ensures var t := Leave(s, pid); forall x :: x in t.rooms ==> RoomOk(t, x)
  {
    var t := Leave(s, pid);
    forall x | x in t.rooms ensures RoomOk(t, x) {
      assert RoomOk(s, x);
    }
  }

  lemma LeaveKeepsPlayers(s: State, pid: PlayerId)
    requires Consistent(s) && pid in s.players
    ensures var t := Leave(s, pid); forall q :: q in t.players ==> PlayerOk(t, q)
  {
    var t := Leave(s, pid);
    var p := s.players[pid];
    forall q | q in t.players ensures PlayerOk(t, q) {
      assert PlayerOk(s, q);
      if q != pid && p.room.Some? && s.players[q].room == p.room {
        assert q in Without(s.rooms[p.room.value].members, pid);
      }
    }
  }

  /** `leave_room` from the socket `sock`. */
  function LeaveBySocket(s: State, sock: SocketId): (t: State)
    ensures Resolve(s, sock).None? ==> t == s
    ensures Resolve(s, sock).Some? ==> t == Leave(s, Resolve(s, sock).value)
  {
    match Resolve(s, sock)
    case None => s
    case Some(pid) => Leave(s, pid)
  }

  // ----- disconnect and the reconnection expiry -----

  /**
   * `disconnect` of a socket that maps to no registered player: the mapping is dropped. For a
   * registered player only the grace timer starts, whose firing is `Expire`.
   */
  function Disconnect(s: State, sock: SocketId): (t: State)
    ensures t.players == s.players && t.rooms == s.rooms && t.pool == s.pool
    ensures sock in t.sockets <==> Resolve(s, sock).Some?
    ensures forall x :: x != sock ==> (x in t.sockets <==> x in s.sockets)
    ensures forall x :: x in t.sockets ==> t.sockets[x] == s.sockets[x]
  {
    if Resolve(s, sock).None? then s.(sockets := s.sockets - {sock}) else s
  }

  /** No room lists `pid` but the one its record points to. */
  ghost predicate SingleSeat(s: State, pid: PlayerId)
    requires pid in s.players
  {
    forall rid :: rid in s.rooms && pid in s.rooms[rid].members ==> s.players[pid].room == Some(rid)
  }

  /**
   * The grace timer of `disconnect` firing for `pid`, whose socket was `sock`: the player
   * leaves their room as in `handleLeaveRoom`, their colour is returned, and their record and
   * the socket's mapping are erased.
   */
  function Expire(s: State, sock: SocketId, pid: PlayerId): (t: State)
    requires pid in s.players
    ensures t.players.Keys == s.players.Keys - {pid}
    ensures t.sockets.Keys == s.sockets.Keys - {sock}
    ensures s.players[pid].color != "" ==> s.players[pid].color in t.pool
    ensures forall c :: c in s.pool ==> c in t.pool
  {
    var t := Leave(s, pid);
    State(t.players - {pid}, t.rooms, Returned(t.pool, s.players[pid].color), t.sockets - {sock})
  }

  /**
   * The rooms after the expiry are those `handleLeaveRoom` leaves, so `LeaveRoomEffect` applies
   * to them; the socket's mapping alone is dropped, and the colour is returned after the leave.
   * Every other record is the one the leave left, and no room lists the player any more,
   * provided only their own room did.
   */
  lemma ExpireEffect(s: State, sock: SocketId, pid: PlayerId)
    requires pid in s.players
    ensures var t := Expire(s, sock, pid);
            && t.rooms == Leave(s, pid).rooms
            && t.sockets == s.sockets - {sock}
            && t.pool == Returned(Leave(s, pid).pool, s.players[pid].color)
            && (forall q :: q in t.players ==> t.players[q] == Leave(s, pid).players[q])
            && (SingleSeat(s, pid) ==> forall rid :: rid in t.rooms ==> pid !in t.rooms[rid].members)
  {
    var p := s.players[pid];
    var t := Expire(s, sock, pid);
    forall rid | rid in t.rooms && SingleSeat(s, pid) ensures pid !in t.rooms[rid].members {
      if p.room == Some(rid) {
        assert t.rooms[rid].members == Without(s.rooms[rid].members, pid);
      } else {
        assert rid in s.rooms && t.rooms[rid] == s.rooms[rid];
      }
    }
  }

  /** The expiry keeps the invariant when only the player's own room listed them. */
  lemma ExpireKeeps(s: State, sock: SocketId, pid: PlayerId)
    requires Consistent(s) && pid in s.players && SingleSeat(s, pid)
    ensures Consistent(Expire(s, sock, pid))
  {
    var u := Leave(s, pid);
    var t := Expire(s, sock, pid);
    LeaveKeeps(s, pid);
    ExpireEffect(s, sock, pid);
    assert PlayerOk(s, pid);
    forall rid | rid in t.rooms ensures RoomOk(t, rid) {
      assert RoomOk(u, rid);
    }
    forall q | q in t.players ensures PlayerOk(t, q) {
      assert PlayerOk(u, q);
    }
  }

  // ----- player_ready and start_game -----

  /** Every member is registered and either ready or the host (an unregistered member counts as not ready). */
  ghost predicate AllReady(s: State, rid: RoomId)
    requires rid in s.rooms
  {
    forall m :: m in s.rooms[rid].members ==>
      m in s.players && (s.players[m].status == Ready || s.players[m].role == Host)
  }

  /** The start test: everyone ready and at least two members. */
  function CanStart(s: State, rid: RoomId): (b: bool)
    requires rid in s.rooms
    ensures b <==> AllReady(s, rid) && |s.rooms[rid].members| >= 2
  {
    |s.rooms[rid].members| >= 2 && MembersReady(s, s.rooms[rid].members)
  }

  /** The readiness test over a member list, one member at a time. */
  function MembersReady(s: State, ids: seq<PlayerId>): (b: bool)
    ensures b <==> forall m :: m in ids ==> m in s.players && (s.players[m].status == Ready || s.players[m].role == Host)
  {
    if ids == [] then true
    else (ids[0] in s.players && (s.players[ids[0]].status == Ready || s.players[ids[0]].role == Host))
         && MembersReady(s, ids[1..])
  }

  /** The toggle of `player_ready`: waiting becomes ready, anything else becomes waiting. */
  function Toggled(st: PlayerStatus): (r: PlayerStatus)
    ensures r != InLobby && r != st
  {
    if st == Waiting then Ready else Waiting
  }

  /**
   * `player_ready`: a player in an existing room toggles their status (the host too); for the
   * host the result carries the start test evaluated after the toggle (`canStart`).
   */
  function PlayerReady(s: State, sock: SocketId): (r: (State, Option<bool>))
    ensures Keeps(s, r.0) && r.0.rooms == s.rooms
    ensures r.1.Some? ==> Resolve(s, sock).Some?
  {
    match Resolve(s, sock)
    case None => (s, None)
    case Some(pid) =>
      var p := s.players[pid];
      if p.room.None? || p.room.value !in s.rooms then (s, None)
      else
        var t := s.(players := s.players[pid := p.(status := Toggled(p.status))]);
        assert Seats(t) == Seats(s);
        (t, if p.role == Host then Some(CanStart(t, p.room.value)) else None)
  }

  /** Toggling twice restores a waiting or ready player; the host learns whether the room can start. */
  lemma ReadyToggles(s: State, sock: SocketId)
    requires Resolve(s, sock).Some?
    requires var p := s.players[Resolve(s, sock).value];
             p.room.Some? && p.room.value in s.rooms && p.status != InLobby
    ensures var pid := Resolve(s, sock).value;
            var p := s.players[pid];
            var r := PlayerReady(s, sock);
            && r.0.players[pid].status != p.status
            && (p.role == Host <==> r.1.Some?)
            && (r.1.Some? ==> r.1.value == CanStart(r.0, p.room.value))
            && PlayerReady(r.0, sock).0 == s
            && r.0 == s.(players := s.players[pid := p.(status := Toggled(p.status))])
  {
    var pid := Resolve(s, sock).value;
    var t := PlayerReady(s, sock).0;
    assert Resolve(t, sock) == Some(pid);
    assert t.players[pid].status == Toggled(s.players[pid].status);
  }

  /**
   * `start_game` with the layout draws: only the host of an existing room may start it, and
   * only when everyone is ready and there are at least two members; the room then plays on a
   * fresh board from turn 0.
   */
  function StartGame(s: State, sock: SocketId, draws: seq<int>): (r: (State, Option<Refusal>))
    requires |draws| == LAYOUT_SIZE - 1
    ensures Keeps(s, r.0) && r.0.players == s.players
    ensures r.1.Some? ==> r.0 == s
  {
    match Resolve(s, sock)
    case None => (s, Some(InvalidPlayer))
    case Some(pid) =>
      var p := s.players[pid];
      if p.room.None? || p.room.value !in s.rooms || p.role != Host then (s, Some(NotHost))
      else if !CanStart(s, p.room.value) then (s, Some(NotReady))
      else
        var rid := p.room.value;
        var room := s.rooms[rid];
        var t := s.(rooms := s.rooms[rid := room.(status := Playing, events := Layout(draws), turn := 0)]);
        assert Tables(t) == Tables(s);
        (t, None)
  }

  /** A started room plays on a 47-cell layout with the isolation cell at 24, from the first member. */
  lemma StartGameEffect(s: State, sock: SocketId, draws: seq<int>)
    requires |draws| == LAYOUT_SIZE - 1
    ensures var r := StartGame(s, sock, draws);
            r.1.None? <==>
              && Resolve(s, sock).Some?
              && var p := s.players[Resolve(s, sock).value];
              && p.room.Some? && p.room.value in s.rooms && p.role == Host
              && CanStart(s, p.room.value)
    ensures var r := StartGame(s, sock, draws);
            r.1.None? ==>
              var rid := s.players[Resolve(s, sock).value].room.value;
              var room := r.0.rooms[rid];
              && room.status == Playing && room.turn == 0 && room.events == Layout(draws)
              && |room.events| == TRACK_LENGTH - 1
              && CellAt(room.events, ISOLATION_CELL) == Some(Isolation)
              && room == s.rooms[rid].(status := Playing, turn := 0, events := Layout(draws))
              && r.0.rooms.Keys == s.rooms.Keys
              && (forall x :: x in s.rooms && x != rid ==> r.0.rooms[x] == s.rooms[x])
  {
    if StartGame(s, sock, draws).1.None? {
      LayoutCells(draws);
    }
  }
}
