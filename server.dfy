/**
 * The server itself: the global maps `playersData`, `rooms`, `socketIdMap` and the free colour
 * list as the fields of one object, and each Socket.IO handler as a method that updates them
 * in place. Every method is proved to leave the object in the state its specification
 * function computes; the handler methods are also proved to keep the consistency invariant,
 * under the provisos of CreateRoom (an unused room id) and Expire (`SingleSeat`).
 */
module Server {
  import opened Optional
  import opened Items
  import opened Track
  import opened Board
  import opened Entities
  import Rules
  import Catalog
  import Lobby

  class World {
    var players: map<PlayerId, Player>
    var rooms: map<RoomId, Room>
    var pool: seq<Color>
    var sockets: map<SocketId, PlayerId>

    /** The object's state as a value, the argument and result of the specification functions. */
    function Current(): State
      reads this
    {
      State(players, rooms, pool, sockets)
    }

    /** A freshly started server: nobody registered, no rooms, the whole palette free. */
    constructor ()
      ensures Current() == State(map[], map[], PALETTE, map[])
      ensures Consistent(Current())
    {
      players := map[];
      rooms := map[];
      pool := PALETTE;
      sockets := map[];
      PaletteDistinct();
    }

    /** `getPlayerColor` with the draw `k`: refills an empty list, then splices out entry `k`. */
    method DrawColor(k: nat) returns (color: Color)
      requires k < |Lobby.Refilled(pool)|
      modifies this
      ensures (color, pool) == Lobby.TakeColor(old(pool), k)
      ensures players == old(players) && rooms == old(rooms) && sockets == old(sockets)
    {
      if |pool| == 0 {
        pool := PALETTE;
      }
      color := pool[k];
      pool := pool[..k] + pool[k + 1..];
    }

    /** `set_player_info` from socket `sock`, with the colour draw `k` for a new player. */
    method SetPlayerInfo(sock: SocketId, pid: PlayerId, name: string, k: nat)
      requires pid !in players ==> k < |Lobby.Refilled(pool)|
      modifies this
      ensures Current() == Lobby.Register(old(Current()), sock, pid, name, k)
      ensures Consistent(old(Current())) ==> Consistent(Current())
    {
      ghost var s := Current();
      sockets := sockets[sock := pid];
      if pid !in players {
        var color := DrawColor(k);
        players := players[pid := Lobby.NewPlayer(name, color, sock)];
      } else {
        var p := players[pid];
        players := players[pid := p.(socket := sock, name := Lobby.NameAfter(p.name, name))];
      }
      if Consistent(s) {
        Lobby.RegisterKeeps(s, sock, pid, name, k);
      }
    }

    /** `create_room` from socket `sock` under the generated id `rid`. */
    method CreateRoom(sock: SocketId, rid: RoomId, name: string)
      modifies this
      ensures Current() == Lobby.CreateRoom(old(Current()), sock, rid, name)
      ensures Consistent(old(Current())) && rid !in old(rooms) ==> Consistent(Current())
    {
      ghost var s := Current();
      var who := Resolve(Current(), sock);
      if who.Some? {
        var pid := who.value;
        rooms := rooms[rid := Lobby.NewRoom(name, pid)];
        var p := players[pid];
        players := players[pid := p.(room := Some(rid), role := Host, status := Ready, inventory := [],
                                     laps := 0, lastRoll := 0, saving := IDLE_BANK, boosted := IDLE_BANK)];
      }
      if Consistent(s) && rid !in s.rooms {
        Lobby.CreateRoomKeeps(s, sock, rid, name);
      }
    }

    /** `join_room` from socket `sock` into room `rid`; `refusal` is why it was refused, if it was. */
    method JoinRoom(sock: SocketId, rid: RoomId) returns (refusal: Option<Lobby.Refusal>)
      modifies this
      ensures (Current(), refusal) == Lobby.JoinRoom(old(Current()), sock, rid)
      ensures Consistent(old(Current())) ==> Consistent(Current())
    {
      ghost var s := Current();
      var who := Resolve(Current(), sock);
      if who.None? {
        refusal := Some(Lobby.InvalidPlayer);
      } else if rid !in rooms {
        refusal := Some(Lobby.NoRoom);
      } else if |rooms[rid].members| >= rooms[rid].capacity {
        refusal := Some(Lobby.Full);
      } else if rooms[rid].status != Open {
        refusal := Some(Lobby.AlreadyPlaying);
      } else if players[who.value].room.Some? {
        refusal := Some(Lobby.AlreadyInRoom);
      } else {
        var pid := who.value;
        var room := rooms[rid];
        rooms := rooms[rid := room.(members := room.members + [pid])];
        var p := players[pid];
        players := players[pid := p.(room := Some(rid), role := Participant, status := Waiting, inventory := [],
                                     laps := 0, lastRoll := 0, saving := IDLE_BANK, shielded := false,
                                     boosted := p.boosted.(stack := 0))];
        refusal := None;
      }
      if Consistent(s) {
        Lobby.JoinKeeps(s, sock, rid);
      }
    }

    /** `handleLeaveRoom(pid)`. */
    method HandleLeave(pid: PlayerId)
      requires pid in players
      modifies this
      ensures Current() == Lobby.Leave(old(Current()), pid)
      ensures Consistent(old(Current())) ==> Consistent(Current())
    {
      ghost var s := Current();
      if Consistent(s) {
        Lobby.LeaveKeeps(s, pid);
      }
      var p := players[pid];
      if p.room.None? || p.room.value !in rooms {
        return;
      }
      var rid := p.room.value;
      var room := rooms[rid];
      var rest := Lobby.Without(room.members, pid);
      rooms := rooms[rid := room.(members := rest)];
      if room.host == pid {
        if |rest| > 0 {
          var h := rest[0];
          rooms := rooms[rid := rooms[rid].(host := h)];
          if h in players {
            players := players[h := players[h].(role := Host)];
          }
        } else {
          rooms := rooms - {rid};
          assert rooms == s.rooms - {rid};
        }
      }
      assert rooms == Lobby.LeaveRooms(s.rooms, rid, pid);
      assert players == Lobby.Promoted(s.players, room, pid);
      players := players[pid := Lobby.LeftRoom(p)];
      if p.color != "" && p.color !in pool {
        pool := pool + [p.color];
      }
    }

    /** `leave_room` from socket `sock`. */
    method LeaveRoom(sock: SocketId)
      modifies this
      ensures Current() == Lobby.LeaveBySocket(old(Current()), sock)
      ensures Consistent(old(Current())) ==> Consistent(Current())
    {
      var who := Resolve(Current(), sock);
      if who.Some? {
        HandleLeave(who.value);
      }
    }

    /** `disconnect` of socket `sock`: an unknown socket loses its mapping at once. */
    method Disconnect(sock: SocketId)
      modifies this
      ensures Current() == Lobby.Disconnect(old(Current()), sock)
      ensures Consistent(old(Current())) ==> Consistent(Current())
    {
      var who := Resolve(Current(), sock);
      if who.None? {
        sockets := sockets - {sock};
      }
    }

    /** The grace timer firing for `pid`, whose socket was `sock`: leave, return the colour, erase. */
    method Expire(sock: SocketId, pid: PlayerId)
      requires pid in players
      modifies this
      ensures Current() == Lobby.Expire(old(Current()), sock, pid)
      ensures Consistent(old(Current())) && Lobby.SingleSeat(old(Current()), pid) ==> Consistent(Current())
    {
      ghost var s := Current();
      if Consistent(s) && Lobby.SingleSeat(s, pid) {
        Lobby.ExpireKeeps(s, sock, pid);
      }
      var color := players[pid].color;
      HandleLeave(pid);
      if color != "" && color !in pool {
        pool := pool + [color];
      }
      players := players - {pid};
      sockets := sockets - {sock};
    }

    /** `player_ready` from socket `sock`; the host gets the start test as `canStart`. */
    method PlayerReady(sock: SocketId) returns (canStart: Option<bool>)
      modifies this
      ensures (Current(), canStart) == Lobby.PlayerReady(old(Current()), sock)
      ensures Consistent(old(Current())) ==> Consistent(Current())
    {
      ghost var s := Current();
      canStart := None;
      var who := Resolve(Current(), sock);
      if who.None? {
        return;
      }
      var pid := who.value;
      var p := players[pid];
      if p.room.Some? && p.room.value in rooms {
        players := players[pid := p.(status := Lobby.Toggled(p.status))];
        if p.role == Host {
          canStart := Some(Lobby.CanStart(Current(), p.room.value));
        }
      }
      if Consistent(s) {
        KeepsConsistent(s, Current());
      }
    }

    /** `start_game` from socket `sock`, with the draws of the board layout. */
    method StartGame(sock: SocketId, draws: seq<int>) returns (refusal: Option<Lobby.Refusal>)
      requires |draws| == LAYOUT_SIZE - 1
      modifies this
      ensures (Current(), refusal) == Lobby.StartGame(old(Current()), sock, draws)
      ensures Consistent(old(Current())) ==> Consistent(Current())
    {
      ghost var s := Current();
      var who := Resolve(Current(), sock);
      if who.None? {
        return Some(Lobby.InvalidPlayer);
      }
      var p := players[who.value];
      if p.room.None? || p.room.value !in rooms || p.role != Host {
        return Some(Lobby.NotHost);
      }
      var rid := p.room.value;
      if !Lobby.CanStart(Current(), rid) {
        return Some(Lobby.NotReady);
      }
      var events := BuildLayout(draws);
      rooms := rooms[rid := rooms[rid].(status := Playing, events := events, turn := 0)];
      refusal := None;
      if Consistent(s) {
        KeepsConsistent(s, Current());
      }
    }

    /** `updatePlayerPositionAndCheckWin`: moves `pid` from `from` by `roll`. */
    method MovePlayer(pid: PlayerId, from: int, roll: int) returns (win: bool)
      requires pid in players
      modifies this
      ensures (Current(), win) == Rules.Move(old(Current()), pid, from, roll)
    {
      var p := players[pid];
      var potential := from + roll;
      var position := JsRem(potential);
      var laps := p.laps;
      if roll > 0 && potential >= TRACK_LENGTH && from < TRACK_LENGTH {
        laps := laps + 1;
      } else if roll < 0 && position < from && potential < 0 {
        laps := laps - 1;
        if laps < 0 {
          laps := 0;
        }
      }
      players := players[pid := p.(position := position, laps := laps, lastRoll := from)];
      win := laps >= 1;
    }

    /** `resetRoomAndPlayersForNewGame(rid)`: the room is reopened, then each member is reset in turn. */
    method ResetRoom(rid: RoomId)
      modifies this
      ensures Current() == Rules.Reset(old(Current()), rid)
    {
      if rid !in rooms {
        return;
      }
      var room := rooms[rid];
      rooms := rooms[rid := room.(status := Open, turn := 0, events := [])];
      var ps := players;
      var i := 0;
      while i < |room.members|
        invariant 0 <= i <= |room.members|
        invariant ps == Rules.ResetPlayers(players, room.members[..i])
        modifies {}
      {
        var m := room.members[i];
        Rules.ResetPlayersStep(players, room.members, i);
        if m in ps {
          ps := ps[m := Rules.Fresh(ps[m])];
        }
        i := i + 1;
      }
      assert room.members[..|room.members|] == room.members;
      players := ps;
    }

    /** `executeBoardEvent(rid, pid)`: resolves the lander's cell, following move-back cells. */
    method ExecuteBoardEvent(rid: RoomId, pid: PlayerId) returns (ended: seq<PlayerId>)
      modifies this
      ensures (Current(), ended) == Rules.Land(old(Current()), rid, pid)
      decreases Rules.LandRank(Current(), pid)
    {
      ended := [];
      if rid !in rooms || pid !in players {
        return;
      }
      var p := players[pid];
      if p.position == 0 {
        return;
      }
      if p.position == ISOLATION_CELL {
        if !p.shielded {
          if p.effects.jail.None? {
            players := players[pid := p.(effects := p.effects.(jail := Some(Rules.JAIL_TURNS)))];
          }
        } else {
          players := players[pid := p.(shielded := false)];
        }
        return;
      }
      match CellAt(rooms[rid].events, p.position)
      case Some(Grant(item)) =>
        players := players[pid := p.(inventory := p.inventory + [item])];
      case Some(MoveBack) =>
        var win := MovePlayer(pid, p.position, -MOVE_BACK_STEPS);
        if win {
          ResetRoom(rid);
          ended := [pid];
        } else {
          Rules.StepBackLowers(p.position);
          ended := ExecuteBoardEvent(rid, pid);
        }
      case _ =>
    }

    /** `(currentTurnIndex + 1) % players.length` on room `rid`. */
    method AdvanceTurn(rid: RoomId)
      modifies this
      ensures Current() == Rules.AdvanceTurn(old(Current()), rid)
    {
      if rid in rooms && |rooms[rid].members| > 0 {
        var room := rooms[rid];
        rooms := rooms[rid := room.(turn := (room.turn + 1) % |room.members|)];
      }
    }

    /** `roll_dice` from socket `sock` with the die `die`; `ended` lists the announced winners. */
    method RollDice(sock: SocketId, die: int) returns (ended: seq<PlayerId>)
      requires 1 <= die <= Rules.DIE_FACES
      modifies this
      ensures (Current(), ended) == Rules.RollDice(old(Current()), sock, die)
      ensures Consistent(old(Current())) ==> Consistent(Current())
    {
      ghost var s := Current();
      ended := [];
      var who := Resolve(Current(), sock);
      if who.Some? {
        var pid := who.value;
        var at := Rules.PlayingRoom(Current(), pid);
        if at.Some? && Rules.HasTurn(rooms[at.value], pid) {
          ended := TakeTurn(at.value, pid, die);
        }
      }
      if Consistent(s) {
        KeepsConsistent(s, Current());
      }
    }

    /** The turn of `pid` in room `rid`: the isolation and skip countdowns, or the throw. */
    method TakeTurn(rid: RoomId, pid: PlayerId, die: int) returns (ended: seq<PlayerId>)
      requires rid in rooms && pid in players && 1 <= die <= Rules.DIE_FACES
      modifies this
      ensures (Current(), ended) == Rules.Turn(old(Current()), rid, pid, die)
    {
      var p := players[pid];
      if p.effects.jail.Some? && p.effects.jail.value > 0 {
        players := players[pid := p.(effects := p.effects.(jail := Rules.Countdown(p.effects.jail.value)))];
        AdvanceTurn(rid);
        ended := [];
      } else if p.effects.skip.Some? && p.effects.skip.value > 0 {
        players := players[pid := p.(effects := p.effects.(skip := Rules.Countdown(p.effects.skip.value)))];
        AdvanceTurn(rid);
        ended := [];
      } else {
        ended := Throw(rid, pid, die);
      }
    }

    /** A thrown die: modifier, accrual, move, then the reset or the landing and the next turn. */
    method Throw(rid: RoomId, pid: PlayerId, die: int) returns (ended: seq<PlayerId>)
      requires rid in rooms && pid in players && 1 <= die <= Rules.DIE_FACES
      modifies this
      ensures (Current(), ended) == Rules.Play(old(Current()), rid, pid, die)
    {
      var p := players[pid];
      var thrown := Rules.Throw(p, die);
      players := players[pid := Rules.Accrued(thrown.0)];
      var win := MovePlayer(pid, p.position, thrown.1);
      if win {
        ResetRoom(rid);
        ended := [pid];
      } else {
        ended := ExecuteBoardEvent(rid, pid);
        AdvanceTurn(rid);
      }
    }

    /**
     * `use_item_dice` from socket `sock`: the gate and the removal of the item happen here,
     * then the item's case runs.
     */
    method UseItemDice(sock: SocketId, item: ItemName, target: Option<PlayerId>, d: Catalog.Draws)
      returns (ended: seq<PlayerId>)
      requires Catalog.DrawsInRange(item, d)
      modifies this
      ensures (Current(), ended) == Catalog.UseItem(old(Current()), sock, item, target, d)
      ensures Consistent(old(Current())) ==> Consistent(Current())
    {
      ghost var s := Current();
      Catalog.UseItemGate(s, sock, item, target, d);
      ended := [];
      var who := Resolve(Current(), sock);
      if who.Some? {
        var actor := who.value;
        var at := Rules.PlayingRoom(Current(), actor);
        if at.Some? && item in players[actor].inventory {
          var p := players[actor];
          players := players[actor := p.(inventory := RemoveFirst(p.inventory, item))];
          assert Current() == Catalog.Take(s, actor, item);
          ended := RunItem(at.value, actor, item, target, d);
        }
      }
      if Consistent(s) {
        Catalog.UseItemKeeps(s, sock, item, target, d);
      }
    }

    /** The `switch (diceType)` case of `item`, installed from its specification. */
    method RunItem(rid: RoomId, actor: PlayerId, item: ItemName, target: Option<PlayerId>, d: Catalog.Draws)
      returns (ended: seq<PlayerId>)
      requires actor in players && Catalog.DrawsInRange(item, d)
      modifies this
      ensures (Current(), ended) == Catalog.Dispatch(old(Current()), rid, actor, item, target, d)
    {
      var r := Catalog.Dispatch(Current(), rid, actor, item, target, d);
      players, rooms, pool, sockets, ended := r.0.players, r.0.rooms, r.0.pool, r.0.sockets, r.1;
    }
  }
}
