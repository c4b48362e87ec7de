/**
 * The movement and board rules of server.js as functions on the whole state: a move
 * (`updatePlayerPositionAndCheckWin`), the reset after a game (`resetRoomAndPlayersForNewGame`),
 * the landing resolution (`executeBoardEvent`) and a turn of `roll_dice`.
 * The announcements of `game_ended` are returned as the list of announced winners.
 */
module Rules {
  import opened Optional
  import opened Items
  import opened Track
  import opened Board
  import opened Entities

  /** Turns spent on the isolation cell (`skipTurns: 2`). */
  const JAIL_TURNS: int := 2

  /** The faces of the turn's die, `Math.floor(Math.random() * 6) + 1`: a die is in `1..DIE_FACES`. */
  const DIE_FACES: int := 6

  /** The state with the record of `pid` replaced by `q`, a record with the same seat. */
  function Put(s: State, pid: PlayerId, q: Player): (t: State)
    requires pid in s.players && SameSeat(s.players[pid], q)
    ensures Stable(s, t) && (AllSane(s) && Sane(q) ==> AllSane(t))
    ensures t.rooms == s.rooms && pid in t.players && t.players[pid] == q
    ensures forall x :: x in s.players && x != pid ==> t.players[x] == s.players[x]
  {
    s.(players := s.players[pid := q])
  }

  /** A second replacement of the same record overrides the first. */
  lemma PutTwice(s: State, pid: PlayerId, q1: Player, q2: Player)
    requires pid in s.players && SameSeat(s.players[pid], q1) && SameSeat(q1, q2)
    ensures Put(Put(s, pid, q1), pid, q2) == Put(s, pid, q2)
  {
  }

  /** Replacing `a`, then `b`, then `a` again is replacing `b` and then `a`. */
  lemma PutOver(s: State, a: PlayerId, b: PlayerId, qa: Player, qb: Player, qa2: Player)
    requires a in s.players && b in s.players && a != b
    requires SameSeat(s.players[a], qa) && SameSeat(qa, qa2) && SameSeat(s.players[b], qb)
    ensures Put(Put(Put(s, a, qa), b, qb), a, qa2) == s.(players := s.players[b := qb][a := qa2])
  {
  }

  /** One player record after a move from `from` by `roll`. */
  function Moved(p: Player, from: int, roll: int): (q: Player)
    ensures p.laps >= 0 ==> Sane(q)
    ensures SameSeat(p, q)
  {
    p.(position := NewPosition(from, roll), laps := NewLaps(p.laps, from, roll), lastRoll := from)
  }

  /**
   * `updatePlayerPositionAndCheckWin`: moves `pid` from `from` by `roll`, records `from` as
   * the last position, and reports whether the mover has now won.
   */
  function Move(s: State, pid: PlayerId, from: int, roll: int): (r: (State, bool))
    requires pid in s.players
    ensures Keeps(s, r.0)
    ensures pid in r.0.players && (r.1 <==> IsWin(r.0.players[pid].laps))
    ensures forall q :: q in s.players && q != pid ==> r.0.players[q] == s.players[q]
    ensures r.0.rooms == s.rooms
    ensures var p := s.players[pid];
            r.0.players[pid] == p.(position := NewPosition(from, roll), laps := NewLaps(p.laps, from, roll), lastRoll := from)
  {
    var q := Moved(s.players[pid], from, roll);
    (Put(s, pid, q), IsWin(q.laps))
  }

  /** A forward move from a cell on the board: position, laps, last position and win. */
  lemma ForwardMove(s: State, pid: PlayerId, roll: int)
    requires pid in s.players && 0 <= s.players[pid].position < TRACK_LENGTH && roll > 0
    ensures var p := s.players[pid];
            var r := Move(s, pid, p.position, roll);
            var q := r.0.players[pid];
            && q.position == (p.position + roll) % TRACK_LENGTH
            && q.laps == (if p.position + roll >= TRACK_LENGTH then p.laps + 1 else p.laps)
            && q.lastRoll == p.position
            && (r.1 <==> q.laps >= 1)
  {
  }

  /** A backward move never makes the lap count negative and never adds a lap. */
  lemma BackwardMove(s: State, pid: PlayerId, from: int, roll: int)
    requires pid in s.players && s.players[pid].laps >= 0 && roll < 0
    ensures 0 <= Move(s, pid, from, roll).0.players[pid].laps <= s.players[pid].laps
  {
  }

  /** The record of a room member after `resetRoomAndPlayersForNewGame`. */
  function Fresh(p: Player): (q: Player)
    ensures Sane(q) && SameSeat(p, q)
  {
    p.(status := if p.role == Host then Ready else Waiting,
       position := 0, laps := 0, inventory := [], effects := NO_EFFECTS, lastRoll := 0,
       saving := IDLE_BANK, boosted := IDLE_BANK, shielded := false)
  }

  /** The member loop of the reset, over the first |ids| members. */
  function ResetPlayers(ps: map<PlayerId, Player>, ids: seq<PlayerId>): (r: map<PlayerId, Player>)
    ensures r.Keys == ps.Keys
    ensures forall q :: q in ps ==> r[q] == if q in ids then Fresh(ps[q]) else ps[q]
    decreases |ids|
  {
    if ids == [] then ps
    else
      var before := ResetPlayers(ps, ids[..|ids| - 1]);
      var last := ids[|ids| - 1];
      assert ids == ids[..|ids| - 1] + [last];
      if last in before then before[last := Fresh(before[last])] else before
  }

  /** One more member of the reset loop. */
  lemma ResetPlayersStep(ps: map<PlayerId, Player>, ids: seq<PlayerId>, i: nat)
    requires i < |ids|
    ensures var before := ResetPlayers(ps, ids[..i]);
            ResetPlayers(ps, ids[..i + 1]) == if ids[i] in before then before[ids[i] := Fresh(before[ids[i]])] else before
  {
    assert ids[..i + 1][..i] == ids[..i];
  }

  /**
   * `resetRoomAndPlayersForNewGame`: the room is open again with no board and turn 0, and
   * every member is back on the start cell with nothing in hand.
   */
  function Reset(s: State, rid: RoomId): (t: State)
    ensures Keeps(s, t)
    ensures rid in s.rooms ==>
      t.rooms[rid].status == Open && t.rooms[rid].turn == 0 && t.rooms[rid].events == []
    ensures forall x :: x in s.rooms && x != rid ==> t.rooms[x] == s.rooms[x]
    ensures forall q :: q in s.players ==>
      t.players[q] == if rid in s.rooms && q in s.rooms[rid].members then Fresh(s.players[q]) else s.players[q]
  {
    if rid !in s.rooms then s
    else
      var room := s.rooms[rid];
      s.(rooms := s.rooms[rid := room.(status := Open, turn := 0, events := [])],
         players := ResetPlayers(s.players, room.members))
  }

  /** After a reset every member stands on the start cell, with no laps, items, effects or savings. */
  lemma ResetClearsMembers(s: State, rid: RoomId, q: PlayerId)
    requires rid in s.rooms && q in s.rooms[rid].members && q in s.players
    ensures var p := Reset(s, rid).players[q];
            && p.position == 0 && p.laps == 0 && p.inventory == [] && p.effects == NO_EFFECTS
            && p.saving == IDLE_BANK && p.boosted == IDLE_BANK && !p.shielded
            && p.status == (if s.players[q].role == Host then Ready else Waiting)
  {
  }

  /** Resetting twice is resetting once. */
  lemma ResetIdempotent(s: State, rid: RoomId)
    ensures Reset(Reset(s, rid), rid) == Reset(s, rid)
  {
    if rid in s.rooms {
      var t := Reset(s, rid);
      var members := s.rooms[rid].members;
      assert t.rooms[rid].members == members;
      ResetPlayersTwice(s.players, members);
      assert Reset(t, rid).rooms == t.rooms;
    }
  }

  lemma ResetPlayersTwice(ps: map<PlayerId, Player>, ids: seq<PlayerId>)
    ensures ResetPlayers(ResetPlayers(ps, ids), ids) == ResetPlayers(ps, ids)
  {
    var once := ResetPlayers(ps, ids);
    var twice := ResetPlayers(once, ids);
    assert forall q :: q in twice ==> twice[q] == once[q];
  }

  /** No record other than that of `pid` differs between `s` and `t`. */
  ghost predicate Untouched(s: State, t: State, pid: PlayerId) {
    forall q :: q in s.players && q != pid ==> q in t.players && t.players[q] == s.players[q]
  }

  /** The measure of the landing cascade: the position while it is positive. */
  function LandRank(s: State, pid: PlayerId): nat {
    if pid in s.players && s.players[pid].position > 0 then s.players[pid].position else 0
  }

  lemma StepBackLowers(pos: int)
    requires pos >= 1
    ensures var q := NewPosition(pos, -MOVE_BACK_STEPS); (if q > 0 then q else 0) < pos
  {
    if pos >= MOVE_BACK_STEPS {
      assert NewPosition(pos, -MOVE_BACK_STEPS) == (pos - MOVE_BACK_STEPS) % TRACK_LENGTH;
    }
  }

  /**
   * `executeBoardEvent`: resolves the cell `pid` stands on against the board of room `rid`.
   * The start cell does nothing; the isolation cell either spends the shield or starts a
   * two-turn isolation (an isolation already running is kept); a grant cell appends its
   * item; a move-back cell moves two cells back and resolves the new cell in turn, unless
   * that move won, which resets the room and announces `pid`.
   */
  function Land(s: State, rid: RoomId, pid: PlayerId): (r: (State, seq<PlayerId>))
    ensures r.1 == [] || r.1 == [pid]
    ensures r.0.players.Keys == s.players.Keys
    ensures r.1 == [] ==> r.0.rooms == s.rooms
    decreases LandRank(s, pid)
  {
    if rid !in s.rooms || pid !in s.players then (s, [])
    else
      var p := s.players[pid];
      if p.position == 0 then (s, [])
      else if p.position == ISOLATION_CELL then
        if !p.shielded then
          if p.effects.jail.None? then
            (Put(s, pid, p.(effects := p.effects.(jail := Some(JAIL_TURNS)))), [])
          else (s, [])
        else (Put(s, pid, p.(shielded := false)), [])
      else
        match CellAt(s.rooms[rid].events, p.position)
        case Some(Grant(item)) =>
          (Put(s, pid, p.(inventory := p.inventory + [item])), [])
        case Some(MoveBack) =>
          var (t, win) := Move(s, pid, p.position, -MOVE_BACK_STEPS);
          if win then (Reset(t, rid), [pid])
          else
            StepBackLowers(p.position);
            Land(t, rid, pid)
        case _ => (s, [])
  }

  /**
   * Landing is a gameplay step (nobody changes seat, positions stay on the track), and as
   * long as no game ends it touches nobody but the lander.
   */
  lemma {:induction false} LandKeeps(s: State, rid: RoomId, pid: PlayerId)
    ensures Keeps(s, Land(s, rid, pid).0)
    ensures Land(s, rid, pid).1 == [] ==> Untouched(s, Land(s, rid, pid).0, pid)
    decreases LandRank(s, pid)
  {
    if rid in s.rooms && pid in s.players {
      var p := s.players[pid];
      if p.position != 0 && p.position != ISOLATION_CELL
         && CellAt(s.rooms[rid].events, p.position) == Some(MoveBack) {
        var (t, win) := Move(s, pid, p.position, -MOVE_BACK_STEPS);
        if win {
          KeepsChain(s, t, Reset(t, rid));
        } else {
          StepBackLowers(p.position);
          LandKeeps(t, rid, pid);
          KeepsChain(s, t, Land(t, rid, pid).0);
        }
      }
    }
  }

  /** The start cell, a position with no assigned cell (such as -1) and a room with no board do nothing. */
  lemma LandWithoutEvent(s: State, rid: RoomId, pid: PlayerId)
    requires rid in s.rooms && pid in s.players
    requires var pos := s.players[pid].position;
             pos == 0 || (pos != ISOLATION_CELL && CellAt(s.rooms[rid].events, pos).None?)
    ensures Land(s, rid, pid) == (s, [])
  {
  }

  /** The isolation cell: a shield is spent instead of isolation; a running isolation is kept. */
  lemma LandOnIsolation(s: State, rid: RoomId, pid: PlayerId)
    requires rid in s.rooms && pid in s.players && s.players[pid].position == ISOLATION_CELL
    ensures var p := s.players[pid];
            var r := Land(s, rid, pid);
            && r.1 == []
            && r.0.players == s.players[pid :=
                 if p.shielded then p.(shielded := false)
                 else if p.effects.jail.None? then p.(effects := p.effects.(jail := Some(JAIL_TURNS)))
                 else p]
            && r.0.rooms == s.rooms
  {
    var p := s.players[pid];
    if !p.shielded && p.effects.jail.Some? {
      assert s.players[pid := p] == s.players;
    }
  }

  /** A grant cell adds exactly its item at the end of the inventory and changes nothing else. */
  lemma LandOnGrant(s: State, rid: RoomId, pid: PlayerId, item: ItemName)
    requires rid in s.rooms && pid in s.players
    requires var pos := s.players[pid].position;
             pos != 0 && pos != ISOLATION_CELL && CellAt(s.rooms[rid].events, pos) == Some(Grant(item))
    ensures var p := s.players[pid];
            Land(s, rid, pid) == (s.(players := s.players[pid := p.(inventory := p.inventory + [item])]), [])
  {
  }

  /**
   * One step of the move-back cascade from a cell in 1..47 before any lap: the player goes
   * exactly two cells down (from cell 1 to -1, which holds no event), remembers the cell
   * left, and that cell is resolved next.
   */
  lemma CascadeStep(s: State, rid: RoomId, pid: PlayerId)
    requires rid in s.rooms && pid in s.players
    requires var p := s.players[pid];
             && 1 <= p.position < TRACK_LENGTH && p.position != ISOLATION_CELL && p.laps == 0
             && CellAt(s.rooms[rid].events, p.position) == Some(MoveBack)
    ensures var p := s.players[pid];
            Land(s, rid, pid) ==
              Land(s.(players := s.players[pid := p.(position := p.position - 2, lastRoll := p.position)]), rid, pid)
  {
    var p := s.players[pid];
    MoveBackTwo(p.position);
    assert Moved(p, p.position, -MOVE_BACK_STEPS) == p.(position := p.position - 2, lastRoll := p.position);
  }

  /**
   * The cascade stops where the cell holds no move-back: the player stays on its cell,
   * nobody else is touched and no game ends.
   */
  lemma CascadeStops(s: State, rid: RoomId, pid: PlayerId)
    requires rid in s.rooms && pid in s.players
    requires var pos := s.players[pid].position;
             pos == 0 || pos == ISOLATION_CELL || CellAt(s.rooms[rid].events, pos) != Some(MoveBack)
    ensures var r := Land(s, rid, pid);
            && r.1 == []
            && r.0.players[pid].position == s.players[pid].position
            && (forall q :: q in s.players && q != pid ==> r.0.players[q] == s.players[q])
  {
  }

  /**
   * Landing never ends a game for a player who has not yet completed a lap: a move-back
   * step never adds one, so the cascade's own win test fails at every step and the
   * resolution touches nobody but the lander.
   */
  lemma {:induction false} LandWithoutLap(s: State, rid: RoomId, pid: PlayerId)
    requires pid in s.players && !IsWin(s.players[pid].laps)
    ensures var r := Land(s, rid, pid);
            && r.1 == [] && r.0.rooms == s.rooms
            && pid in r.0.players && !IsWin(r.0.players[pid].laps)
    decreases LandRank(s, pid)
  {
    if rid in s.rooms {
      var p := s.players[pid];
      if p.position != 0 && p.position != ISOLATION_CELL
         && CellAt(s.rooms[rid].events, p.position) == Some(MoveBack) {
        var (t, win) := Move(s, pid, p.position, -MOVE_BACK_STEPS);
        assert !win;
        StepBackLowers(p.position);
        LandWithoutLap(t, rid, pid);
      }
    }
  }

  /** `(currentTurnIndex + 1) % players.length` on room `rid`. */
  function AdvanceTurn(s: State, rid: RoomId): (t: State)
    ensures Keeps(s, t) && t.players == s.players
    ensures forall x :: x in s.rooms && x != rid ==> t.rooms[x] == s.rooms[x]
    ensures rid in s.rooms && |s.rooms[rid].members| > 0 ==>
      t.rooms[rid] == s.rooms[rid].(turn := (s.rooms[rid].turn + 1) % |s.rooms[rid].members|)
    ensures rid in s.rooms && |s.rooms[rid].members| > 0 && s.rooms[rid].turn >= 0 ==>
      0 <= t.rooms[rid].turn < |s.rooms[rid].members|
  {
    if rid in s.rooms && |s.rooms[rid].members| > 0 then
      var room := s.rooms[rid];
      s.(rooms := s.rooms[rid := room.(turn := (room.turn + 1) % |room.members|)])
    else s
  }

  /** Both saving modes accrue on a turn: one step for the plain bank, two for the boosted one. */
  function Accrued(p: Player): (q: Player)
    ensures SameSeat(p, q) && (Sane(p) ==> Sane(q))
    ensures q.saving.active == p.saving.active && q.boosted.active == p.boosted.active
    ensures q.saving.stack - p.saving.stack == (if p.saving.active then 1 else 0)
    ensures q.boosted.stack - p.boosted.stack == (if p.boosted.active then 2 else 0)
  {
    p.(saving := if p.saving.active then p.saving.(stack := p.saving.stack + 1) else p.saving,
       boosted := if p.boosted.active then p.boosted.(stack := p.boosted.stack + 2) else p.boosted)
  }

  /** Whether a `nextRollModifier` is present and non-zero (JavaScript truthiness). */
  predicate HasModifier(e: Effects) {
    e.modifier.Some? && e.modifier.value != 0
  }

  /**
   * The die after the `nextRollModifier`: the modifier is added, the result clamped to at
   * least 1, and the modifier consumed.
   */
  function Throw(p: Player, die: int): (r: (Player, int))
    ensures die >= 1 ==> r.1 >= 1
    ensures HasModifier(p.effects) ==>
      && r.0.effects.modifier.None?
      && r.1 >= 1 && r.1 >= die + p.effects.modifier.value
      && (r.1 == 1 || r.1 == die + p.effects.modifier.value)
    ensures !HasModifier(p.effects) ==> r == (p, die)
    ensures r.0.effects.jail == p.effects.jail && r.0.effects.skip == p.effects.skip
    ensures r.0 == p.(effects := r.0.effects)
  {
    if HasModifier(p.effects) then
      var roll := die + p.effects.modifier.value;
      (p.(effects := p.effects.(modifier := None)), if roll < 1 then 1 else roll)
    else (p, die)
  }

  /** The room of a player, when it is a game in progress. */
  function PlayingRoom(s: State, pid: PlayerId): (r: Option<RoomId>)
    requires pid in s.players
    ensures r.Some? ==> r.value in s.rooms && s.rooms[r.value].status == Playing
    ensures r.Some? <==> s.players[pid].room.Some? && s.players[pid].room.value in s.rooms
                         && s.rooms[s.players[pid].room.value].status == Playing
  {
    var room := s.players[pid].room;
    if room.Some? && room.value in s.rooms && s.rooms[room.value].status == Playing then room else None
  }

  /** Whether it is `pid`'s turn in room `rid` (`room.players[room.currentTurnIndex] === playerId`). */
  predicate HasTurn(room: Room, pid: PlayerId) {
    0 <= room.turn < |room.members| && room.members[room.turn] == pid
  }

  /** A countdown that reached zero is deleted (`delete statusEffects.jail`). */
  function Countdown(k: int): Option<int> {
    if k - 1 == 0 then None else Some(k - 1)
  }

  /**
   * `roll_dice` for the player behind `sock` and the die `die`: a roll from an unknown
   * socket, outside a game in progress or out of turn does nothing; otherwise the turn runs.
   */
  function RollDice(s: State, sock: SocketId, die: int): (r: (State, seq<PlayerId>))
    requires 1 <= die <= DIE_FACES
    ensures Keeps(s, r.0)
    ensures r.1 == [] || (Resolve(s, sock).Some? && r.1 == [Resolve(s, sock).value])
  {
    match Resolve(s, sock)
    case None => (s, [])
    case Some(pid) =>
      match PlayingRoom(s, pid)
      case None => (s, [])
      case Some(rid) =>
        if !HasTurn(s.rooms[rid], pid) then (s, [])
        else Turn(s, rid, pid, die)
  }

  /**
   * The turn of `pid` in room `rid`: an isolation or skip countdown spends the turn and
   * passes it on; otherwise the die is thrown.
   */
  function Turn(s: State, rid: RoomId, pid: PlayerId, die: int): (r: (State, seq<PlayerId>))
    requires rid in s.rooms && pid in s.players && 1 <= die <= DIE_FACES
    ensures Keeps(s, r.0) && (r.1 == [] || r.1 == [pid])
  {
    var p := s.players[pid];
    if p.effects.jail.Some? && p.effects.jail.value > 0 then
      var s1 := Put(s, pid, p.(effects := p.effects.(jail := Countdown(p.effects.jail.value))));
      KeepsChain(s, s1, AdvanceTurn(s1, rid));
      (AdvanceTurn(s1, rid), [])
    else if p.effects.skip.Some? && p.effects.skip.value > 0 then
      var s1 := Put(s, pid, p.(effects := p.effects.(skip := Countdown(p.effects.skip.value))));
      KeepsChain(s, s1, AdvanceTurn(s1, rid));
      (AdvanceTurn(s1, rid), [])
    else Play(s, rid, pid, die)
  }

  /**
   * A thrown die: the modifier applies, the savings accrue, the roller moves; a win resets
   * the room and is announced, otherwise the cell is resolved and the turn passes on.
   */
  function Play(s: State, rid: RoomId, pid: PlayerId, die: int): (r: (State, seq<PlayerId>))
    requires rid in s.rooms && pid in s.players && 1 <= die <= DIE_FACES
    ensures Keeps(s, r.0) && (r.1 == [] || r.1 == [pid])
    ensures var p := s.players[pid];
            r.1 == [pid] <==> IsWin(NewLaps(p.laps, p.position, Throw(p, die).1))
    ensures r.1 == [] && |s.rooms[rid].members| > 0 ==>
              r.0.rooms[rid] == s.rooms[rid].(turn := (s.rooms[rid].turn + 1) % |s.rooms[rid].members|)
  {
    var p := s.players[pid];
    var thrown := Throw(p, die);
    var s1 := Put(s, pid, Accrued(thrown.0));
    var m := Move(s1, pid, p.position, thrown.1);
    KeepsChain(s, s1, m.0);
    if m.1 then
      KeepsChain(s, m.0, Reset(m.0, rid));
      (Reset(m.0, rid), [pid])
    else
      var l := Land(m.0, rid, pid);
      LandKeeps(m.0, rid, pid);
      LandWithoutLap(m.0, rid, pid);
      KeepsChain(s, m.0, l.0);
      KeepsChain(s, l.0, AdvanceTurn(l.0, rid));
      (AdvanceTurn(l.0, rid), l.1)
  }

  /** A roll by an unknown socket, outside a game in progress, or out of turn changes nothing. */
  lemma RollRejected(s: State, sock: SocketId, die: int)
    requires 1 <= die <= DIE_FACES
    requires Resolve(s, sock).None?
          || PlayingRoom(s, Resolve(s, sock).value).None?
          || !HasTurn(s.rooms[PlayingRoom(s, Resolve(s, sock).value).value], Resolve(s, sock).value)
    ensures RollDice(s, sock, die) == (s, [])
  {
  }

  /**
   * A turn spent in isolation: the countdown drops by one (the effect is deleted when it
   * reaches zero), the turn passes to the next seat, and nothing else changes.
   */
  lemma RollWhileIsolated(s: State, sock: SocketId, die: int, pid: PlayerId, rid: RoomId)
    requires 1 <= die <= DIE_FACES
    requires Resolve(s, sock) == Some(pid) && PlayingRoom(s, pid) == Some(rid)
    requires HasTurn(s.rooms[rid], pid)
    requires s.players[pid].effects.jail.Some? && s.players[pid].effects.jail.value > 0
    ensures var p := s.players[pid];
            var k := p.effects.jail.value;
            var room := s.rooms[rid];
            var r := RollDice(s, sock, die);
            && r.1 == []
            && r.0.players == s.players[pid := p.(effects := p.effects.(jail := if k == 1 then None else Some(k - 1)))]
            && r.0.rooms == s.rooms[rid := room.(turn := (room.turn + 1) % |room.members|)]
            && 0 <= r.0.rooms[rid].turn < |room.members|
  {
  }

  /** A turn skipped by the penalty: the same countdown on `nextTurnSkip`. */
  lemma RollWhileSkipping(s: State, sock: SocketId, die: int, pid: PlayerId, rid: RoomId)
    requires 1 <= die <= DIE_FACES
    requires Resolve(s, sock) == Some(pid) && PlayingRoom(s, pid) == Some(rid)
    requires HasTurn(s.rooms[rid], pid)
    requires !(s.players[pid].effects.jail.Some? && s.players[pid].effects.jail.value > 0)
    requires s.players[pid].effects.skip.Some? && s.players[pid].effects.skip.value > 0
    ensures var p := s.players[pid];
            var k := p.effects.skip.value;
            var room := s.rooms[rid];
            var r := RollDice(s, sock, die);
            && r.1 == []
            && r.0.players == s.players[pid := p.(effects := p.effects.(skip := if k == 1 then None else Some(k - 1)))]
            && r.0.rooms == s.rooms[rid := room.(turn := (room.turn + 1) % |room.members|)]
            && 0 <= r.0.rooms[rid].turn < |room.members|
  {
  }

  /**
   * A turn that rolls: the modifier is applied (the roll stays at least 1), both savings
   * accrue, and the roller moves from its cell. A win resets the room and announces the
   * roller; otherwise the roller's cell is resolved, which never ends the game, and the turn
   * index becomes (i + 1) mod the number of seats.
   */
  lemma RollMoves(s: State, sock: SocketId, die: int, pid: PlayerId, rid: RoomId)
    requires Resolve(s, sock) == Some(pid) && PlayingRoom(s, pid) == Some(rid)
    requires HasTurn(s.rooms[rid], pid)
    requires !(s.players[pid].effects.jail.Some? && s.players[pid].effects.jail.value > 0)
    requires !(s.players[pid].effects.skip.Some? && s.players[pid].effects.skip.value > 0)
    requires 1 <= die <= DIE_FACES
    ensures var p := s.players[pid];
            var room := s.rooms[rid];
            var (p1, roll) := Throw(p, die);
            var (s2, win) := Move(s.(players := s.players[pid := Accrued(p1)]), pid, p.position, roll);
            var r := RollDice(s, sock, die);
            && roll >= 1
            && s2.players[pid] == Accrued(p1).(position := NewPosition(p.position, roll),
                                               laps := NewLaps(p.laps, p.position, roll), lastRoll := p.position)
            && (win ==> r == (Reset(s2, rid), [pid]))
            && (!win ==> r == (AdvanceTurn(Land(s2, rid, pid).0, rid), []))
            && (!win ==> r.0.rooms[rid] == room.(turn := (room.turn + 1) % |room.members|))
  {
    var p := s.players[pid];
    var (p1, roll) := Throw(p, die);
    var s1 := s.(players := s.players[pid := Accrued(p1)]);
    var (s2, win) := Move(s1, pid, p.position, roll);
    if !win {
      LandWithoutLap(s2, rid, pid);
      var l := Land(s2, rid, pid).0;
      assert s2.rooms == s.rooms;
      assert l.rooms == s.rooms && |l.rooms[rid].members| > 0;
      var t := AdvanceTurn(l, rid);
      assert t.rooms[rid] == s.rooms[rid].(turn := (s.rooms[rid].turn + 1) % |s.rooms[rid].members|);
      assert RollDice(s, sock, die) == (t, []);
    }
  }
}
