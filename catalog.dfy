/**
 * The item dice of `use_item_dice` and the penalty table `penaltyEvents` (server.js) as
 * functions on the whole state. Every random draw of a use is a field of `Draws`.
 */
module Catalog {
  import opened Optional
  import opened Items
  import opened Track
  import opened Board
  import opened Entities
  import opened Rules

  /** Entries of `penaltyEvents`. */
  const PENALTY_COUNT: int := 8

  /**
   * The draws of one use: `roll` is the item's own die (its magnitude for the backward
   * ones), `opponentRoll` the magnitude of the boosted plus/minus push-back, `success` the
   * chance test, `pick`/`pick2` the item drawn from a list, `penalty` the penalty index.
   */
  datatype Draws = Draws(roll: int, opponentRoll: int, success: bool, pick: int, pick2: int, penalty: int)

  /**
   * The range of the item's own die, `Math.floor(Math.random() * n) + lo`, for the dice
   * that throw one (the magnitude for the backward ones); the other dice throw none.
   */
  predicate RollFits(item: ItemName, roll: int) {
    match item
    case Plus => 1 <= roll <= 6
    case Curse => 1 <= roll <= 6
    case BoostedMinus => 1 <= roll <= 6
    case Chance => 7 <= roll <= 11
    case BoostedFate => 5 <= roll <= 10
    case BoostedCurse => 5 <= roll <= 10
    case BoostedPlus => 5 <= roll <= 8
    case BoostedChance => 7 <= roll <= 15
    case BoostedProtection => 1 <= roll <= 4
    case _ => true
  }

  /**
   * The draws a use of `item` can make: the item's own die in its range, the boosted
   * push-back 2..4, and the list draws inside their lists, as
   * `Math.floor(Math.random() * length)` does.
   */
  predicate DrawsInRange(item: ItemName, d: Draws) {
    && RollFits(item, d.roll) && 2 <= d.opponentRoll <= 4
    && 0 <= d.pick < |GRANTABLE| && 0 <= d.pick2 < |GRANTABLE| && 0 <= d.penalty < PENALTY_COUNT
  }

  /** `inventory.push(item)`. */
  function Push(s: State, pid: PlayerId, item: ItemName): (t: State)
    requires pid in s.players
    ensures Keeps(s, t) && t.players[pid].inventory == s.players[pid].inventory + [item]
  {
    var p := s.players[pid];
    Put(s, pid, p.(inventory := p.inventory + [item]))
  }

  /** `inventory.splice(inventory.indexOf(item), 1)`. */
  function Take(s: State, pid: PlayerId, item: ItemName): (t: State)
    requires pid in s.players
    ensures Keeps(s, t) && t.players[pid].inventory == RemoveFirst(s.players[pid].inventory, item)
  {
    var p := s.players[pid];
    Put(s, pid, p.(inventory := RemoveFirst(p.inventory, item)))
  }

  /**
   * The saving accrual that follows most uses: a running plain stack gains 1, a running
   * boosted stack gains 2, and nothing else changes.
   */
  function Accrue(s: State, pid: PlayerId): (t: State)
    requires pid in s.players
    ensures Keeps(s, t) && t == s.(players := s.players[pid := Accrued(s.players[pid])])
    ensures var p := s.players[pid];
            var q := t.players[pid];
            && q == p.(saving := q.saving, boosted := q.boosted)
            && q.saving == p.saving.(stack := p.saving.stack + if p.saving.active then 1 else 0)
            && q.boosted == p.boosted.(stack := p.boosted.stack + if p.boosted.active then 2 else 0)
  {
    Put(s, pid, Accrued(s.players[pid]))
  }

  /** Sets or clears `isProtect`. */
  function Shield(s: State, pid: PlayerId, on: bool): (t: State)
    requires pid in s.players
    ensures Keeps(s, t) && t.players[pid].shielded == on
    ensures t == s.(players := s.players[pid := s.players[pid].(shielded := on)])
  {
    Put(s, pid, s.players[pid].(shielded := on))
  }

  /**
   * A move of `pid` from `from` by `roll`, then the reset if it won, or the landing
   * otherwise. The mover is announced exactly when the move completes a lap; when nobody
   * is announced, nobody else and no room was touched.
   */
  function Advance(s: State, rid: RoomId, pid: PlayerId, from: int, roll: int): (r: (State, seq<PlayerId>))
    requires pid in s.players
    ensures Keeps(s, r.0) && (r.1 == [] || r.1 == [pid])
    ensures var m := Move(s, pid, from, roll);
            r == if m.1 then (Reset(m.0, rid), [pid]) else Land(m.0, rid, pid)
    ensures r.1 == [pid] <==> IsWin(NewLaps(s.players[pid].laps, from, roll))
    ensures r.1 == [] ==> Untouched(s, r.0, pid) && r.0.rooms == s.rooms
  {
    var (t, win) := Move(s, pid, from, roll);
    if win then
      KeepsChain(s, t, Reset(t, rid));
      (Reset(t, rid), [pid])
    else
      LandKeeps(t, rid, pid);
      LandWithoutLap(t, rid, pid);
      KeepsChain(s, t, Land(t, rid, pid).0);
      Land(t, rid, pid)
  }

  /** A hostile move: a shielded target spends its shield instead of moving. */
  function Strike(s: State, rid: RoomId, target: PlayerId, from: int, roll: int): (r: (State, seq<PlayerId>))
    requires target in s.players
    ensures Keeps(s, r.0) && (r.1 == [] || r.1 == [target])
    ensures s.players[target].shielded ==> r == (Shield(s, target, false), [])
    ensures !s.players[target].shielded ==> r == Advance(s, rid, target, from, roll)
    ensures r.1 == [] ==> Untouched(s, r.0, target) && r.0.rooms == s.rooms
  {
    if s.players[target].shielded then (Shield(s, target, false), [])
    else Advance(s, rid, target, from, roll)
  }

  /** A target id the handler accepts: present, non-empty, registered, and not the user unless allowed. */
  predicate ValidTarget(s: State, actor: PlayerId, target: Option<PlayerId>, allowSelf: bool) {
    target.Some? && target.value != "" && target.value in s.players && (allowSelf || target.value != actor)
  }

  /** The items whose handler demands a target other than the user. */
  predicate Targeted(item: ItemName) {
    item in {Minus, Curse, Recall, BoostedPlus, BoostedMinus, BoostedCurse, BoostedProtection, BoostedRecall}
  }

  /**
   * The index of the first id with the lowest position: the head of the room list after
   * the stable sort by position of penalty 4.
   */
  function LowestIndex(s: State, ids: seq<PlayerId>): (k: nat)
    requires ids != [] && forall q :: q in ids ==> q in s.players
    ensures k < |ids|
    ensures forall i :: 0 <= i < |ids| ==> s.players[ids[k]].position <= s.players[ids[i]].position
    ensures forall i :: 0 <= i < k ==> s.players[ids[i]].position > s.players[ids[k]].position
  {
    if |ids| == 1 then 0
    else
      var k := LowestIndex(s, ids[1..]) + 1;
      assert ids[k] == ids[1..][k - 1];
      if s.players[ids[0]].position <= s.players[ids[k]].position then 0
      else
        assert forall i :: 1 <= i < |ids| ==> ids[i] == ids[1..][i - 1];
        k
  }

  /** The last-placed registered player of the room (`sortedPlayers[0]`), if any. */
  function LowestRanked(s: State, rid: RoomId): (r: Option<PlayerId>)
    ensures r.None? <==> PlayersInRoom(s, rid) == []
    ensures r.Some? ==> r.value in PlayersInRoom(s, rid) && r.value in s.players
    ensures r.Some? ==> forall q :: q in PlayersInRoom(s, rid) ==> s.players[r.value].position <= s.players[q].position
  {
    var ids := PlayersInRoom(s, rid);
    if ids == [] then None
    else
      var k := LowestIndex(s, ids);
      assert forall q :: q in ids ==> exists i :: 0 <= i < |ids| && ids[i] == q;
      Some(ids[k])
  }

  /** Exchanges the positions of `x` and `y` (nothing happens when they are the same player). */
  function SwapPositions(s: State, x: PlayerId, y: PlayerId): (t: State)
    requires x in s.players && y in s.players
    ensures Keeps(s, t)
    ensures t.players[x].position == s.players[y].position && t.players[y].position == s.players[x].position
    ensures x == y ==> t == s
    ensures x != y ==> t == s.(players := s.players[x := s.players[x].(position := s.players[y].position)]
                                                   [y := s.players[y].(position := s.players[x].position)])
  {
    var px := s.players[x];
    var s1 := Put(s, x, px.(position := s.players[y].position));
    Put(s1, y, s1.players[y].(position := px.position))
  }

  /**
   * Penalties 0 and 7: the target goes `steps` cells back whatever its shield. The handler
   * resolves the move only when the position changed, which a step of 1..47 always does, so
   * this is a plain `Advance`.
   */
  function PushBack(s: State, rid: RoomId, target: PlayerId, steps: int): (r: (State, seq<PlayerId>))
    requires target in s.players && 0 < steps < TRACK_LENGTH
    ensures r == Advance(s, rid, target, s.players[target].position, -steps)
  {
    var t := s.players[target];
    var (s1, win) := Move(s, target, t.position, -steps);
    BackwardStepMoves(t.position, steps);
    if s1.players[target].position != t.position then
      if win then (Reset(s1, rid), [target]) else Land(s1, rid, target)
    else (s1, [])
  }

  /** Penalty 1: straight to the isolation cell with a fresh two-turn isolation, then the landing. */
  function SendToIsolation(s: State, rid: RoomId, target: PlayerId): (r: (State, seq<PlayerId>))
    requires target in s.players
    ensures Keeps(s, r.0) && r.1 == []
  {
    var t := s.players[target];
    var s1 := Put(s, target, t.(position := ISOLATION_CELL, effects := t.effects.(jail := Some(JAIL_TURNS))));
    if ISOLATION_CELL != t.position then
      LandKeeps(s1, rid, target);
      KeepsChain(s, s1, Land(s1, rid, target).0);
      assert Land(s1, rid, target).1 == [] by {
        if rid in s1.rooms {
          LandOnIsolation(s1, rid, target);
        }
      }
      Land(s1, rid, target)
    else (s1, [])
  }

  /**
   * `penaltyEvents[k]` applied by `actor` to `target`, from the actor's room `rid`.
   * Penalties 0 and 7 move the target 5 or 11 cells back whatever its shield, then reset or
   * land; 1 sends it to the isolation cell; 2 confiscates; 3 skips its next turn; 4 swaps it
   * with the last-placed player; 5 takes 3 off its next roll; 6 swaps it with the user. Only
   * the moves of 0, 1 and 7 resolve a cell, and only 0 and 7 can end a game.
   */
  function ApplyPenalty(s: State, rid: RoomId, actor: PlayerId, target: PlayerId, k: int): (r: (State, seq<PlayerId>))
    requires actor in s.players && target in s.players && 0 <= k < PENALTY_COUNT
    ensures Keeps(s, r.0) && (r.1 == [] || r.1 == [target])
    ensures r.1 != [] ==> k == 0 || k == 7
    ensures k == 0 || k == 7 ==>
              r == Advance(s, rid, target, s.players[target].position, if k == 0 then -5 else -11)
    ensures var t := s.players[target];
            k == 2 ==> r == (s.(players := s.players[target := t.(inventory := Only(t.inventory, Fate))]), [])
    ensures var t := s.players[target];
            k == 3 ==> r == (s.(players := s.players[target := t.(effects := t.effects.(skip := Some(1)))]), [])
    ensures var t := s.players[target];
            k == 5 ==> r == (s.(players := s.players[target := t.(effects := t.effects.(modifier := Some(-3)))]), [])
    ensures k == 6 ==> r == (SwapPositions(s, actor, target), [])
  {
    var t := s.players[target];
    if k == 0 then PushBack(s, rid, target, 5)
    else if k == 7 then PushBack(s, rid, target, 11)
    else if k == 1 then SendToIsolation(s, rid, target)
    else if k == 2 then
      // every item but the plain die is confiscated
      (Put(s, target, t.(inventory := Only(t.inventory, Fate))), [])
    else if k == 3 then
      (Put(s, target, t.(effects := t.effects.(skip := Some(1)))), [])
    else if k == 4 then
      // swap with the last-placed player of the room
      match LowestRanked(s, rid)
      case Some(low) => if low != target then (SwapPositions(s, target, low), []) else (s, [])
      case None => (s, [])
    else if k == 5 then
      (Put(s, target, t.(effects := t.effects.(modifier := Some(-3)))), [])
    else
      (SwapPositions(s, actor, target), [])
  }

  /** `inventory.filter(item => item === x)`. */
  function Only(s: seq<ItemName>, x: ItemName): (r: seq<ItemName>)
    ensures forall y :: y in r ==> y == x
    ensures multiset(r)[x] == multiset(s)[x]
  {
    if s == [] then []
    else
      assert s == [s[0]] + s[1..];
      (if s[0] == x then [x] else []) + Only(s[1..], x)
  }

  /** The bank of one saving mode. */
  function BankOf(p: Player, boosted: bool): Bank {
    if boosted then p.boosted else p.saving
  }

  function WithBank(p: Player, boosted: bool, b: Bank): (q: Player)
    ensures SameSeat(p, q) && (Sane(p) ==> Sane(q))
    ensures BankOf(q, boosted) == b && BankOf(q, !boosted) == BankOf(p, !boosted)
  {
    if boosted then p.(boosted := b) else p.(saving := b)
  }

  /**
   * The start-saving die of either mode: refused (and handed back) only when both modes
   * are already running; otherwise the mode starts with an empty stack and the claim item
   * is added.
   */
  function StartSaving(s: State, actor: PlayerId, boosted: bool): (r: (State, seq<PlayerId>))
    requires actor in s.players
    ensures Keeps(s, r.0) && r.1 == []
  {
    var p := s.players[actor];
    var item := if boosted then BoostedSaving else Saving;
    if p.boosted.active && p.saving.active then (Push(s, actor, item), [])
    else
      var s1 := Put(s, actor, WithBank(p, boosted, Bank(true, 0)));
      (Push(s1, actor, ClaimItem(boosted)), [])
  }

  /**
   * The claim item of either mode: handed back when the mode is off; otherwise the user
   * moves by the stacked amount, the mode is switched off, and the move either wins or lands.
   */
  function Claim(s: State, rid: RoomId, actor: PlayerId, boosted: bool): (r: (State, seq<PlayerId>))
    requires actor in s.players
    ensures Keeps(s, r.0) && (r.1 == [] || r.1 == [actor])
  {
    var p := s.players[actor];
    var bank := BankOf(p, boosted);
    if !bank.active then (Push(s, actor, ClaimItem(boosted)), [])
    else
      var (s1, win) := Move(s, actor, p.position, bank.stack);
      var s2 := Put(s1, actor, WithBank(s1.players[actor], boosted, IDLE_BANK));
      KeepsChain(s, s1, s2);
      if win then
        KeepsChain(s, s2, Reset(s2, rid));
        (Reset(s2, rid), [actor])
      else
        LandKeeps(s2, rid, actor);
        KeepsChain(s, s2, Land(s2, rid, actor).0);
        Land(s2, rid, actor)
  }

  /**
   * The tail shared by 강화 플러스 and 강화 마이너스: a win by the user's move resets the room
   * and is announced for the target; otherwise it is the target's cell, not the user's, that
   * is resolved, so unless that ends the game the user keeps the record its move produced.
   * The user's savings accrue last.
   */
  function BoostedFinish(s: State, rid: RoomId, actor: PlayerId, target: PlayerId, win: bool): (r: (State, seq<PlayerId>))
    requires actor in s.players
    ensures Keeps(s, r.0) && (r.1 == [] || r.1 == [target])
    ensures win ==> r == (Accrue(Reset(s, rid), actor), [target])
    ensures !win ==> r == (Accrue(Land(s, rid, target).0, actor), Land(s, rid, target).1)
    ensures !win && actor != target && r.1 == [] ==> r.0.players[actor] == Accrued(s.players[actor])
  {
    LandKeeps(s, rid, target);
    var (s1, e) := if win then (Reset(s, rid), [target]) else Land(s, rid, target);
    KeepsChain(s, s1, Accrue(s1, actor));
    (Accrue(s1, actor), e)
  }

  /** Two announcements of at most one id each announce only that id. */
  lemma OnlyAnnounced(e1: seq<PlayerId>, e2: seq<PlayerId>, x: PlayerId)
    requires (e1 == [] || e1 == [x]) && (e2 == [] || e2 == [x])
    ensures forall y :: y in e1 + e2 ==> y == x
  {
  }

  /**
   * 강화 플러스: the target is pushed back first (or spends its shield), then the user moves
   * from the cell it stood on before; the rest is `BoostedFinish`.
   */
  function BoostedPlusUse(s: State, rid: RoomId, actor: PlayerId, target: PlayerId, d: Draws): (r: (State, seq<PlayerId>))
    requires actor in s.players && target in s.players
    ensures Keeps(s, r.0)
    ensures forall x :: x in r.1 ==> x == target
    ensures var a := Strike(s, rid, target, s.players[target].position, -d.opponentRoll);
            var m := Move(a.0, actor, s.players[actor].position, d.roll);
            var f := BoostedFinish(m.0, rid, actor, target, m.1);
            r == (f.0, a.1 + f.1) && (m.1 ==> r.1 == a.1 + [target])
  {
    var a := Strike(s, rid, target, s.players[target].position, -d.opponentRoll);
    var m := Move(a.0, actor, s.players[actor].position, d.roll);
    var f := BoostedFinish(m.0, rid, actor, target, m.1);
    KeepsChain(s, a.0, m.0);
    KeepsChain(s, m.0, f.0);
    OnlyAnnounced(a.1, f.1, target);
    (f.0, a.1 + f.1)
  }

  /**
   * 강화 마이너스: the user moves first, then the target is pushed back from where it stood
   * (or spends its shield); the rest is `BoostedFinish`.
   */
  function BoostedMinusUse(s: State, rid: RoomId, actor: PlayerId, target: PlayerId, d: Draws): (r: (State, seq<PlayerId>))
    requires actor in s.players && target in s.players
    ensures Keeps(s, r.0)
    ensures forall x :: x in r.1 ==> x == target
    ensures var m := Move(s, actor, s.players[actor].position, d.roll);
            var a := Strike(m.0, rid, target, s.players[target].position, -d.opponentRoll);
            var f := BoostedFinish(a.0, rid, actor, target, m.1);
            r == (f.0, a.1 + f.1) && (m.1 ==> r.1 == a.1 + [target])
  {
    var m := Move(s, actor, s.players[actor].position, d.roll);
    var a := Strike(m.0, rid, target, s.players[target].position, -d.opponentRoll);
    var f := BoostedFinish(a.0, rid, actor, target, m.1);
    KeepsChain(s, m.0, a.0);
    KeepsChain(s, a.0, f.0);
    OnlyAnnounced(a.1, f.1, target);
    (f.0, a.1 + f.1)
  }

  /**
   * 강화 보호: the user takes a shield if it has none, and the target is pushed back by the
   * die (or spends its shield); then the accrual. Unless the push-back ends the game, the
   * user ends up shielded.
   */
  function BoostedProtectionUse(s: State, rid: RoomId, actor: PlayerId, target: PlayerId, d: Draws): (r: (State, seq<PlayerId>))
    requires actor in s.players && target in s.players
    ensures Keeps(s, r.0) && (r.1 == [] || r.1 == [target])
    ensures var a := Strike(Shield(s, actor, true), rid, target, s.players[target].position, -d.roll);
            r == (Accrue(a.0, actor), a.1)
    ensures actor != target && r.1 == [] ==> r.0.players[actor].shielded
  {
    var fromTarget := s.players[target].position;
    var s1 := if !s.players[actor].shielded then Shield(s, actor, true) else s;
    assert s1 == Shield(s, actor, true) by {
      if s.players[actor].shielded {
        assert s.players[actor := s.players[actor].(shielded := true)] == s.players;
      }
    }
    var (s2, e) := Strike(s1, rid, target, fromTarget, -d.roll);
    KeepsChain(s, s1, s2);
    KeepsChain(s, s2, Accrue(s2, actor));
    (Accrue(s2, actor), e)
  }

  /**
   * The move of a recall die: the target is sent back to its last position, through a
   * shield when boosted and stopped by one otherwise.
   */
  function RecallMove(s: State, rid: RoomId, target: PlayerId, boosted: bool): (r: (State, seq<PlayerId>))
    requires target in s.players
    ensures Keeps(s, r.0) && (r.1 == [] || r.1 == [target])
    ensures var t := s.players[target];
            boosted ==> r == Advance(s, rid, target, t.position, t.lastRoll - t.position)
    ensures var t := s.players[target];
            !boosted ==> r == Strike(s, rid, target, t.position, t.lastRoll - t.position)
  {
    var t := s.players[target];
    if boosted then Advance(s, rid, target, t.position, t.lastRoll - t.position)
    else Strike(s, rid, target, t.position, t.lastRoll - t.position)
  }

  /**
   * 고정 and 강화 고정: the target goes back to its last position when that differs from
   * where it stands (the plain die is stopped by a shield, the boosted one is not);
   * otherwise the die is handed back. The savings accrue in every case.
   */
  function RecallUse(s: State, rid: RoomId, actor: PlayerId, target: PlayerId, boosted: bool): (r: (State, seq<PlayerId>))
    requires actor in s.players && target in s.players
    ensures Keeps(s, r.0) && (r.1 == [] || r.1 == [target])
    ensures var t := s.players[target];
            t.position == t.lastRoll ==>
              r == (Accrue(Push(s, actor, if boosted then BoostedRecall else Recall), actor), [])
    ensures var t := s.players[target];
            var a := RecallMove(s, rid, target, boosted);
            t.position != t.lastRoll ==> r == (Accrue(a.0, actor), a.1)
  {
    var t := s.players[target];
    if t.position == t.lastRoll then
      var s1 := Push(s, actor, if boosted then BoostedRecall else Recall);
      KeepsChain(s, s1, Accrue(s1, actor));
      (Accrue(s1, actor), [])
    else
      var a := RecallMove(s, rid, target, boosted);
      KeepsChain(s, a.0, Accrue(a.0, actor));
      (Accrue(a.0, actor), a.1)
  }

  /**
   * The move of a recall die brings the target exactly back to its last position, which
   * is a cell of the track, and records the cell it left.
   */
  lemma RecallLandsOnLastPosition(s: State, target: PlayerId)
    requires target in s.players && -TRACK_LENGTH < s.players[target].lastRoll < TRACK_LENGTH
    ensures var t := s.players[target];
            var q := Move(s, target, t.position, t.lastRoll - t.position).0.players[target];
            q.position == t.lastRoll && q.lastRoll == t.position
  {
  }

  /**
   * The dice that move their user: 플러스 and 강화 운명 always, 확률 and 강화 확률 when the
   * chance test succeeds; a failed chance test only accrues. The savings accrue last.
   */
  function SelfMoveUse(s: State, rid: RoomId, actor: PlayerId, item: ItemName, d: Draws): (r: (State, seq<PlayerId>))
    requires actor in s.players
    ensures Keeps(s, r.0) && (r.1 == [] || r.1 == [actor])
    ensures (item == Chance || item == BoostedChance) && !d.success ==> r == (Accrue(s, actor), [])
    ensures var a := Advance(s, rid, actor, s.players[actor].position, d.roll);
            !((item == Chance || item == BoostedChance) && !d.success) ==> r == (Accrue(a.0, actor), a.1)
  {
    if (item == Chance || item == BoostedChance) && !d.success then (Accrue(s, actor), [])
    else
      var (s1, e) := Advance(s, rid, actor, s.players[actor].position, d.roll);
      KeepsChain(s, s1, Accrue(s1, actor));
      (Accrue(s1, actor), e)
  }

  /** 마이너스, 저주 and 강화 저주: a hostile move of the target by `roll`, then the accrual. */
  function StrikeUse(s: State, rid: RoomId, actor: PlayerId, target: PlayerId, roll: int): (r: (State, seq<PlayerId>))
    requires actor in s.players && target in s.players
    ensures Keeps(s, r.0) && (r.1 == [] || r.1 == [target])
    ensures var a := Strike(s, rid, target, s.players[target].position, roll);
            r == (Accrue(a.0, actor), a.1)
  {
    var (s1, e) := Strike(s, rid, target, s.players[target].position, roll);
    KeepsChain(s, s1, Accrue(s1, actor));
    (Accrue(s1, actor), e)
  }

  /** 벌칙: one penalty on the target, then the accrual. */
  function PenaltyUse(s: State, rid: RoomId, actor: PlayerId, target: PlayerId, k: int): (r: (State, seq<PlayerId>))
    requires actor in s.players && target in s.players && 0 <= k < PENALTY_COUNT
    ensures Keeps(s, r.0) && (r.1 == [] || r.1 == [target])
    ensures var a := ApplyPenalty(s, rid, actor, target, k);
            r == (Accrue(a.0, actor), a.1)
  {
    var (s1, e) := ApplyPenalty(s, rid, actor, target, k);
    KeepsChain(s, s1, Accrue(s1, actor));
    (Accrue(s1, actor), e)
  }

  /** 무작위, 강화 and 강화 무작위: the drawn dice join the inventory in order, then the accrual. */
  function GrantUse(s: State, actor: PlayerId, items: seq<ItemName>): (r: (State, seq<PlayerId>))
    requires actor in s.players
    ensures Keeps(s, r.0) && r.1 == []
    ensures r.0.players[actor].inventory == s.players[actor].inventory + items
    ensures var p := s.players[actor];
            r == (Accrue(s.(players := s.players[actor := p.(inventory := p.inventory + items)]), actor), [])
  {
    var p := s.players[actor];
    var s1 := Put(s, actor, p.(inventory := p.inventory + items));
    KeepsChain(s, s1, Accrue(s1, actor));
    (Accrue(s1, actor), [])
  }

  /**
   * The dice drawn by 무작위 (one grantable die), 강화 (one boosted die) and 강화 무작위 (two
   * grantable dice, in order of the draws).
   */
  function Granted(item: ItemName, d: Draws): (g: seq<ItemName>)
    requires DrawsInRange(item, d)
    ensures item == Lucky ==> g == [GRANTABLE[d.pick]]
    ensures item == Upgrade ==> g == [BOOSTED[d.pick]]
    ensures item == BoostedLucky ==> g == [GRANTABLE[d.pick], GRANTABLE[d.pick2]]
  {
    if item == Upgrade then [BOOSTED[d.pick]]
    else if item == BoostedLucky then [GRANTABLE[d.pick], GRANTABLE[d.pick2]]
    else [GRANTABLE[d.pick]]
  }

  /** 보호: the shield is set if it is not already, then the accrual; the die is spent either way. */
  function ProtectUse(s: State, actor: PlayerId): (r: (State, seq<PlayerId>))
    requires actor in s.players
    ensures Keeps(s, r.0) && r.1 == []
    ensures r.0 == s.(players := s.players[actor := Accrued(s.players[actor].(shielded := true))])
  {
    var s1 := if !s.players[actor].shielded then Shield(s, actor, true) else s;
    KeepsChain(s, s1, Accrue(s1, actor));
    (Accrue(s1, actor), [])
  }

  /** The cases of `switch (diceType)` that act on a target, once the target id was accepted. */
  function TargetedUse(s: State, rid: RoomId, actor: PlayerId, item: ItemName, target: PlayerId, d: Draws): (r: (State, seq<PlayerId>))
    requires actor in s.players && target in s.players && DrawsInRange(item, d)
    requires Targeted(item) || item == Penalty
    ensures Keeps(s, r.0)
    ensures forall x :: x in r.1 ==> x == target
    ensures item in {Minus, Curse, BoostedCurse} ==>
              r == StrikeUse(s, rid, actor, target, if item == Minus then -1 else -d.roll)
    ensures item in {Recall, BoostedRecall} ==> r == RecallUse(s, rid, actor, target, item == BoostedRecall)
    ensures item == BoostedPlus ==> r == BoostedPlusUse(s, rid, actor, target, d)
    ensures item == BoostedMinus ==> r == BoostedMinusUse(s, rid, actor, target, d)
    ensures item == BoostedProtection ==> r == BoostedProtectionUse(s, rid, actor, target, d)
    ensures item == Penalty ==> r == PenaltyUse(s, rid, actor, target, d.penalty)
  {
    match item
    case Minus | Curse | BoostedCurse =>
      var r := StrikeUse(s, rid, actor, target, if item == Minus then -1 else -d.roll);
      OnlyTarget(r.1, target);
      r
    case Recall | BoostedRecall =>
      var r := RecallUse(s, rid, actor, target, item == BoostedRecall);
      OnlyTarget(r.1, target);
      r
    case BoostedPlus => BoostedPlusUse(s, rid, actor, target, d)
    case BoostedMinus => BoostedMinusUse(s, rid, actor, target, d)
    case BoostedProtection =>
      var r := BoostedProtectionUse(s, rid, actor, target, d);
      OnlyTarget(r.1, target);
      r
    case Penalty =>
      var r := PenaltyUse(s, rid, actor, target, d.penalty);
      OnlyTarget(r.1, target);
      r
    case _ => assert false; (s, [])
  }

  /** An announcement of nobody or of the target names no one but the target. */
  lemma OnlyTarget(winners: seq<PlayerId>, target: PlayerId)
    requires winners == [] || winners == [target]
    ensures forall x :: x in winners ==> x == target
  {
  }

  /**
   * The cases of `switch (diceType)` that act on the user alone; a die with no case
   * (운명, 강화 벌칙) is handed back.
   */
  function SelfUse(s: State, rid: RoomId, actor: PlayerId, item: ItemName, d: Draws): (r: (State, seq<PlayerId>))
    requires actor in s.players && DrawsInRange(item, d)
    ensures Keeps(s, r.0)
    ensures r.1 == [] || r.1 == [actor]
    ensures item in {Plus, BoostedFate, Chance, BoostedChance} ==> r == SelfMoveUse(s, rid, actor, item, d)
    ensures item in {Lucky, Upgrade, BoostedLucky} ==> r == GrantUse(s, actor, Granted(item, d))
    ensures item == Protection ==> r == ProtectUse(s, actor)
    ensures item in {Saving, BoostedSaving} ==> r == StartSaving(s, actor, item == BoostedSaving)
    ensures item in {SavingClaim, BoostedSavingClaim} ==> r == Claim(s, rid, actor, item == BoostedSavingClaim)
    ensures item in {Fate, BoostedPenalty} ==> r == (Push(s, actor, item), [])
  {
    match item
    case Plus | BoostedFate | Chance | BoostedChance => SelfMoveUse(s, rid, actor, item, d)
    case Lucky | Upgrade | BoostedLucky => GrantUse(s, actor, Granted(item, d))
    case Protection => ProtectUse(s, actor)
    case Saving | BoostedSaving => StartSaving(s, actor, item == BoostedSaving)
    case SavingClaim | BoostedSavingClaim => Claim(s, rid, actor, item == BoostedSavingClaim)
    case _ => (Push(s, actor, item), [])
  }

  /**
   * The `switch (diceType)` of `use_item_dice`, after the item was taken out of the
   * actor's inventory; `rid` is the actor's room. A die with an unacceptable target is
   * handed back; a targeted die with an accepted target reaches `TargetedUse`, every other
   * die `SelfUse`, and so each of the 23 dice reaches its own rule.
   */
  function Dispatch(s: State, rid: RoomId, actor: PlayerId, item: ItemName, target: Option<PlayerId>, d: Draws): (r: (State, seq<PlayerId>))
    requires actor in s.players && DrawsInRange(item, d)
    ensures Keeps(s, r.0)
    ensures forall x :: x in r.1 ==> x == actor || target == Some(x)
    ensures ((Targeted(item) && !ValidTarget(s, actor, target, false))
             || (item == Penalty && !ValidTarget(s, actor, target, true))) ==> r == (Push(s, actor, item), [])
    ensures ((Targeted(item) && ValidTarget(s, actor, target, false))
             || (item == Penalty && ValidTarget(s, actor, target, true))) ==>
              r == TargetedUse(s, rid, actor, item, target.value, d)
    ensures !Targeted(item) && item != Penalty ==> r == SelfUse(s, rid, actor, item, d)
  {
    if Targeted(item) && !ValidTarget(s, actor, target, false) then (Push(s, actor, item), [])
    else if item == Penalty && !ValidTarget(s, actor, target, true) then (Push(s, actor, item), [])
    else if Targeted(item) || item == Penalty then TargetedUse(s, rid, actor, item, target.value, d)
    else SelfUse(s, rid, actor, item, d)
  }

  /**
   * `use_item_dice` by the player behind `sock`: it must be in a game in progress and hold
   * the item; the item is taken out, then its handler runs.
   */
  function UseItem(s: State, sock: SocketId, item: ItemName, target: Option<PlayerId>, d: Draws): (r: (State, seq<PlayerId>))
    requires DrawsInRange(item, d)
  {
    match Resolve(s, sock)
    case None => (s, [])
    case Some(actor) =>
      match PlayingRoom(s, actor)
      case None => (s, [])
      case Some(rid) =>
        if item !in s.players[actor].inventory then (s, [])
        else Dispatch(Take(s, actor, item), rid, actor, item, target, d)
  }

  /**
   * The gate of `use_item_dice`: a use from an unknown socket, by a player outside a game
   * in progress, or of an item the player does not hold changes nothing and announces
   * nothing; otherwise the item is taken out and its handler runs from the player's room.
   */
  lemma UseItemGate(s: State, sock: SocketId, item: ItemName, target: Option<PlayerId>, d: Draws)
    requires DrawsInRange(item, d)
    ensures var r := UseItem(s, sock, item, target, d);
            match Resolve(s, sock)
            case None => r == (s, [])
            case Some(actor) =>
              match PlayingRoom(s, actor)
              case None => r == (s, [])
              case Some(rid) =>
                && (item !in s.players[actor].inventory ==> r == (s, []))
                && (item in s.players[actor].inventory ==> r == Dispatch(Take(s, actor, item), rid, actor, item, target, d))
  {
  }

  /** A held die that needs no target runs its handler on the state with the die taken out. */
  lemma UseOwnItem(s: State, sock: SocketId, item: ItemName, target: Option<PlayerId>, d: Draws)
    requires DrawsInRange(item, d) && !Targeted(item) && item != Penalty
    requires Resolve(s, sock).Some? && PlayingRoom(s, Resolve(s, sock).value).Some?
    requires item in s.players[Resolve(s, sock).value].inventory
    ensures var actor := Resolve(s, sock).value;
            UseItem(s, sock, item, target, d)
              == SelfUse(Take(s, actor, item), PlayingRoom(s, actor).value, actor, item, d)
  {
    UseItemGate(s, sock, item, target, d);
  }

  /** Using an item the player does not hold changes nothing. */
  lemma UseNotHeld(s: State, sock: SocketId, item: ItemName, target: Option<PlayerId>, d: Draws)
    requires DrawsInRange(item, d)
    requires Resolve(s, sock).Some? && item !in s.players[Resolve(s, sock).value].inventory
    ensures UseItem(s, sock, item, target, d) == (s, [])
  {
    UseItemGate(s, sock, item, target, d);
  }

  /** A use of every item is a gameplay step; in particular it keeps the consistency invariant. */
  lemma UseItemKeeps(s: State, sock: SocketId, item: ItemName, target: Option<PlayerId>, d: Draws)
    requires DrawsInRange(item, d)
    ensures Keeps(s, UseItem(s, sock, item, target, d).0)
    ensures Consistent(s) ==> Consistent(UseItem(s, sock, item, target, d).0)
    ensures forall x :: x in UseItem(s, sock, item, target, d).1 ==>
              Resolve(s, sock) == Some(x) || target == Some(x)
  {
    var r := UseItem(s, sock, item, target, d);
    UseItemGate(s, sock, item, target, d);
    if Resolve(s, sock).Some? {
      var actor := Resolve(s, sock).value;
      if PlayingRoom(s, actor).Some? && item in s.players[actor].inventory {
        var s1 := Take(s, actor, item);
        KeepsChain(s, s1, r.0);
      }
    }
    if Consistent(s) {
      KeepsConsistent(s, r.0);
    }
  }

  /**
   * A use refused for its target (missing, empty, unregistered, or the user for the
   * items that forbid it) puts the item back at the end of the inventory: the inventory
   * keeps the same multiset and length, and nothing else changes.
   */
  lemma RejectedTarget(s: State, sock: SocketId, item: ItemName, target: Option<PlayerId>, d: Draws)
    requires DrawsInRange(item, d)
    requires Resolve(s, sock).Some? && PlayingRoom(s, Resolve(s, sock).value).Some?
    requires item in s.players[Resolve(s, sock).value].inventory
    requires var actor := Resolve(s, sock).value;
             (Targeted(item) && !ValidTarget(s, actor, target, false))
             || (item == Penalty && !ValidTarget(s, actor, target, true))
    ensures var actor := Resolve(s, sock).value;
            var p := s.players[actor];
            var r := UseItem(s, sock, item, target, d);
            && r.1 == []
            && r.0 == s.(players := s.players[actor := p.(inventory := RemoveFirst(p.inventory, item) + [item])])
            && multiset(r.0.players[actor].inventory) == multiset(p.inventory)
            && |r.0.players[actor].inventory| == |p.inventory|
  {
    var actor := Resolve(s, sock).value;
    var p := s.players[actor];
    var q := p.(inventory := RemoveFirst(p.inventory, item));
    var s1 := Take(s, actor, item);
    UseItemGate(s, sock, item, target, d);
    assert !ValidTarget(s1, actor, target, false) && (item == Penalty ==> !ValidTarget(s1, actor, target, true));
    assert s1 == Put(s, actor, q);
    PutTwice(s, actor, q, q.(inventory := q.inventory + [item]));
    TakeThenReturn(p.inventory, item);
  }

  /**
   * A recall die of either kind aimed at a target that already stands on its last
   * position moves nobody: the die goes back to the end of the user's inventory and the
   * user's savings accrue.
   */
  lemma RecallHandedBack(s: State, sock: SocketId, boosted: bool, target: PlayerId, d: Draws)
    requires DrawsInRange(if boosted then BoostedRecall else Recall, d)
    requires Resolve(s, sock).Some? && PlayingRoom(s, Resolve(s, sock).value).Some?
    requires (if boosted then BoostedRecall else Recall) in s.players[Resolve(s, sock).value].inventory
    requires ValidTarget(s, Resolve(s, sock).value, Some(target), false)
    requires s.players[target].position == s.players[target].lastRoll
    ensures var actor := Resolve(s, sock).value;
            var p := s.players[actor];
            var item := if boosted then BoostedRecall else Recall;
            UseItem(s, sock, item, Some(target), d)
              == (s.(players := s.players[actor := Accrued(p.(inventory := RemoveFirst(p.inventory, item) + [item]))]), [])
  {
    var actor := Resolve(s, sock).value;
    var p := s.players[actor];
    var item := if boosted then BoostedRecall else Recall;
    var q := p.(inventory := RemoveFirst(p.inventory, item));
    var q2 := q.(inventory := q.inventory + [item]);
    var s1 := Take(s, actor, item);
    UseItemGate(s, sock, item, Some(target), d);
    assert s1 == Put(s, actor, q);
    assert s1.players[target] == s.players[target];
    var rid := PlayingRoom(s, actor).value;
    assert ValidTarget(s1, actor, Some(target), false) && Targeted(item);
    assert UseItem(s, sock, item, Some(target), d) == Dispatch(s1, rid, actor, item, Some(target), d);
    assert Dispatch(s1, rid, actor, item, Some(target), d) == TargetedUse(s1, rid, actor, item, target, d);
    assert TargetedUse(s1, rid, actor, item, target, d) == RecallUse(s1, rid, actor, target, boosted);
    assert RecallUse(s1, rid, actor, target, boosted) == (Accrue(Push(s1, actor, item), actor), []);
    PutTwice(s, actor, q, q2);
    assert Push(s1, actor, item) == Put(s, actor, q2);
    PutTwice(s, actor, q2, Accrued(q2));
    assert Accrue(Put(s, actor, q2), actor) == Put(s, actor, Accrued(q2));
  }


  /**
   * The shield intercepts 마이너스, 저주 and 강화 저주: the target stays where it is and loses
   * its shield, the user's item is spent and its savings accrue.
   */
  lemma ShieldIntercepts(s: State, sock: SocketId, item: ItemName, target: PlayerId, d: Draws)
    requires DrawsInRange(item, d) && item in {Minus, Curse, BoostedCurse}
    requires Resolve(s, sock).Some? && PlayingRoom(s, Resolve(s, sock).value).Some?
    requires item in s.players[Resolve(s, sock).value].inventory
    requires ValidTarget(s, Resolve(s, sock).value, Some(target), false) && s.players[target].shielded
    ensures var actor := Resolve(s, sock).value;
            var p := s.players[actor];
            var r := UseItem(s, sock, item, Some(target), d);
            && r.1 == []
            && r.0 == s.(players := s.players[target := s.players[target].(shielded := false)]
                                             [actor := Accrued(p.(inventory := RemoveFirst(p.inventory, item)))])
  {
    var actor := Resolve(s, sock).value;
    var rid := PlayingRoom(s, actor).value;
    var p := s.players[actor];
    var q := p.(inventory := RemoveFirst(p.inventory, item));
    var t := s.players[target].(shielded := false);
    var s1 := Take(s, actor, item);
    UseItemGate(s, sock, item, Some(target), d);
    assert s1 == Put(s, actor, q);
    var s2 := Shield(s1, target, false);
    assert s2 == Put(s1, target, t);
    assert StrikeUse(s1, rid, actor, target, if item == Minus then -1 else -d.roll) == (Accrue(s2, actor), []);
    assert Accrue(s2, actor) == Put(s2, actor, Accrued(q));
    PutOver(s, actor, target, q, t, Accrued(q));
  }


  /** 보호의 주사위 sets the shield; used while already shielded it is spent all the same. */
  lemma ProtectionSpent(s: State, sock: SocketId, target: Option<PlayerId>, d: Draws)
    requires DrawsInRange(Protection, d)
    requires Resolve(s, sock).Some? && PlayingRoom(s, Resolve(s, sock).value).Some?
    requires Protection in s.players[Resolve(s, sock).value].inventory
    ensures var actor := Resolve(s, sock).value;
            var p := s.players[actor];
            var r := UseItem(s, sock, Protection, target, d);
            && r.1 == []
            && r.0 == s.(players := s.players[actor :=
                 Accrued(p.(inventory := RemoveFirst(p.inventory, Protection), shielded := true))])
  {
    var actor := Resolve(s, sock).value;
    var p := s.players[actor];
    var q := p.(inventory := RemoveFirst(p.inventory, Protection));
    var s1 := Take(s, actor, Protection);
    UseOwnItem(s, sock, Protection, target, d);
    assert s1 == Put(s, actor, q);
    PutTwice(s, actor, q, Accrued(q.(shielded := true)));
  }


  /**
   * The start-saving die of either mode is refused exactly when both modes already run
   * (the die is handed back); otherwise its mode restarts with an empty stack and the
   * claim item joins the inventory, with no accrual.
   */
  lemma SavingStarts(s: State, sock: SocketId, boosted: bool, target: Option<PlayerId>, d: Draws)
    requires DrawsInRange(if boosted then BoostedSaving else Saving, d)
    requires Resolve(s, sock).Some? && PlayingRoom(s, Resolve(s, sock).value).Some?
    requires (if boosted then BoostedSaving else Saving) in s.players[Resolve(s, sock).value].inventory
    ensures var actor := Resolve(s, sock).value;
            var p := s.players[actor];
            var item := if boosted then BoostedSaving else Saving;
            var rest := RemoveFirst(p.inventory, item);
            var r := UseItem(s, sock, item, target, d);
            && r.1 == []
            && (p.saving.active && p.boosted.active ==>
                  r.0 == s.(players := s.players[actor := p.(inventory := rest + [item])]))
            && (!(p.saving.active && p.boosted.active) ==>
                  r.0 == s.(players := s.players[actor :=
                    WithBank(p, boosted, Bank(true, 0)).(inventory := rest + [ClaimItem(boosted)])]))
  {
    var actor := Resolve(s, sock).value;
    var p := s.players[actor];
    var item := if boosted then BoostedSaving else Saving;
    var q := p.(inventory := RemoveFirst(p.inventory, item));
    var s1 := Take(s, actor, item);
    UseOwnItem(s, sock, item, target, d);
    assert s1 == Put(s, actor, q);
    assert UseItem(s, sock, item, target, d) == StartSaving(s1, actor, boosted);
    StartSavingEffect(s1, actor, boosted);
    if p.saving.active && p.boosted.active {
      PutTwice(s, actor, q, q.(inventory := q.inventory + [item]));
    } else {
      var b := WithBank(q, boosted, Bank(true, 0)).(inventory := q.inventory + [ClaimItem(boosted)]);
      assert b == WithBank(p, boosted, Bank(true, 0)).(inventory := q.inventory + [ClaimItem(boosted)]);
      PutTwice(s, actor, q, b);
    }
  }

  /** The start-saving die on its own: the die handed back, or the mode restarted and the claim item added. */
  lemma StartSavingEffect(s: State, actor: PlayerId, boosted: bool)
    requires actor in s.players
    ensures var p := s.players[actor];
            var r := StartSaving(s, actor, boosted);
            && (p.saving.active && p.boosted.active ==>
                  r.0 == s.(players := s.players[actor := p.(inventory := p.inventory + [if boosted then BoostedSaving else Saving])]))
            && (!(p.saving.active && p.boosted.active) ==>
                  r.0 == s.(players := s.players[actor :=
                    WithBank(p, boosted, Bank(true, 0)).(inventory := p.inventory + [ClaimItem(boosted)])]))
  {
    var p := s.players[actor];
    if !(p.saving.active && p.boosted.active) {
      var b := WithBank(p, boosted, Bank(true, 0));
      PutTwice(s, actor, b, b.(inventory := b.inventory + [ClaimItem(boosted)]));
    }
  }


  /** The claim item of a mode that is off is handed back at the end of the inventory, and nothing happens. */
  lemma ClaimRefused(s: State, sock: SocketId, boosted: bool, target: Option<PlayerId>, d: Draws)
    requires DrawsInRange(ClaimItem(boosted), d)
    requires Resolve(s, sock).Some? && PlayingRoom(s, Resolve(s, sock).value).Some?
    requires ClaimItem(boosted) in s.players[Resolve(s, sock).value].inventory
    requires !BankOf(s.players[Resolve(s, sock).value], boosted).active
    ensures var actor := Resolve(s, sock).value;
            var p := s.players[actor];
            var item := ClaimItem(boosted);
            UseItem(s, sock, item, target, d)
              == (s.(players := s.players[actor := p.(inventory := RemoveFirst(p.inventory, item) + [item])]), [])
  {
    var actor := Resolve(s, sock).value;
    var p := s.players[actor];
    var item := ClaimItem(boosted);
    var q := p.(inventory := RemoveFirst(p.inventory, item));
    var s0 := Take(s, actor, item);
    UseOwnItem(s, sock, item, target, d);
    assert s0 == Put(s, actor, q);
    PutTwice(s, actor, q, q.(inventory := q.inventory + [item]));
  }

  /**
   * A claim of a running mode leaves that mode off with an empty stack, whatever the move
   * and its landing did; only the user can be announced.
   */
  lemma ClaimSettles(s: State, sock: SocketId, boosted: bool, target: Option<PlayerId>, d: Draws)
    requires DrawsInRange(ClaimItem(boosted), d)
    requires Resolve(s, sock).Some? && PlayingRoom(s, Resolve(s, sock).value).Some?
    requires ClaimItem(boosted) in s.players[Resolve(s, sock).value].inventory
    requires BankOf(s.players[Resolve(s, sock).value], boosted).active
    ensures var actor := Resolve(s, sock).value;
            var r := UseItem(s, sock, ClaimItem(boosted), target, d);
            BankOf(r.0.players[actor], boosted) == IDLE_BANK && (r.1 == [] || r.1 == [actor])
  {
    var actor := Resolve(s, sock).value;
    var rid := PlayingRoom(s, actor).value;
    var item := ClaimItem(boosted);
    var s0 := Take(s, actor, item);
    UseOwnItem(s, sock, item, target, d);
    ClaimActive(s0, rid, actor, boosted);
    var q := s0.players[actor];
    var m := Move(s0, actor, q.position, BankOf(q, boosted).stack);
    var s2 := Put(m.0, actor, WithBank(m.0.players[actor], boosted, IDLE_BANK));
    assert BankOf(s2.players[actor], boosted) == IDLE_BANK;
    var r := UseItem(s, sock, item, target, d);
    assert r == Claim(s0, rid, actor, boosted);
    if m.1 {
      assert r.0 == Reset(s2, rid);
      assert r.0.players[actor] == Fresh(s2.players[actor]) || r.0.players[actor] == s2.players[actor];
    } else {
      ClaimLandingKeepsBanks(s2, rid, actor);
    }
  }

  /** The claim of a running mode: the move, the mode switched off, then the reset or the landing. */
  lemma ClaimActive(s: State, rid: RoomId, actor: PlayerId, boosted: bool)
    requires actor in s.players && BankOf(s.players[actor], boosted).active
    ensures var p := s.players[actor];
            var m := Move(s, actor, p.position, BankOf(p, boosted).stack);
            var s2 := Put(m.0, actor, WithBank(m.0.players[actor], boosted, IDLE_BANK));
            Claim(s, rid, actor, boosted) == if m.1 then (Reset(s2, rid), [actor]) else Land(s2, rid, actor)
  {
  }

  /** Landing never touches the lander's savings (a win resets them to idle). */
  lemma {:induction false} ClaimLandingKeepsBanks(s: State, rid: RoomId, pid: PlayerId)
    requires pid in s.players
    ensures pid in Land(s, rid, pid).0.players
    ensures var q := Land(s, rid, pid).0.players[pid];
            var p := s.players[pid];
            (q.saving == p.saving && q.boosted == p.boosted) || (q.saving == IDLE_BANK && q.boosted == IDLE_BANK)
    decreases LandRank(s, pid)
  {
    LandKeeps(s, rid, pid);
    if rid in s.rooms {
      var p := s.players[pid];
      if p.position != 0 && p.position != ISOLATION_CELL
         && CellAt(s.rooms[rid].events, p.position) == Some(MoveBack) {
        var (t, win) := Move(s, pid, p.position, -MOVE_BACK_STEPS);
        if !win {
          StepBackLowers(p.position);
          ClaimLandingKeepsBanks(t, rid, pid);
        }
      }
    }
  }

  /** Penalty 2 keeps exactly the plain dice: every remaining item is one, and none is lost. */
  lemma ConfiscationKeepsFate(s: State, rid: RoomId, actor: PlayerId, target: PlayerId)
    requires actor in s.players && target in s.players
    ensures var inv := ApplyPenalty(s, rid, actor, target, 2).0.players[target].inventory;
            && (forall y :: y in inv ==> y == Fate)
            && multiset(inv)[Fate] == multiset(s.players[target].inventory)[Fate]
  {
  }

  /**
   * Penalty 4 exchanges the target with the last-placed player of the user's room, who
   * stands no higher than any registered member; nothing happens when that is the target.
   */
  lemma SwapWithLowest(s: State, rid: RoomId, actor: PlayerId, target: PlayerId)
    requires actor in s.players && target in s.players && rid in s.rooms
    requires PlayersInRoom(s, rid) != []
    ensures var low := LowestRanked(s, rid).value;
            var r := ApplyPenalty(s, rid, actor, target, 4);
            && r.1 == []
            && (forall q :: q in s.rooms[rid].members && q in s.players ==>
                  s.players[low].position <= s.players[q].position)
            && (low == target ==> r.0 == s)
            && (low != target ==>
                  r.0.players[target].position == s.players[low].position
                  && r.0.players[low].position == s.players[target].position)
            && r == (if low != target then SwapPositions(s, target, low) else s, [])
  {
  }

  /**
   * Penalty 1 sends even a shielded target to the isolation cell with a fresh isolation;
   * landing there spends the shield and keeps that isolation. Nothing else changes.
   */
  lemma PenaltyIsolates(s: State, rid: RoomId, actor: PlayerId, target: PlayerId)
    requires actor in s.players && target in s.players && rid in s.rooms
    ensures var t := s.players[target];
            var r := ApplyPenalty(s, rid, actor, target, 1);
            && r.1 == []
            && r.0 == s.(players := s.players[target := t.(position := ISOLATION_CELL,
                                         effects := t.effects.(jail := Some(JAIL_TURNS)),
                                         shielded := t.shielded && t.position == ISOLATION_CELL)])
  {
    var t := s.players[target];
    var s1 := Put(s, target, t.(position := ISOLATION_CELL, effects := t.effects.(jail := Some(JAIL_TURNS))));
    if t.position != ISOLATION_CELL {
      LandOnIsolation(s1, rid, target);
    }
  }
}
